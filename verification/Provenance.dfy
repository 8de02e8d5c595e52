/** Source references and field-level provenance (`provenance.rs`). */
module Provenance {
  import opened MergePolicies
  import opened Options

  datatype ExternalId = ExternalId(namespace: string, value: string)

  // The observation time is one opaque number.
  datatype SourceRef = SourceRef(provider: ProviderId, externalId: Option<ExternalId>, locale: Option<string>,
                                 observedAt: nat)

  /** A value with the source that supplied it. */
  datatype Sourced<+T> = Sourced(value: T, source: SourceRef)

  // One `add` call.
  datatype Entry = Entry(path: string, source: SourceRef)

  // The sources added for one path, in the order of the calls.
  function SourcesFor(log: seq<Entry>, path: string): seq<SourceRef> {
    if log == [] then []
    else
      var last := log[|log| - 1];
      SourcesFor(log[..|log| - 1], path) + (if last.path == path then [last.source] else [])
  }

  lemma {:induction false} SourcesOfConcatenation(a: seq<Entry>, b: seq<Entry>, path: string)
    ensures SourcesFor(a + b, path) == SourcesFor(a, path) + SourcesFor(b, path)
  {
    if b == [] {
      assert a + b == a;
    } else {
      var i := |b| - 1;
      SourcesOfConcatenation(a, b[..i], path);
      assert (a + b)[..|a + b| - 1] == a + b[..i];
    }
  }

  // Every entry of a list of sources under one path.
  function Under(path: string, sources: seq<SourceRef>): seq<Entry> {
    seq(|sources|, i requires 0 <= i < |sources| => Entry(path, sources[i]))
  }

  lemma {:induction false} SourcesUnder(path: string, sources: seq<SourceRef>, other: string)
    ensures SourcesFor(Under(path, sources), other) == if other == path then sources else []
  {
    if sources != [] {
      var i := |sources| - 1;
      assert Under(path, sources)[..i] == Under(path, sources[..i]);
      SourcesUnder(path, sources[..i], other);
      assert sources == sources[..i] + [sources[i]];
    }
  }

  // A log that serves one path after another.
  datatype Section = Section(path: string, sources: seq<SourceRef>)

  function Journal(sections: seq<Section>): seq<Entry> {
    if sections == [] then []
    else
      var last := sections[|sections| - 1];
      Journal(sections[..|sections| - 1]) + Under(last.path, last.sources)
  }

  lemma JournalStep(sections: seq<Section>, next: Section)
    ensures Journal(sections + [next]) == Journal(sections) + Under(next.path, next.sources)
  {
    assert (sections + [next])[..|sections|] == sections;
  }

  lemma {:induction false} OtherSections(sections: seq<Section>, path: string)
    requires forall i :: 0 <= i < |sections| ==> sections[i].path != path
    ensures SourcesFor(Journal(sections), path) == []
  {
    if sections != [] {
      var n := |sections| - 1;
      OtherSections(sections[..n], path);
      SourcesOfConcatenation(Journal(sections[..n]), Under(sections[n].path, sections[n].sources), path);
      SourcesUnder(sections[n].path, sections[n].sources, path);
    }
  }

  /** A path that one section serves has exactly that section's sources. */
  lemma {:induction false} SourcesOfSection(sections: seq<Section>, n: nat)
    requires n < |sections|
    requires forall i :: 0 <= i < |sections| && i != n ==> sections[i].path != sections[n].path
    ensures SourcesFor(Journal(sections), sections[n].path) == sections[n].sources
  {
    var m := |sections| - 1;
    var last := sections[m];
    SourcesOfConcatenation(Journal(sections[..m]), Under(last.path, last.sources), sections[n].path);
    SourcesUnder(last.path, last.sources, sections[n].path);
    if n == m {
      OtherSections(sections[..m], last.path);
    } else {
      SourcesOfSection(sections[..m], n);
    }
  }

  lemma {:induction false} NoSourcesOutside(log: seq<Entry>, path: string)
    requires forall e :: e in log ==> e.path != path
    ensures SourcesFor(log, path) == []
  {
    if log != [] {
      NoSourcesOutside(log[..|log| - 1], path);
    }
  }

  type SourceMap = map<string, seq<SourceRef>>

  // A path has an entry in the map once it was added.
  ghost predicate Groups(sources: SourceMap, log: seq<Entry>) {
    && (forall p :: p in sources <==> exists e :: e in log && e.path == p)
    && (forall p :: p in sources ==> sources[p] == SourcesFor(log, p))
  }

  lemma GroupsIsUnique(a: SourceMap, b: SourceMap, log: seq<Entry>)
    requires Groups(a, log) && Groups(b, log)
    ensures a == b
  {
    forall p ensures p in a <==> p in b {}
  }

  // The map that a run of `add` calls builds.
  ghost function Grouped(log: seq<Entry>): (m: SourceMap)
    ensures Groups(m, log)
  {
    map e | e in log :: e.path := SourcesFor(log, e.path)
  }

  // `sources_for`: no sources for a path that was never added.
  function Lookup(sources: SourceMap, path: string): seq<SourceRef> {
    if path in sources then sources[path] else []
  }

  lemma LookupInGrouped(log: seq<Entry>, path: string)
    ensures Lookup(Grouped(log), path) == SourcesFor(log, path)
  {
    if path !in Grouped(log) { NoSourcesOutside(log, path); }
  }

  class ProvenanceMap {
    var sources: SourceMap
    ghost var log: seq<Entry>

    ghost predicate Valid()
      reads this
    {
      Groups(sources, log)
    }

    constructor ()
      ensures Valid() && log == [] && sources == map[]
    {
      sources := map[];
      log := [];
    }

    /** Pushes a source under a valid path; an invalid path changes nothing. */
    method Add(path: string, source: SourceRef) returns (added: bool)
      requires Valid()
      modifies this
      ensures Valid() && added == ValidPath(path)
      ensures log == if added then old(log) + [Entry(path, source)] else old(log)
    {
      if !ValidPath(path) { return false; }
      var earlier := if path in sources then sources[path] else [];
      if path !in sources { NoSourcesOutside(log, path); }
      sources := sources[path := earlier + [source]];
      var entry := Entry(path, source);
      forall p ensures SourcesFor(log + [entry], p) == SourcesFor(log, p) + if p == path then [source] else [] {
        assert (log + [entry])[..|log|] == log;
      }
      assert entry in log + [entry];
      log := log + [entry];
      return true;
    }

    /** All sources recorded for a path. */
    method Recorded(path: string) returns (r: seq<SourceRef>)
      requires Valid()
      ensures r == SourcesFor(log, path) == Lookup(sources, path)
    {
      if path in sources { return sources[path]; }
      NoSourcesOutside(log, path);
      return [];
    }
  }
}
