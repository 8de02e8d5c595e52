/** The merge loops, with their seen-sets and shared provenance, against the retention fold. */
module MergeLoops {
  import opened Completeness
  import opened Media
  import opened MergePolicies
  import opened Provenance
  import opened Results
  import opened Retention
  import opened Sequences
  import StableSort

  datatype MergeError =
    | NoDocuments
    | OrderingMismatch(expected: OrderingScheme, found: OrderingScheme)

  type MergeResult<+T> = Results.Result<T, MergeError>

  // The merged value with its field provenance and diagnostics.
  datatype Resolved<+T> = Resolved(
    value: T,
    provenance: SourceMap,
    conflicts: seq<MergeConflict>,
    completeness: real,
    warnings: seq<ResolutionWarning>)

  // What the checklist of a merged value says about it.
  function Rated<T>(value: T, provenance: SourceMap, conflicts: seq<MergeConflict>, checklist: seq<bool>): Resolved<T>
    requires checklist != []
  {
    Resolved(value, provenance, conflicts, Share(checklist), WarningsFor(Share(checklist)))
  }

  // The documents in the rank order of a field.
  function RankOf<T>(policy: MergePolicy, media: MediaKind, path: string): Sourced<T> -> int {
    (d: Sourced<T>) => policy.Rank(media, path, d.source.provider)
  }

  function Ordered<T>(policy: MergePolicy, media: MediaKind, path: string, documents: seq<Sourced<T>>)
    : seq<Sourced<T>>
  {
    StableSort.SortByKey(documents, RankOf(policy, media, path))
  }

  /** The base order forgets how the documents arrived when documents of equal rank are equal. */
  lemma OrderedForgets<T>(policy: MergePolicy, media: MediaKind, path: string, documents: seq<Sourced<T>>,
                          arrived: seq<Sourced<T>>)
    requires multiset(arrived) == multiset(documents)
    requires StableSort.TiesAreEqual(documents, RankOf(policy, media, path))
    ensures Ordered(policy, media, path, arrived) == Ordered(policy, media, path, documents)
  {
    StableSort.OrderForgotten(documents, arrived, RankOf(policy, media, path));
  }

  lemma OrderedKeepsLength<T>(policy: MergePolicy, media: MediaKind, path: string, documents: seq<Sourced<T>>)
    ensures |Ordered(policy, media, path, documents)| == |documents|
  {
    StableSort.SortByKeyIsStable(documents, RankOf(policy, media, path));
    assert |multiset(Ordered(policy, media, path, documents))| == |multiset(documents)|;
  }

  lemma OrderedSingle<T>(policy: MergePolicy, media: MediaKind, path: string, document: Sourced<T>)
    ensures Ordered(policy, media, path, [document]) == [document]
  {
    StableSort.SortedIsFixed([document], RankOf(policy, media, path));
  }

  // One field of every document.
  function Project<T, U>(documents: seq<Sourced<T>>, select: T -> U): seq<Sourced<U>> {
    seq(|documents|, i requires 0 <= i < |documents| => Sourced(select(documents[i].value), documents[i].source))
  }

  // What the loops over one list-valued field visit.
  function FieldObservations<T, U>(policy: MergePolicy, media: MediaKind, path: string, documents: seq<Sourced<T>>,
                                   select: T -> seq<U>): seq<Sourced<U>>
  {
    Observations(Project(Ordered(policy, media, path, documents), select))
  }

  lemma SingleObservations<T, U>(policy: MergePolicy, media: MediaKind, path: string, document: Sourced<T>,
                                 select: T -> seq<U>)
    ensures FieldObservations(policy, media, path, [document], select) ==
            Observed(Sourced(select(document.value), document.source))
    ensures Values(FieldObservations(policy, media, path, [document], select)) == select(document.value)
  {
    OrderedSingle(policy, media, path, document);
    var one := Sourced(select(document.value), document.source);
    assert Project([document], select) == [one];
    assert [one][..0] == [];
    assert Observations([one]) == Observations([one][..0]) + Observed([one][0]);
  }

  lemma ObservationsStep<T>(documents: seq<Sourced<seq<T>>>, i: nat)
    requires i < |documents|
    ensures Observations(documents[..i + 1]) == Observations(documents[..i]) + Observed(documents[i])
  {
    assert documents[..i + 1][..i] == documents[..i];
  }

  lemma ObservationStep<T>(document: Sourced<seq<T>>, j: nat)
    requires j < |document.value|
    ensures Observed(document)[..j + 1] == Observed(document)[..j] + [Sourced(document.value[j], document.source)]
  {
  }

  // A merged value, the provenance it adds and the conflicts it reports.
  datatype Outcome<+T> = Outcome(value: T, log: seq<Entry>, conflicts: seq<MergeConflict>)

  ghost function KeptField<T>(obs: seq<Sourced<T>>, clash: (T, T) -> bool, path: string): Outcome<seq<T>> {
    Outcome(Values(Kept(obs, clash)), Under(path, Sources(Kept(obs, clash))), [])
  }

  ghost function LocalizedField(obs: seq<Sourced<LocalizedEntry>>, untagged: string, path: string, unicode: Unicode)
    : Outcome<seq<LocalizedEntry>>
  {
    var key := LanguageKey(untagged);
    KeptField(obs, SameKey(key), path).(conflicts := Disagreements(obs, key, unicode.Normalize, path, |obs|))
  }

  // A field that a merge has already reduced is returned as it is, without conflicts.
  lemma KeptFieldIsNormal<T, U>(policy: MergePolicy, media: MediaKind, path: string, document: Sourced<T>,
                                select: T -> seq<U>, clash: (U, U) -> bool)
    requires NoClash(select(document.value), clash)
    ensures KeptField(FieldObservations(policy, media, path, [document], select), clash, path).value ==
            select(document.value)
  {
    SingleObservations(policy, media, path, document, select);
    KeptIsFixed(FieldObservations(policy, media, path, [document], select), clash);
  }

  lemma LocalizedFieldIsNormal<T>(policy: MergePolicy, media: MediaKind, path: string, document: Sourced<T>,
                                  select: T -> seq<LocalizedEntry>, untagged: string, unicode: Unicode)
    requires NoClash(select(document.value), SameKey(LanguageKey(untagged)))
    ensures var field := LocalizedField(FieldObservations(policy, media, path, [document], select), untagged, path,
                                        unicode);
            field.value == select(document.value) && field.conflicts == []
  {
    var obs := FieldObservations(policy, media, path, [document], select);
    KeptFieldIsNormal(policy, media, path, document, select, SameKey(LanguageKey(untagged)));
    SingleObservations(policy, media, path, document, select);
    NoDisagreements(obs, LanguageKey(untagged), unicode.Normalize, path, |obs|);
  }

  // Result and provenance hold exactly what the fold keeps of the observations visited so far.
  ghost predicate Tracks<T>(done: seq<Sourced<T>>, clash: (T, T) -> bool, path: string, before: seq<Entry>,
                            result: seq<T>, log: seq<Entry>)
  {
    && result == Values(Kept(done, clash))
    && log == before + Under(path, Sources(Kept(done, clash)))
  }

  lemma TracksStep<T>(done: seq<Sourced<T>>, next: Sourced<T>, clash: (T, T) -> bool, path: string, before: seq<Entry>,
                      result: seq<T>, log: seq<Entry>)
    requires Tracks(done, clash, path, before, result, log)
    ensures if ClashesWithAny(Kept(done, clash), next.value, clash)
            then Tracks(done + [next], clash, path, before, result, log)
            else Tracks(done + [next], clash, path, before, result + [next.value], log + [Entry(path, next.source)])
  {
    KeptStep(done, next, clash);
    var kept := Kept(done, clash);
    assert Values(kept + [next]) == Values(kept) + [next.value];
    assert Under(path, Sources(kept + [next])) == Under(path, Sources(kept)) + [Entry(path, next.source)];
  }

  // The seen-set holds the keys of the kept values.
  ghost predicate SeenKeys<T>(seen: set<string>, kept: seq<Sourced<T>>, key: T -> string) {
    forall k :: k in seen <==> exists n :: 0 <= n < |kept| && key(kept[n].value) == k
  }

  lemma SeenMore<T>(seen: set<string>, kept: seq<Sourced<T>>, next: Sourced<T>, key: T -> string)
    requires SeenKeys(seen, kept, key)
    ensures SeenKeys(seen + {key(next.value)}, kept + [next], key)
  {
    var more := kept + [next];
    forall k ensures k in seen + {key(next.value)} <==> exists n :: 0 <= n < |more| && key(more[n].value) == k {
      if k in seen {
        var n :| 0 <= n < |kept| && key(kept[n].value) == k;
        assert more[n] == kept[n];
      } else if k == key(next.value) {
        assert more[|kept|] == next;
      } else {
        forall n | 0 <= n < |more| ensures key(more[n].value) != k {
          if n < |kept| { assert key(kept[n].value) != k; }
        }
      }
    }
  }

  lemma SeenStep<T>(seen: set<string>, done: seq<Sourced<T>>, next: Sourced<T>, key: T -> string, clash: (T, T) -> bool)
    requires SeenKeys(seen, Kept(done, clash), key)
    ensures if ClashesWithAny(Kept(done, clash), next.value, clash)
            then SeenKeys(seen, Kept(done + [next], clash), key)
            else SeenKeys(seen + {key(next.value)}, Kept(done + [next], clash), key)
  {
    KeptStep(done, next, clash);
    SeenMore(seen, Kept(done, clash), next, key);
  }

  lemma SeenDecides<T>(seen: set<string>, kept: seq<Sourced<T>>, key: T -> string, value: T)
    requires SeenKeys(seen, kept, key)
    ensures key(value) in seen <==> ClashesWithAny(kept, value, SameKey(key))
  {
  }

  /** Keeps the first value of every key. */
  method MergeUnique<T>(documents: seq<Sourced<seq<T>>>, key: T -> string, path: string, provenance: ProvenanceMap)
    returns (result: seq<T>)
    requires ValidPath(path) && provenance.Valid()
    modifies provenance
    ensures provenance.Valid()
    ensures var field := KeptField(Observations(documents), SameKey(key), path);
            result == field.value && provenance.log == old(provenance.log) + field.log
  {
    var seen: set<string> := {};
    result := [];
    ghost var clash := SameKey(key);
    ghost var before := provenance.log;
    ghost var done: seq<Sourced<T>> := [];
    for i := 0 to |documents|
      invariant done == Observations(documents[..i]) && provenance.Valid()
      invariant Tracks(done, clash, path, before, result, provenance.log)
      invariant SeenKeys(seen, Kept(done, clash), key)
    {
      var document := documents[i];
      for j := 0 to |document.value|
        invariant done == Observations(documents[..i]) + Observed(document)[..j] && provenance.Valid()
        invariant Tracks(done, clash, path, before, result, provenance.log)
        invariant SeenKeys(seen, Kept(done, clash), key)
      {
        var value := document.value[j];
        ghost var next := Sourced(value, document.source);
        TracksStep(done, next, clash, path, before, result, provenance.log);
        SeenStep(seen, done, next, key, clash);
        SeenDecides(seen, Kept(done, clash), key, value);
        if key(value) !in seen {
          seen := seen + {key(value)};
          result := result + [value];
          var added := provenance.Add(path, document.source);
          assert added;
        }
        ObservationStep(document, j);
        done := done + [next];
      }
      ObservationsStep(documents, i);
    }
    assert documents[..|documents|] == documents;
  }

  type Identities = map<string, (string, ProviderId)>

  ghost predicate HasKey(done: seq<Sourced<LocalizedEntry>>, key: LocalizedEntry -> string, k: string) {
    exists n :: 0 <= n < |done| && key(done[n].value) == k
  }

  ghost predicate IsFirst(done: seq<Sourced<LocalizedEntry>>, key: LocalizedEntry -> string, n: nat) {
    n < |done| && forall m :: 0 <= m < n ==> key(done[m].value) != key(done[n].value)
  }

  // The identities map holds the first text and provider of every language seen so far.
  ghost predicate FirstIdentities(identities: Identities, done: seq<Sourced<LocalizedEntry>>,
                                  key: LocalizedEntry -> string)
  {
    && (forall k :: k in identities <==> HasKey(done, key, k))
    && (forall n: nat | IsFirst(done, key, n) ::
          key(done[n].value) in identities &&
          identities[key(done[n].value)] == (done[n].value.text, done[n].source.provider))
  }

  lemma HasKeyStep(done: seq<Sourced<LocalizedEntry>>, next: Sourced<LocalizedEntry>, key: LocalizedEntry -> string,
                   k: string)
    ensures HasKey(done + [next], key, k) <==> HasKey(done, key, k) || key(next.value) == k
  {
    var after := done + [next];
    assert after[|done|] == next;
    if HasKey(done, key, k) {
      var n :| 0 <= n < |done| && key(done[n].value) == k;
      assert after[n] == done[n];
    }
  }

  lemma IsFirstStep(done: seq<Sourced<LocalizedEntry>>, next: Sourced<LocalizedEntry>, key: LocalizedEntry -> string,
                    n: nat)
    requires n <= |done|
    ensures IsFirst(done + [next], key, n) <==>
            if n < |done| then IsFirst(done, key, n) else !HasKey(done, key, key(next.value))
  {
    var after := done + [next];
    assert forall m :: 0 <= m < |done| ==> after[m] == done[m];
  }

  lemma KnownLanguage(identities: Identities, done: seq<Sourced<LocalizedEntry>>, next: Sourced<LocalizedEntry>,
                      key: LocalizedEntry -> string)
    requires FirstIdentities(identities, done, key) && key(next.value) in identities
    ensures FirstIdentities(identities, done + [next], key)
    ensures var f := FirstWith(done + [next], key, |done|);
            f < |done| && identities[key(next.value)] == (done[f].value.text, done[f].source.provider)
  {
    var after := done + [next];
    forall k ensures k in identities <==> HasKey(after, key, k) { HasKeyStep(done, next, key, k); }
    forall n: nat | IsFirst(after, key, n)
      ensures key(after[n].value) in identities
      ensures identities[key(after[n].value)] == (after[n].value.text, after[n].source.provider) {
      IsFirstStep(done, next, key, n);
    }
    var f := FirstWith(after, key, |done|);
    assert IsFirst(after, key, f);
    IsFirstStep(done, next, key, f);
  }

  lemma NewLanguage(identities: Identities, done: seq<Sourced<LocalizedEntry>>, next: Sourced<LocalizedEntry>,
                    key: LocalizedEntry -> string)
    requires FirstIdentities(identities, done, key) && key(next.value) !in identities
    ensures FirstIdentities(identities[key(next.value) := (next.value.text, next.source.provider)], done + [next], key)
    ensures FirstWith(done + [next], key, |done|) == |done|
  {
    var after := done + [next];
    var grown := identities[key(next.value) := (next.value.text, next.source.provider)];
    forall k ensures k in grown <==> HasKey(after, key, k) { HasKeyStep(done, next, key, k); }
    forall n: nat | IsFirst(after, key, n)
      ensures key(after[n].value) in grown
      ensures grown[key(after[n].value)] == (after[n].value.text, after[n].source.provider) {
      IsFirstStep(done, next, key, n);
      if n < |done| {
        assert HasKey(done, key, key(done[n].value));
      }
    }
    var f := FirstWith(after, key, |done|);
    assert forall m :: 0 <= m < |done| ==> HasKey(done, key, key(done[m].value));
  }

  // The conflict that one visited entry adds, in terms of the identities map.
  function ConflictWith(identities: Identities, entry: LocalizedEntry, language: string, provider: ProviderId,
                        path: string, unicode: Unicode): seq<MergeConflict>
  {
    if language in identities && unicode.Normalize(identities[language].0) != unicode.Normalize(entry.text)
    then [MergeConflict(Dotted(path, language), [identities[language].1, provider])]
    else []
  }

  lemma LastConflict(identities: Identities, done: seq<Sourced<LocalizedEntry>>, next: Sourced<LocalizedEntry>,
                     key: LocalizedEntry -> string, path: string, unicode: Unicode)
    requires FirstIdentities(identities, done, key)
    ensures ConflictWith(identities, next.value, key(next.value), next.source.provider, path, unicode) ==
            if Loses(done + [next], key, unicode.Normalize, |done|) then [ConflictOf(done + [next], key, path, |done|)]
            else []
  {
    var n, after := |done|, done + [next];
    assert after[n] == next;
    if key(next.value) in identities {
      KnownLanguage(identities, done, next, key);
      var f := FirstWith(after, key, n);
      assert after[f] == done[f];
    } else {
      NewLanguage(identities, done, next, key);
    }
  }

  lemma ConflictStep(identities: Identities, done: seq<Sourced<LocalizedEntry>>, next: Sourced<LocalizedEntry>,
                     key: LocalizedEntry -> string, path: string, unicode: Unicode)
    requires FirstIdentities(identities, done, key)
    ensures Disagreements(done + [next], key, unicode.Normalize, path, |done| + 1) ==
            Disagreements(done, key, unicode.Normalize, path, |done|) +
            ConflictWith(identities, next.value, key(next.value), next.source.provider, path, unicode)
  {
    var after := done + [next];
    LastConflict(identities, done, next, key, path, unicode);
    DisagreementsOfPrefix(done, after, key, unicode.Normalize, path, |done|);
    DisagreementsStep(after, key, unicode.Normalize, path, |done|);
  }

  lemma SeenLanguagesStep(identities: Identities, done: seq<Sourced<LocalizedEntry>>, next: Sourced<LocalizedEntry>,
                          key: LocalizedEntry -> string)
    requires SeenKeys(identities.Keys, Kept(done, SameKey(key)), key)
    ensures key(next.value) in identities <==> ClashesWithAny(Kept(done, SameKey(key)), next.value, SameKey(key))
    ensures var after := if key(next.value) in identities then identities
                         else identities[key(next.value) := (next.value.text, next.source.provider)];
            SeenKeys(after.Keys, Kept(done + [next], SameKey(key)), key)
  {
    SeenDecides(identities.Keys, Kept(done, SameKey(key)), key, next.value);
    SeenStep(identities.Keys, done, next, key, SameKey(key));
    assert identities[key(next.value) := (next.value.text, next.source.provider)].Keys ==
           identities.Keys + {key(next.value)};
  }

  // The variables of the localized loop, and what one entry does to them.
  datatype LocalizedLoop = LocalizedLoop(identities: Identities, result: seq<LocalizedEntry>, log: seq<Entry>,
                                         conflicts: seq<MergeConflict>)
  {
    function Visit(entry: LocalizedEntry, source: SourceRef, language: string, path: string, unicode: Unicode)
      : LocalizedLoop
    {
      if language in identities then
        this.(conflicts := conflicts + ConflictWith(identities, entry, language, source.provider, path, unicode))
      else
        LocalizedLoop(identities[language := (entry.text, source.provider)], result + [entry],
                      log + [Entry(path, source)], conflicts)
    }
  }

  function LocalizedRun(done: seq<Sourced<LocalizedEntry>>, key: LocalizedEntry -> string, path: string,
                        unicode: Unicode): LocalizedLoop
  {
    if done == [] then LocalizedLoop(map[], [], [], [])
    else
      var last := done[|done| - 1];
      LocalizedRun(done[..|done| - 1], key, path, unicode).Visit(last.value, last.source, key(last.value), path,
                                                                 unicode)
  }

  ghost predicate RunMeaning(run: LocalizedLoop, done: seq<Sourced<LocalizedEntry>>, key: LocalizedEntry -> string,
                             path: string, unicode: Unicode)
  {
    && Tracks(done, SameKey(key), path, [], run.result, run.log)
    && FirstIdentities(run.identities, done, key)
    && SeenKeys(run.identities.Keys, Kept(done, SameKey(key)), key)
    && run.conflicts == Disagreements(done, key, unicode.Normalize, path, |done|)
  }

  lemma VisitTracks(run: LocalizedLoop, done: seq<Sourced<LocalizedEntry>>, next: Sourced<LocalizedEntry>,
                    key: LocalizedEntry -> string, path: string, unicode: Unicode)
    requires Tracks(done, SameKey(key), path, [], run.result, run.log)
    requires SeenKeys(run.identities.Keys, Kept(done, SameKey(key)), key)
    ensures var after := run.Visit(next.value, next.source, key(next.value), path, unicode);
            && Tracks(done + [next], SameKey(key), path, [], after.result, after.log)
            && SeenKeys(after.identities.Keys, Kept(done + [next], SameKey(key)), key)
  {
    SeenLanguagesStep(run.identities, done, next, key);
    TracksStep(done, next, SameKey(key), path, [], run.result, run.log);
  }

  lemma VisitIdentifies(run: LocalizedLoop, done: seq<Sourced<LocalizedEntry>>, next: Sourced<LocalizedEntry>,
                        key: LocalizedEntry -> string, path: string, unicode: Unicode)
    requires FirstIdentities(run.identities, done, key)
    ensures FirstIdentities(run.Visit(next.value, next.source, key(next.value), path, unicode).identities,
                            done + [next], key)
  {
    if key(next.value) in run.identities {
      KnownLanguage(run.identities, done, next, key);
    } else {
      NewLanguage(run.identities, done, next, key);
    }
  }

  lemma RunMeaningStep(run: LocalizedLoop, done: seq<Sourced<LocalizedEntry>>, next: Sourced<LocalizedEntry>,
                       key: LocalizedEntry -> string, path: string, unicode: Unicode)
    requires RunMeaning(run, done, key, path, unicode)
    ensures RunMeaning(run.Visit(next.value, next.source, key(next.value), path, unicode), done + [next], key, path,
                       unicode)
  {
    VisitTracks(run, done, next, key, path, unicode);
    VisitIdentifies(run, done, next, key, path, unicode);
    ConflictStep(run.identities, done, next, key, path, unicode);
  }

  lemma NothingVisited(key: LocalizedEntry -> string, path: string, unicode: Unicode)
    ensures RunMeaning(LocalizedLoop(map[], [], [], []), [], key, path, unicode)
  {
    assert Under(path, Sources(Kept([], SameKey(key)))) == [];
  }

  lemma LocalizedRunStep(done: seq<Sourced<LocalizedEntry>>, next: Sourced<LocalizedEntry>,
                         key: LocalizedEntry -> string,
                         path: string, unicode: Unicode)
    ensures LocalizedRun(done + [next], key, path, unicode) ==
            LocalizedRun(done, key, path, unicode).Visit(next.value, next.source, key(next.value), path, unicode)
  {
    assert (done + [next])[..|done|] == done;
  }

  lemma LocalizedRunMeaningStep(before: seq<Sourced<LocalizedEntry>>, last: Sourced<LocalizedEntry>,
                                key: LocalizedEntry -> string, path: string, unicode: Unicode)
    requires RunMeaning(LocalizedRun(before, key, path, unicode), before, key, path, unicode)
    ensures RunMeaning(LocalizedRun(before + [last], key, path, unicode), before + [last], key, path, unicode)
  {
    LocalizedRunStep(before, last, key, path, unicode);
    RunMeaningStep(LocalizedRun(before, key, path, unicode), before, last, key, path, unicode);
  }

  /** A run of the loop keeps the retained entries and reports exactly the disagreements. */
  lemma {:induction false} LocalizedRunMeaning(done: seq<Sourced<LocalizedEntry>>, key: LocalizedEntry -> string,
                                               path: string, unicode: Unicode)
    ensures RunMeaning(LocalizedRun(done, key, path, unicode), done, key, path, unicode)
  {
    if done == [] {
      NothingVisited(key, path, unicode);
    } else {
      var n := |done| - 1;
      SplitLast(done, n);
      LocalizedRunMeaning(done[..n], key, path, unicode);
      LocalizedRunMeaningStep(done[..n], done[n], key, path, unicode);
    }
  }

  lemma LocalizedRunIsField(obs: seq<Sourced<LocalizedEntry>>, untagged: string, path: string, unicode: Unicode)
    ensures var run := LocalizedRun(obs, LanguageKey(untagged), path, unicode);
            LocalizedField(obs, untagged, path, unicode) == Outcome(run.result, run.log, run.conflicts)
  {
    LocalizedRunMeaning(obs, LanguageKey(untagged), path, unicode);
  }

  // The body of the inner loop.
  method VisitEntry(entry: LocalizedEntry, source: SourceRef, language: string, path: string, unicode: Unicode,
                    known: Identities, kept: seq<LocalizedEntry>, earlier: seq<MergeConflict>,
                      provenance: ProvenanceMap)
    returns (identities: Identities, result: seq<LocalizedEntry>, conflicts: seq<MergeConflict>)
    requires ValidPath(path) && provenance.Valid()
    modifies provenance
    ensures provenance.Valid()
    ensures conflicts == earlier + ConflictWith(known, entry, language, source.provider, path, unicode)
    ensures if language in known
            then identities == known && result == kept && provenance.log == old(provenance.log)
            else identities == known[language := (entry.text, source.provider)] && result == kept + [entry] &&
                 provenance.log == old(provenance.log) + [Entry(path, source)]
  {
    identities, result, conflicts := known, kept, earlier;
    if language in identities {
      var (existing, provider) := identities[language];
      if unicode.Normalize(existing) != unicode.Normalize(entry.text) {
        conflicts := conflicts + [MergeConflict(Dotted(path, language), [provider, source.provider])];
      }
      return;
    }
    identities := identities[language := (entry.text, source.provider)];
    result := result + [entry];
    var added := provenance.Add(path, source);
    assert added;
  }

  // The loop holds what a run over the visited entries leaves, on top of what was there before.
  ghost predicate AtRun(run: LocalizedLoop, identities: Identities, result: seq<LocalizedEntry>,
                        conflicts: seq<MergeConflict>, log: seq<Entry>, before: seq<Entry>,
                          earlier: seq<MergeConflict>)
  {
    && identities == run.identities && result == run.result
    && log == before + run.log && conflicts == earlier + run.conflicts
  }

  lemma VisitMoves(run: LocalizedLoop, entry: LocalizedEntry, source: SourceRef, language: string, path: string,
                   unicode: Unicode, before: seq<Entry>, earlier: seq<MergeConflict>)
    ensures var after := run.Visit(entry, source, language, path, unicode);
            && earlier + after.conflicts ==
               earlier + run.conflicts + ConflictWith(run.identities, entry, language, source.provider, path, unicode)
            && before + after.log == before + run.log + if language in run.identities then [] else [Entry(path, source)]
  {
    Associative(before, run.log, [Entry(path, source)]);
    Associative(earlier, run.conflicts, ConflictWith(run.identities, entry, language, source.provider, path, unicode));
  }

  // The loop over the texts of one document; `done` was visited before.
  method MergeDocumentTexts(document: Sourced<seq<LocalizedEntry>>, path: string, key: LocalizedEntry -> string,
                            unicode: Unicode, provenance: ProvenanceMap, known: Identities, kept: seq<LocalizedEntry>,
                            found: seq<MergeConflict>, ghost done: seq<Sourced<LocalizedEntry>>,
                            ghost before: seq<Entry>, ghost earlier: seq<MergeConflict>)
    returns (identities: Identities, result: seq<LocalizedEntry>, conflicts: seq<MergeConflict>)
    requires ValidPath(path) && provenance.Valid()
    requires AtRun(LocalizedRun(done, key, path, unicode), known, kept, found, provenance.log, before, earlier)
    modifies provenance
    ensures provenance.Valid()
    ensures AtRun(LocalizedRun(done + Observed(document), key, path, unicode), identities, result, conflicts,
                  provenance.log, before, earlier)
  {
    identities, result, conflicts := known, kept, found;
    ghost var visited := done;
    assert done + Observed(document)[..0] == done;
    for j := 0 to |document.value|
      invariant visited == done + Observed(document)[..j] && provenance.Valid()
      invariant AtRun(LocalizedRun(visited, key, path, unicode), identities, result, conflicts, provenance.log,
                      before, earlier)
    {
      var entry := document.value[j];
      var language := key(entry);
      ghost var run, next := LocalizedRun(visited, key, path, unicode), Sourced(entry, document.source);
      LocalizedRunStep(visited, next, key, path, unicode);
      VisitMoves(run, entry, document.source, language, path, unicode, before, earlier);
      ObservationStep(document, j);
      Associative(done, Observed(document)[..j], [next]);
      visited := visited + [next];
      identities, result, conflicts :=
        VisitEntry(entry, document.source, language, path, unicode, identities, result, conflicts, provenance);
    }
    assert Observed(document)[..|document.value|] == Observed(document);
  }

  /** Keeps the first text of every language and reports each later text that disagrees with it. */
  method MergeLocalized(documents: seq<Sourced<seq<LocalizedEntry>>>, path: string, untagged: string,
                        unicode: Unicode, provenance: ProvenanceMap, earlier: seq<MergeConflict>)
    returns (result: seq<LocalizedEntry>, conflicts: seq<MergeConflict>)
    requires ValidPath(path) && provenance.Valid()
    modifies provenance
    ensures provenance.Valid()
    ensures var field := LocalizedField(Observations(documents), untagged, path, unicode);
            && result == field.value
            && provenance.log == old(provenance.log) + field.log
            && conflicts == earlier + field.conflicts
  {
    var key := LanguageKey(untagged);
    var identities: Identities := map[];
    result, conflicts := [], earlier;
    ghost var before := provenance.log;
    ghost var done: seq<Sourced<LocalizedEntry>> := [];
    for i := 0 to |documents|
      invariant done == Observations(documents[..i]) && provenance.Valid()
      invariant AtRun(LocalizedRun(done, key, path, unicode), identities, result, conflicts, provenance.log,
                      before, earlier)
    {
      identities, result, conflicts :=
        MergeDocumentTexts(documents[i], path, key, unicode, provenance, identities, result, conflicts,
                           done, before, earlier);
      ObservationsStep(documents, i);
      done := done + Observed(documents[i]);
    }
    assert documents[..|documents|] == documents;
    LocalizedRunIsField(done, untagged, path, unicode);
  }

  function PersonKey(): Credit -> string {
    (c: Credit) => c.person.id
  }

  function IdentityKey(unicode: Unicode): Credit -> string {
    (c: Credit) => CreditIdentity(unicode, c)
  }

  lemma SeenCreditsDecide(ids: set<string>, identities: set<string>, kept: seq<Sourced<Credit>>, unicode: Unicode,
                          credit: Credit)
    requires SeenKeys(ids, kept, PersonKey()) && SeenKeys(identities, kept, IdentityKey(unicode))
    ensures (credit.person.id in ids || CreditIdentity(unicode, credit) in identities) <==>
            ClashesWithAny(kept, credit, SameCredit(unicode))
  {
    if credit.person.id in ids {
      var n :| 0 <= n < |kept| && PersonKey()(kept[n].value) == credit.person.id;
      assert SameCredit(unicode)(kept[n].value, credit);
    } else if CreditIdentity(unicode, credit) in identities {
      var n :| 0 <= n < |kept| && IdentityKey(unicode)(kept[n].value) == CreditIdentity(unicode, credit);
      assert SameCredit(unicode)(kept[n].value, credit);
    }
    if ClashesWithAny(kept, credit, SameCredit(unicode)) {
      var n :| 0 <= n < |kept| && SameCredit(unicode)(kept[n].value, credit);
      assert PersonKey()(kept[n].value) in ids && IdentityKey(unicode)(kept[n].value) in identities;
    }
  }

  // One credit of the loop, kept or passed over.
  lemma CreditStep(ids: set<string>, identities: set<string>, done: seq<Sourced<Credit>>, next: Sourced<Credit>,
                   unicode: Unicode, path: string, before: seq<Entry>, result: seq<Credit>, log: seq<Entry>)
    requires Tracks(done, SameCredit(unicode), path, before, result, log)
    requires SeenKeys(ids, Kept(done, SameCredit(unicode)), PersonKey())
    requires SeenKeys(identities, Kept(done, SameCredit(unicode)), IdentityKey(unicode))
    ensures var clash, id, identity := SameCredit(unicode), next.value.person.id, CreditIdentity(unicode, next.value);
            if id in ids || identity in identities then
              && Tracks(done + [next], clash, path, before, result, log)
              && SeenKeys(ids, Kept(done + [next], clash), PersonKey())
              && SeenKeys(identities, Kept(done + [next], clash), IdentityKey(unicode))
            else
              && Tracks(done + [next], clash, path, before, result + [next.value], log + [Entry(path, next.source)])
              && SeenKeys(ids + {id}, Kept(done + [next], clash), PersonKey())
              && SeenKeys(identities + {identity}, Kept(done + [next], clash), IdentityKey(unicode))
  {
    var clash := SameCredit(unicode);
    TracksStep(done, next, clash, path, before, result, log);
    SeenStep(ids, done, next, PersonKey(), clash);
    SeenStep(identities, done, next, IdentityKey(unicode), clash);
    SeenCreditsDecide(ids, identities, Kept(done, clash), unicode, next.value);
  }

  // The loop over the credits of one document; `done` was visited before, and `before` logged.
  method MergeDocumentCredits(document: Sourced<seq<Credit>>, path: string, unicode: Unicode, provenance: ProvenanceMap,
                              knownIds: set<string>, knownIdentities: set<string>, kept: seq<Credit>,
                              ghost done: seq<Sourced<Credit>>, ghost before: seq<Entry>)
    returns (ids: set<string>, identities: set<string>, result: seq<Credit>)
    requires ValidPath(path) && provenance.Valid()
    requires Tracks(done, SameCredit(unicode), path, before, kept, provenance.log)
    requires SeenKeys(knownIds, Kept(done, SameCredit(unicode)), PersonKey())
    requires SeenKeys(knownIdentities, Kept(done, SameCredit(unicode)), IdentityKey(unicode))
    modifies provenance
    ensures provenance.Valid()
    ensures Tracks(done + Observed(document), SameCredit(unicode), path, before, result, provenance.log)
    ensures SeenKeys(ids, Kept(done + Observed(document), SameCredit(unicode)), PersonKey())
    ensures SeenKeys(identities, Kept(done + Observed(document), SameCredit(unicode)), IdentityKey(unicode))
  {
    ids, identities, result := knownIds, knownIdentities, kept;
    ghost var visited, clash := done, SameCredit(unicode);
    assert done + Observed(document)[..0] == done;
    for j := 0 to |document.value|
      invariant visited == done + Observed(document)[..j] && provenance.Valid()
      invariant Tracks(visited, clash, path, before, result, provenance.log)
      invariant SeenKeys(ids, Kept(visited, clash), PersonKey())
      invariant SeenKeys(identities, Kept(visited, clash), IdentityKey(unicode))
    {
      var credit := document.value[j];
      var id, identity := credit.person.id, CreditIdentity(unicode, credit);
      ghost var next := Sourced(credit, document.source);
      CreditStep(ids, identities, visited, next, unicode, path, before, result, provenance.log);
      if id !in ids && identity !in identities {
        ids := ids + {id};
        identities := identities + {identity};
        result := result + [credit];
        var added := provenance.Add(path, document.source);
        assert added;
      }
      ObservationStep(document, j);
      Associative(done, Observed(document)[..j], [next]);
      visited := visited + [next];
    }
    assert Observed(document)[..|document.value|] == Observed(document);
  }

  /** Keeps a credit unless a kept one has its person, or its normalized name and role. */
  method MergeCredits(documents: seq<Sourced<seq<Credit>>>, path: string, unicode: Unicode, provenance: ProvenanceMap)
    returns (result: seq<Credit>)
    requires ValidPath(path) && provenance.Valid()
    modifies provenance
    ensures provenance.Valid()
    ensures var field := KeptField(Observations(documents), SameCredit(unicode), path);
            result == field.value && provenance.log == old(provenance.log) + field.log
  {
    var ids: set<string>, identities: set<string> := {}, {};
    result := [];
    ghost var clash, before := SameCredit(unicode), provenance.log;
    ghost var done: seq<Sourced<Credit>> := [];
    for i := 0 to |documents|
      invariant done == Observations(documents[..i]) && provenance.Valid()
      invariant Tracks(done, clash, path, before, result, provenance.log)
      invariant SeenKeys(ids, Kept(done, clash), PersonKey())
      invariant SeenKeys(identities, Kept(done, clash), IdentityKey(unicode))
    {
      ids, identities, result :=
        MergeDocumentCredits(documents[i], path, unicode, provenance, ids, identities, result, done, before);
      ObservationsStep(documents, i);
      done := done + Observed(documents[i]);
    }
    assert documents[..|documents|] == documents;
  }
}
