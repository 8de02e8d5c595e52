/** The television merge loops (`SeriesMerger::merge`), proved to compute `SeriesMerge.Merged`. */
module SeriesMerger {
  import opened Completeness
  import opened Media
  import opened MergeLoops
  import opened MergePolicies
  import opened Options
  import opened OrderedSets
  import opened Provenance
  import opened Results
  import opened Retention
  import opened Sequences
  import opened SeriesMerge

  /** The first scheme, in document order, that differs from the series ordering. */
  method CheckOrdering(documents: seq<SeriesDocument>, ordering: OrderingScheme)
    returns (mismatch: Option<OrderingScheme>)
    ensures mismatch == FirstMismatch(documents, ordering)
  {
    for i := 0 to |documents|
      invariant FirstMismatch(documents, ordering) == FirstMismatch(documents[i..], ordering)
    {
      var document := documents[i];
      assert documents[i..][1..] == documents[i + 1..];
      if document.value.ordering != ordering { return Some(document.value.ordering); }
      var episodes := EpisodesOf(document.value.seasons);
      for j := 0 to |episodes|
        invariant FirstForeign(episodes, ordering) == FirstForeign(episodes[j..], ordering)
      {
        assert episodes[j..][1..] == episodes[j + 1..];
        if episodes[j].sequence.scheme != ordering { return Some(episodes[j].sequence.scheme); }
      }
      assert episodes[|episodes|..] == [];
    }
    assert documents[|documents|..] == [];
    return None;
  }

  lemma GatherStep<K, V>(keys: seq<K>, k: K, step: K -> Outcome<seq<V>>)
    ensures var before, last, after := Gather(keys, step), step(k), Gather(keys + [k], step);
            && after.value == before.value + last.value
            && after.log == before.log + last.log
            && after.conflicts == before.conflicts + last.conflicts
  {
    assert (keys + [k])[..|keys|] == keys;
  }

  method MergeRuntime(policy: MergePolicy, path: string, documents: seq<Sourced<Episode>>, provenance: ProvenanceMap)
    returns (runtime: Option<nat>)
    requires ValidPath(path) && provenance.Valid()
    modifies provenance
    ensures provenance.Valid()
    ensures var field := RuntimeField(policy, path, documents);
            runtime == field.value && provenance.log == old(provenance.log) + field.log
  {
    var ordered := Ordered(policy, Television, path, documents);
    for i := 0 to |ordered|
      invariant FirstRuntime(ordered) == FirstRuntime(ordered[i..])
      invariant provenance.Valid() && provenance.log == old(provenance.log)
    {
      assert ordered[i..][1..] == ordered[i + 1..];
      if ordered[i].value.runtime.Some? {
        var added := provenance.Add(path, ordered[i].source);
        return ordered[i].value.runtime;
      }
    }
    assert ordered[|ordered|..] == [];
    return None;
  }

  method MergeText(policy: MergePolicy, unicode: Unicode, path: string, documents: seq<Sourced<Episode>>,
                   select: Episode -> seq<LocalizedEntry>, provenance: ProvenanceMap, earlier: seq<MergeConflict>)
    returns (result: seq<LocalizedEntry>, conflicts: seq<MergeConflict>)
    requires ValidPath(path) && provenance.Valid()
    modifies provenance
    ensures provenance.Valid()
    ensures var field := EpisodeText(policy, unicode, path, documents, select);
            && result == field.value
            && provenance.log == old(provenance.log) + field.log
            && conflicts == earlier + field.conflicts
  {
    result, conflicts := MergeLocalized(
      Project(Ordered(policy, Television, path, documents), select), path, UNTAGGED, unicode, provenance, earlier);
  }

  method MergeArtwork<T>(policy: MergePolicy, unicode: Unicode, path: string, documents: seq<Sourced<T>>,
                         select: T -> seq<ArtworkReference>, provenance: ProvenanceMap)
    returns (result: seq<ArtworkReference>)
    requires ValidPath(path) && provenance.Valid()
    modifies provenance
    ensures provenance.Valid()
    ensures var field := ArtworkField(policy, unicode, path, documents, select);
            result == field.value && provenance.log == old(provenance.log) + field.log
  {
    result := MergeUnique(Project(Ordered(policy, Television, path, documents), select), ArtworkKey(unicode), path,
                          provenance);
  }

  lemma EpisodeFieldPaths(path: string)
    requires ValidPath(path)
    ensures ValidPath(Dotted(path, "titles")) && ValidPath(Dotted(path, "summaries"))
    ensures ValidPath(Dotted(path, "runtime")) && ValidPath(Dotted(path, "credits")) &&
            ValidPath(Dotted(path, "artwork"))
  {
    FieldWords();
    DottedIsValid(path, "titles");
    DottedIsValid(path, "summaries");
    DottedIsValid(path, "runtime");
    DottedIsValid(path, "credits");
    DottedIsValid(path, "artwork");
  }

  /** One episode, from the documents that have it in base-path order. */
  method MergeEpisode(policy: MergePolicy, unicode: Unicode, path: string, documents: seq<Sourced<Episode>>,
                      provenance: ProvenanceMap, earlier: seq<MergeConflict>)
    returns (episode: Episode, conflicts: seq<MergeConflict>)
    requires ValidPath(path) && documents != [] && provenance.Valid()
    modifies provenance
    ensures provenance.Valid()
    ensures var merged := EpisodeOf(policy, unicode, path, documents);
            && episode == merged.value
            && provenance.log == old(provenance.log) + merged.log
            && conflicts == earlier + merged.conflicts
  {
    EpisodeFieldPaths(path);
    ghost var before := provenance.log;
    episode := documents[0].value;
    var added := provenance.Add(path, documents[0].source);
    var titles, titleConflicts :=
      MergeText(policy, unicode, Dotted(path, "titles"), documents, EpisodeTitles, provenance, earlier);
    ghost var t := EpisodeText(policy, unicode, Dotted(path, "titles"), documents, EpisodeTitles);
    var summaries, allConflicts :=
      MergeText(policy, unicode, Dotted(path, "summaries"), documents, EpisodeSummaries, provenance, titleConflicts);
    ghost var s := EpisodeText(policy, unicode, Dotted(path, "summaries"), documents, EpisodeSummaries);
    conflicts := allConflicts;
    Associative(earlier, t.conflicts, s.conflicts);
    var runtime := MergeRuntime(policy, Dotted(path, "runtime"), documents, provenance);
    ghost var r := RuntimeField(policy, Dotted(path, "runtime"), documents);
    var credits := MergeCredits(
      Project(Ordered(policy, Television, Dotted(path, "credits"), documents), EpisodeCredits),
      Dotted(path, "credits"), unicode, provenance);
    ghost var c := CreditsField(policy, unicode, Dotted(path, "credits"), documents);
    var artwork := MergeArtwork(policy, unicode, Dotted(path, "artwork"), documents, EpisodeArtwork, provenance);
    ghost var a := ArtworkField(policy, unicode, Dotted(path, "artwork"), documents, EpisodeArtwork);
    SixInARow(before, [Entry(path, documents[0].source)], t.log, s.log, r.log, c.log, a.log);
    episode := episode.(titles := titles, summaries := summaries, runtime := runtime, credits := credits,
                        artwork := artwork);
  }

  lemma SixInARow<T>(z: seq<T>, a: seq<T>, b: seq<T>, c: seq<T>, d: seq<T>, e: seq<T>, f: seq<T>)
    ensures z + a + b + c + d + e + f == z + (a + b + c + d + e + f)
  {
  }

  lemma ThreeInARow<T>(z: seq<T>, a: seq<T>, b: seq<T>, c: seq<T>)
    ensures z + a + b + c == z + (a + b + c)
  {
  }

  /** The union of the documents' episode sequences, each merged in ascending order. */
  method MergeEpisodes(policy: MergePolicy, unicode: Unicode, season: nat, documents: seq<Sourced<Season>>,
                       provenance: ProvenanceMap, earlier: seq<MergeConflict>)
    returns (result: seq<Episode>, conflicts: seq<MergeConflict>)
    requires provenance.Valid()
    modifies provenance
    ensures provenance.Valid()
    ensures var merged := Episodes(policy, unicode, season, documents);
            && result == merged.value
            && provenance.log == old(provenance.log) + merged.log
            && conflicts == earlier + merged.conflicts
  {
    var sequences: set<EpisodeSequence> := {};
    for i := 0 to |documents|
      invariant sequences == SequencesOf(documents[..i])
    {
      assert documents[..i + 1] == documents[..i] + [documents[i]];
      sequences := sequences + set e | e in documents[i].value.episodes :: e.sequence;
    }
    assert documents[..|documents|] == documents;
    SequencesAreOrdered();
    ghost var step := EpisodeStep(policy, unicode, season, documents);
    ghost var keys: seq<EpisodeSequence> := [];
    ghost var before := provenance.log;
    result, conflicts := [], earlier;
    while sequences != {}
      invariant Ascending(SequencesOf(documents), SequenceLess) == keys + Ascending(sequences, SequenceLess)
      invariant provenance.Valid() && result == Gather(keys, step).value
      invariant provenance.log == before + Gather(keys, step).log
      invariant conflicts == earlier + Gather(keys, step).conflicts
      decreases sequences
    {
      var sequence := TakeFirst(sequences, SequenceLess);
      sequences := sequences - {sequence};
      GatherStep(keys, sequence, step);
      Associative(before, Gather(keys, step).log, step(sequence).log);
      Associative(earlier, Gather(keys, step).conflicts, step(sequence).conflicts);
      Associative(keys, [sequence], Ascending(sequences, SequenceLess));
      var path := EpisodePath(season, sequence.episode);
      EpisodePathIsValid(season, sequence.episode);
      var ordered := EpisodeOrder(policy, season, documents, sequence);
      keys := keys + [sequence];
      if ordered == [] { continue; }
      var episode, more := MergeEpisode(policy, unicode, path, ordered, provenance, conflicts);
      result, conflicts := result + [episode], more;
    }
    assert keys + [] == keys;
  }

  /** One season, from the documents that have its number in the order of its path. */
  method MergeSeason(policy: MergePolicy, unicode: Unicode, number: nat, documents: seq<Sourced<Season>>,
                     provenance: ProvenanceMap, earlier: seq<MergeConflict>)
    returns (season: Season, conflicts: seq<MergeConflict>)
    requires documents != [] && provenance.Valid()
    modifies provenance
    ensures provenance.Valid()
    ensures var merged := SeasonOf(policy, unicode, number, documents);
            && season == merged.value
            && provenance.log == old(provenance.log) + merged.log
            && conflicts == earlier + merged.conflicts
  {
    var path := SeasonPath(number);
    SeasonPathIsValid(number);
    FieldWords();
    DottedIsValid(path, "artwork");
    ghost var before := provenance.log;
    season := documents[0].value;
    var added := provenance.Add(path, documents[0].source);
    var episodes, more := MergeEpisodes(policy, unicode, number, documents, provenance, earlier);
    var artwork := MergeArtwork(policy, unicode, Dotted(path, "artwork"), documents, SeasonArtwork, provenance);
    season, conflicts := season.(episodes := episodes, artwork := artwork), more;
    ghost var e := Episodes(policy, unicode, number, documents).log;
    ghost var a := ArtworkField(policy, unicode, Dotted(path, "artwork"), documents, SeasonArtwork).log;
    ThreeInARow(before, [Entry(path, documents[0].source)], e, a);
  }

  /** The union of the documents' season numbers, each merged in ascending order. */
  method MergeSeasons(policy: MergePolicy, unicode: Unicode, documents: seq<SeriesDocument>, provenance: ProvenanceMap,
                      earlier: seq<MergeConflict>)
    returns (result: seq<Season>, conflicts: seq<MergeConflict>)
    requires provenance.Valid()
    modifies provenance
    ensures provenance.Valid()
    ensures var merged := Seasons(policy, unicode, documents);
            && result == merged.value
            && provenance.log == old(provenance.log) + merged.log
            && conflicts == earlier + merged.conflicts
  {
    var numbers: set<nat> := {};
    for i := 0 to |documents|
      invariant numbers == NumbersOf(documents[..i])
    {
      assert documents[..i + 1] == documents[..i] + [documents[i]];
      numbers := numbers + set s | s in documents[i].value.seasons :: s.number;
    }
    assert documents[..|documents|] == documents;
    NumbersAreOrdered();
    ghost var step := SeasonStep(policy, unicode, documents);
    ghost var keys: seq<nat> := [];
    ghost var before := provenance.log;
    result, conflicts := [], earlier;
    while numbers != {}
      invariant Ascending(NumbersOf(documents), NumberLess) == keys + Ascending(numbers, NumberLess)
      invariant provenance.Valid() && result == Gather(keys, step).value
      invariant provenance.log == before + Gather(keys, step).log
      invariant conflicts == earlier + Gather(keys, step).conflicts
      decreases numbers
    {
      var number := TakeFirst(numbers, NumberLess);
      numbers := numbers - {number};
      GatherStep(keys, number, step);
      Associative(before, Gather(keys, step).log, step(number).log);
      Associative(earlier, Gather(keys, step).conflicts, step(number).conflicts);
      Associative(keys, [number], Ascending(numbers, NumberLess));
      var ordered := SeasonOrder(policy, documents, number);
      keys := keys + [number];
      if ordered == [] { continue; }
      var season, more := MergeSeason(policy, unicode, number, ordered, provenance, conflicts);
      result, conflicts := result + [season], more;
    }
    assert keys + [] == keys;
  }

  /** Merges series, seasons and episodes while retaining field provenance. */
  method Merge(policy: MergePolicy, unicode: Unicode, arrived: seq<SeriesDocument>)
    returns (r: MergeResult<Resolved<Series>>)
    ensures r == Merged(policy, unicode, arrived)
  {
    if arrived == [] { return Err(NoDocuments); }
    var documents := Ordered(policy, Television, "series", arrived);
    OrderedKeepsLength(policy, Television, "series", arrived);
    var ordering := documents[0].value.ordering;
    var mismatch := CheckOrdering(documents, ordering);
    if mismatch.Some? { return Err(OrderingMismatch(ordering, mismatch.value)); }
    var merged, provenance, conflicts := MergeDocuments(policy, unicode, documents);
    var completeness := Share(Checklist(merged));
    var warnings := [];
    if completeness < 1.0 { warnings := [IncompleteMetadata]; }
    return Ok(Resolved(merged, provenance, conflicts, completeness, warnings));
  }

  method MergeDocuments(policy: MergePolicy, unicode: Unicode, documents: seq<SeriesDocument>)
    returns (merged: Series, sources: SourceMap, conflicts: seq<MergeConflict>)
    requires documents != []
    ensures var series := SeriesOf(policy, unicode, documents);
            merged == series.value && sources == Grouped(series.log) && conflicts == series.conflicts
  {
    var provenance := new ProvenanceMap();
    ghost var series := SeriesOf(policy, unicode, documents);
    TitlesPath();
    SummariesPath();
    ArtworkPath();
    OrderingPath();
    var titles, c1 := MergeLocalized(
      Project(Ordered(policy, Television, TITLES, documents), Titles), TITLES, UNTAGGED, unicode, provenance, []);
    ghost var t := SeriesText(policy, unicode, TITLES, documents, Titles);
    assert [] + t.log == t.log && [] + t.conflicts == t.conflicts;
    var summaries, c2 := MergeLocalized(
      Project(Ordered(policy, Television, SUMMARIES, documents), Summaries), SUMMARIES, UNTAGGED, unicode, provenance,
        c1);
    var artwork := MergeArtwork(policy, unicode, ARTWORK, documents, Artwork, provenance);
    var seasons, c3 := MergeSeasons(policy, unicode, documents, provenance, c2);
    var added := provenance.Add(ORDERING, documents[0].source);
    GroupsIsUnique(provenance.sources, Grouped(series.log), series.log);
    merged := documents[0].value.(titles := titles, summaries := summaries, artwork := artwork, seasons := seasons);
    sources, conflicts := provenance.sources, c3;
  }
}
