/** The provenance of a merged series is that of its retained values: what is recorded under the titles, the summaries
    and the artwork of the series itself, whatever its seasons record. Seasons and episodes follow in
    `EpisodeProvenance`. */
module SeriesProvenance {
  import opened Media
  import opened MergeLoops
  import opened MergePolicies
  import opened Provenance
  import opened Retention
  import opened SeriesMerge
  import opened SeriesPaths

  // The two letters after "series." tell titles, summaries, artwork, seasons and ordering apart.
  function PathMark(path: string): int {
    if |path| > 8 then path[7] as int * 0x11_0000 + path[8] as int else 0
  }

  const SEASONS_MARK: int := 's' as int * 0x11_0000 + 'e' as int

  lemma MarksOfPaths()
    ensures PathMark(TITLES) == 't' as int * 0x11_0000 + 'i' as int
    ensures PathMark(SUMMARIES) == 's' as int * 0x11_0000 + 'u' as int
    ensures PathMark(ARTWORK) == 'a' as int * 0x11_0000 + 'r' as int
    ensures PathMark(ORDERING) == 'o' as int * 0x11_0000 + 'r' as int
    ensures PathMark(SEASONS) == SEASONS_MARK && |SEASONS| > 8
  {
  }

  lemma MarkBelowSeasons(path: string)
    requires Below(SEASONS, path)
    ensures PathMark(path) == SEASONS_MARK
  {
    MarksOfPaths();
    CharacterBelow(SEASONS, path, 7);
    CharacterBelow(SEASONS, path, 8);
  }

  // The i-th recorded source of a series field supplied its i-th value.
  ghost predicate FieldAligned<T>(policy: MergePolicy, base: seq<SeriesDocument>, provenance: SourceMap, path: string,
                                  values: seq<T>, select: Series -> seq<T>, clash: (T, T) -> bool)
  {
    Aligned(values, Lookup(provenance, path), FieldObservations(policy, Television, path, base, select), clash)
  }

  lemma SourcesOfFour(a: seq<Entry>, b: seq<Entry>, c: seq<Entry>, d: seq<Entry>, e: seq<Entry>, path: string)
    ensures SourcesFor(a + b + c + d + e, path) ==
            SourcesFor(a, path) + SourcesFor(b, path) + SourcesFor(c, path) + SourcesFor(d, path) + SourcesFor(e, path)
  {
    SourcesOfConcatenation(a, b, path);
    SourcesOfConcatenation(a + b, c, path);
    SourcesOfConcatenation(a + b + c, d, path);
    SourcesOfConcatenation(a + b + c + d, e, path);
  }

  lemma OtherField<T>(obs: seq<Sourced<T>>, clash: (T, T) -> bool, path: string, other: string)
    requires PathMark(path) != PathMark(other)
    ensures SourcesFor(KeptField(obs, clash, path).log, other) == []
  {
    SourcesUnder(path, Sources(Kept(obs, clash)), other);
  }

  lemma OwnField<T>(obs: seq<Sourced<T>>, clash: (T, T) -> bool, path: string)
    ensures SourcesFor(KeptField(obs, clash, path).log, path) == Sources(Kept(obs, clash))
  {
    SourcesUnder(path, Sources(Kept(obs, clash)), path);
  }

  lemma SeasonsDoNotTouch(policy: MergePolicy, unicode: Unicode, documents: seq<SeriesDocument>, path: string)
    requires PathMark(path) != SEASONS_MARK
    ensures SourcesFor(Seasons(policy, unicode, documents).log, path) == []
  {
    var log := Seasons(policy, unicode, documents).log;
    SeasonsLogBelow(policy, unicode, documents);
    forall e | e in log ensures e.path != path { MarkBelowSeasons(e.path); }
    NoSourcesOutside(log, path);
  }

  lemma AlignedFromSources<T>(policy: MergePolicy, base: seq<SeriesDocument>, log: seq<Entry>, path: string,
                              select: Series -> seq<T>, clash: (T, T) -> bool)
    requires SourcesFor(log, path) == Sources(Kept(FieldObservations(policy, Television, path, base, select), clash))
    ensures FieldAligned(policy, base, Grouped(log), path,
                         KeptField(FieldObservations(policy, Television, path, base, select), clash, path).value,
                           select, clash)
  {
    LookupInGrouped(log, path);
    KeptIsAligned(FieldObservations(policy, Television, path, base, select), clash);
  }

  lemma OneOfThree<T>(a: seq<T>, b: seq<T>, c: seq<T>)
    ensures b == [] && c == [] ==> a + b + c == a
    ensures a == [] && c == [] ==> a + b + c == b
    ensures a == [] && b == [] ==> a + b + c == c
  {
  }

  // The sources of a path in the log of a merged series, field by field.
  lemma SourcesOfSeries(policy: MergePolicy, unicode: Unicode, documents: seq<SeriesDocument>, path: string)
    requires documents != [] && PathMark(path) != SEASONS_MARK && PathMark(path) != PathMark(ORDERING)
    ensures SourcesFor(SeriesOf(policy, unicode, documents).log, path) ==
            SourcesFor(SeriesText(policy, unicode, TITLES, documents, Titles).log, path) +
            SourcesFor(SeriesText(policy, unicode, SUMMARIES, documents, Summaries).log, path) +
            SourcesFor(ArtworkField(policy, unicode, ARTWORK, documents, Artwork).log, path)
  {
    SourcesOfFour(SeriesText(policy, unicode, TITLES, documents, Titles).log,
                  SeriesText(policy, unicode, SUMMARIES, documents, Summaries).log,
                  ArtworkField(policy, unicode, ARTWORK, documents, Artwork).log,
                  Seasons(policy, unicode, documents).log, [Entry(ORDERING, documents[0].source)], path);
    SeasonsDoNotTouch(policy, unicode, documents, path);
    NoSourcesOutside([Entry(ORDERING, documents[0].source)], path);
  }

  lemma TitlesSources(policy: MergePolicy, unicode: Unicode, documents: seq<SeriesDocument>)
    requires documents != []
    ensures SourcesFor(SeriesOf(policy, unicode, documents).log, TITLES) ==
            Sources(Kept(FieldObservations(policy, Television, TITLES, documents, Titles),
                         SameKey(LanguageKey(UNTAGGED))))
  {
    MarksOfPaths();
    SourcesOfSeries(policy, unicode, documents, TITLES);
    OwnField(FieldObservations(policy, Television, TITLES, documents, Titles), SameKey(LanguageKey(UNTAGGED)), TITLES);
    OtherField(FieldObservations(policy, Television, SUMMARIES, documents, Summaries), SameKey(LanguageKey(UNTAGGED)),
               SUMMARIES, TITLES);
    OtherField(FieldObservations(policy, Television, ARTWORK, documents, Artwork), SameKey(ArtworkKey(unicode)),
               ARTWORK, TITLES);
    OneOfThree(SourcesFor(SeriesText(policy, unicode, TITLES, documents, Titles).log, TITLES),
               SourcesFor(SeriesText(policy, unicode, SUMMARIES, documents, Summaries).log, TITLES),
               SourcesFor(ArtworkField(policy, unicode, ARTWORK, documents, Artwork).log, TITLES));
  }

  lemma SummariesSources(policy: MergePolicy, unicode: Unicode, documents: seq<SeriesDocument>)
    requires documents != []
    ensures SourcesFor(SeriesOf(policy, unicode, documents).log, SUMMARIES) ==
            Sources(Kept(FieldObservations(policy, Television, SUMMARIES, documents, Summaries),
                         SameKey(LanguageKey(UNTAGGED))))
  {
    MarksOfPaths();
    SourcesOfSeries(policy, unicode, documents, SUMMARIES);
    OtherField(FieldObservations(policy, Television, TITLES, documents, Titles), SameKey(LanguageKey(UNTAGGED)),
               TITLES, SUMMARIES);
    OwnField(FieldObservations(policy, Television, SUMMARIES, documents, Summaries), SameKey(LanguageKey(UNTAGGED)),
             SUMMARIES);
    OtherField(FieldObservations(policy, Television, ARTWORK, documents, Artwork), SameKey(ArtworkKey(unicode)),
               ARTWORK, SUMMARIES);
    OneOfThree(SourcesFor(SeriesText(policy, unicode, TITLES, documents, Titles).log, SUMMARIES),
               SourcesFor(SeriesText(policy, unicode, SUMMARIES, documents, Summaries).log, SUMMARIES),
               SourcesFor(ArtworkField(policy, unicode, ARTWORK, documents, Artwork).log, SUMMARIES));
  }

  lemma ArtworkSources(policy: MergePolicy, unicode: Unicode, documents: seq<SeriesDocument>)
    requires documents != []
    ensures SourcesFor(SeriesOf(policy, unicode, documents).log, ARTWORK) ==
            Sources(Kept(FieldObservations(policy, Television, ARTWORK, documents, Artwork),
                         SameKey(ArtworkKey(unicode))))
  {
    MarksOfPaths();
    SourcesOfSeries(policy, unicode, documents, ARTWORK);
    OtherField(FieldObservations(policy, Television, TITLES, documents, Titles), SameKey(LanguageKey(UNTAGGED)),
               TITLES, ARTWORK);
    OtherField(FieldObservations(policy, Television, SUMMARIES, documents, Summaries), SameKey(LanguageKey(UNTAGGED)),
               SUMMARIES, ARTWORK);
    OwnField(FieldObservations(policy, Television, ARTWORK, documents, Artwork), SameKey(ArtworkKey(unicode)), ARTWORK);
    OneOfThree(SourcesFor(SeriesText(policy, unicode, TITLES, documents, Titles).log, ARTWORK),
               SourcesFor(SeriesText(policy, unicode, SUMMARIES, documents, Summaries).log, ARTWORK),
               SourcesFor(ArtworkField(policy, unicode, ARTWORK, documents, Artwork).log, ARTWORK));
  }

  /** Series titles, summaries and artwork and their recorded sources are the retained observations, in step. */
  lemma ProvenanceIsAligned(policy: MergePolicy, unicode: Unicode, documents: seq<SeriesDocument>)
    requires Merged(policy, unicode, documents).Ok?
    ensures var base := Ordered(policy, Television, "series", documents);
            var r := Merged(policy, unicode, documents).value;
            && FieldAligned(policy, base, r.provenance, TITLES, r.value.titles, Titles, SameKey(LanguageKey(UNTAGGED)))
            && FieldAligned(policy, base, r.provenance, SUMMARIES, r.value.summaries, Summaries,
                            SameKey(LanguageKey(UNTAGGED)))
            && FieldAligned(policy, base, r.provenance, ARTWORK, r.value.artwork, Artwork, SameKey(ArtworkKey(unicode)))
  {
    var base := Ordered(policy, Television, "series", documents);
    OrderedKeepsLength(policy, Television, "series", documents);
    TitlesSources(policy, unicode, base);
    SummariesSources(policy, unicode, base);
    ArtworkSources(policy, unicode, base);
    var log := SeriesOf(policy, unicode, base).log;
    AlignedFromSources(policy, base, log, TITLES, Titles, SameKey(LanguageKey(UNTAGGED)));
    AlignedFromSources(policy, base, log, SUMMARIES, Summaries, SameKey(LanguageKey(UNTAGGED)));
    AlignedFromSources(policy, base, log, ARTWORK, Artwork, SameKey(ArtworkKey(unicode)));
  }
}
