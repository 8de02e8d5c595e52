/** The television merge, said of the documents as they arrive: the series itself, and the errors. */
module SeriesAnswers {
  import opened Completeness
  import opened FieldAnswers
  import opened Media
  import opened MediaIdentities
  import opened MergeLoops
  import opened MergePolicies
  import opened Options
  import opened Precedence
  import opened Provenance
  import opened Results
  import opened Retention
  import opened SeriesMerge
  import EpisodeProvenance
  import SeriesProvenance

  // The language of an entry: its canonical tag, or "untagged".
  ghost function Language(): LocalizedEntry -> string {
    (e: LocalizedEntry) => match e case Tagged(tag, _) => tag.normalized case Untagged(_) => "untagged"
  }

  ghost function SameLanguage(): (LocalizedEntry, LocalizedEntry) -> bool {
    (a: LocalizedEntry, b: LocalizedEntry) => Language()(a) == Language()(b)
  }

  lemma LanguagesAreKeys()
    ensures SameTexts(LanguageKey(UNTAGGED), Language())
    ensures SameRelation(SameKey(LanguageKey(UNTAGGED)), SameLanguage())
  {
    forall e ensures LanguageKey(UNTAGGED)(e) == Language()(e) {}
    forall a, b ensures SameKey(LanguageKey(UNTAGGED))(a, b) <==> SameLanguage()(a, b) {
      assert LanguageKey(UNTAGGED)(a) == Language()(a) && LanguageKey(UNTAGGED)(b) == Language()(b);
    }
  }

  lemma ArtworkClashes(unicode: Unicode)
    ensures SameRelation(SameKey(ArtworkKey(unicode)), SameArtwork(unicode))
  {
    forall a, b ensures SameKey(ArtworkKey(unicode))(a, b) <==> SameArtwork(unicode)(a, b) {
      ArtworkClashesIff(unicode, a, b);
    }
  }

  lemma TextFrom(policy: MergePolicy, first: string, path: string, documents: seq<SeriesDocument>,
                 pick: Series -> seq<LocalizedEntry>, select: Series -> seq<LocalizedEntry>,
                 values: seq<LocalizedEntry>, sources: seq<SourceRef>)
    requires forall s :: pick(s) == select(s)
    requires Aligned(values, sources,
                     FieldObservations(policy, Television, path, Ordered(policy, Television, first, documents), pick),
                     SameKey(LanguageKey(UNTAGGED)))
    ensures Answers(policy, Television, [first, path], documents, select, SameLanguage(), values, sources)
  {
    LanguagesAreKeys();
    AlignedIsAnswer(policy, Television, first, path, documents, pick, SameKey(LanguageKey(UNTAGGED)), select,
                    SameLanguage(), values, sources);
  }

  lemma ArtworkFrom(policy: MergePolicy, unicode: Unicode, first: string, path: string,
                    documents: seq<SeriesDocument>, values: seq<ArtworkReference>, sources: seq<SourceRef>)
    requires Aligned(values, sources,
                     FieldObservations(policy, Television, path, Ordered(policy, Television, first, documents),
                                       Artwork), SameKey(ArtworkKey(unicode)))
    ensures Answers(policy, Television, [first, path], documents, (s: Series) => s.artwork, SameArtwork(unicode),
                    values, sources)
  {
    ArtworkClashes(unicode);
    AlignedIsAnswer(policy, Television, first, path, documents, Artwork, SameKey(ArtworkKey(unicode)),
                    (s: Series) => s.artwork, SameArtwork(unicode), values, sources);
  }

  /** Titles and summaries of the series hold the first text of every language, its artwork the first of every
      identity. */
  lemma FieldsAreAnswered(policy: MergePolicy, unicode: Unicode, documents: seq<SeriesDocument>)
    requires Merged(policy, unicode, documents).Ok?
    ensures var r := Merged(policy, unicode, documents).value;
            && Answers(policy, Television, ["series", "series.titles"], documents, (s: Series) => s.titles,
                       SameLanguage(), r.value.titles, Lookup(r.provenance, "series.titles"))
            && Answers(policy, Television, ["series", "series.summaries"], documents, (s: Series) => s.summaries,
                       SameLanguage(), r.value.summaries, Lookup(r.provenance, "series.summaries"))
            && Answers(policy, Television, ["series", "series.artwork"], documents, (s: Series) => s.artwork,
                       SameArtwork(unicode), r.value.artwork, Lookup(r.provenance, "series.artwork"))
  {
    var r := Merged(policy, unicode, documents).value;
    SeriesProvenance.ProvenanceIsAligned(policy, unicode, documents);
    TextFrom(policy, "series", TITLES, documents, Titles, (s: Series) => s.titles, r.value.titles,
             Lookup(r.provenance, TITLES));
    TextFrom(policy, "series", SUMMARIES, documents, Summaries, (s: Series) => s.summaries, r.value.summaries,
             Lookup(r.provenance, SUMMARIES));
    ArtworkFrom(policy, unicode, "series", ARTWORK, documents, r.value.artwork, Lookup(r.provenance, ARTWORK));
  }

  // ----- the base document -----

  lemma OrderingSources(policy: MergePolicy, unicode: Unicode, base: seq<SeriesDocument>)
    requires base != []
    ensures SourcesFor(SeriesOf(policy, unicode, base).log, ORDERING) == [base[0].source]
  {
    SeriesProvenance.MarksOfPaths();
    var own := [Entry(ORDERING, base[0].source)];
    SeriesProvenance.SourcesOfFour(
      SeriesText(policy, unicode, TITLES, base, Titles).log,
      SeriesText(policy, unicode, SUMMARIES, base, Summaries).log,
      ArtworkField(policy, unicode, ARTWORK, base, Artwork).log, Seasons(policy, unicode, base).log, own, ORDERING);
    SeriesProvenance.SeasonsDoNotTouch(policy, unicode, base, ORDERING);
    SeriesProvenance.OtherField(FieldObservations(policy, Television, TITLES, base, Titles),
                                SameKey(LanguageKey(UNTAGGED)), TITLES, ORDERING);
    SeriesProvenance.OtherField(FieldObservations(policy, Television, SUMMARIES, base, Summaries),
                                SameKey(LanguageKey(UNTAGGED)), SUMMARIES, ORDERING);
    SeriesProvenance.OtherField(FieldObservations(policy, Television, ARTWORK, base, Artwork),
                                SameKey(ArtworkKey(unicode)), ARTWORK, ORDERING);
    assert own[..0] == [] && SourcesFor(own, ORDERING) == SourcesFor([], ORDERING) + [base[0].source];
  }

  /** The series itself and its numbering scheme come from the document that speaks first. */
  lemma BaseSpeaksFirst(policy: MergePolicy, unicode: Unicode, documents: seq<SeriesDocument>) returns (k: nat)
    requires Merged(policy, unicode, documents).Ok?
    ensures SpeaksFirst(policy, Television, ["series"], documents, (s: Series) => true, k)
    ensures var r := Merged(policy, unicode, documents).value;
            && r.value.id == documents[k].value.id && r.value.ordering == documents[k].value.ordering
            && Lookup(r.provenance, "series.ordering") == [documents[k].source]
  {
    var base := Ordered(policy, Television, "series", documents);
    EpisodeProvenance.MergedIsSeriesOf(policy, unicode, documents);
    WholeParts(policy, Television, documents, "series", "series");
    k := HeadSpeaksFirst(policy, Television, ["series"], documents, Whole(), (s: Series) => true);
    OrderingSources(policy, unicode, base);
    LookupInGrouped(SeriesOf(policy, unicode, base).log, ORDERING);
  }

  /** The completeness is the share of titles, summaries, seasons, episodes and artwork that are there. */
  lemma CompletenessCounts(policy: MergePolicy, unicode: Unicode, documents: seq<SeriesDocument>)
    requires Merged(policy, unicode, documents).Ok?
    ensures var r := Merged(policy, unicode, documents).value;
            var hasEpisodes := exists season <- r.value.seasons :: season.episodes != [];
            && r.completeness == (Count(r.value.titles != []) + Count(r.value.summaries != []) +
                                  Count(r.value.seasons != []) + Count(hasEpisodes) +
                                  Count(r.value.artwork != [])) as real / 5.0
            && (r.warnings == [] <==>
                && r.value.titles != [] && r.value.summaries != [] && r.value.seasons != [] && hasEpisodes
                && r.value.artwork != [])
            && (r.warnings != [] ==> r.warnings == [IncompleteMetadata])
  {
    var list := Checklist(Merged(policy, unicode, documents).value.value);
    WarnsIffIncomplete(list);
    PresentOfFive(list);
  }

  lemma PresentOfFive(list: seq<bool>)
    requires |list| == 5
    ensures Present(list) == Count(list[0]) + Count(list[1]) + Count(list[2]) + Count(list[3]) + Count(list[4])
  {
    assert list[0..] == list && list[5..] == [];
    PresentFrom(list, 0);
    PresentFrom(list, 1);
    PresentFrom(list, 2);
    PresentFrom(list, 3);
    PresentFrom(list, 4);
  }

  // ----- mixed numbering schemes -----

  // The first scheme that a series uses against the expected one: its own, or that of its first such episode.
  ghost predicate UsesFirst(s: Series, expected: OrderingScheme, found: OrderingScheme) {
    && found != expected
    && if s.ordering != expected then found == s.ordering
       else exists i, j :: UsesFirstAt(s.seasons, expected, found, i, j)
  }

  ghost predicate UsesFirstAt(seasons: seq<Season>, expected: OrderingScheme, found: OrderingScheme, i: nat, j: nat) {
    && i < |seasons| && j < |seasons[i].episodes| && seasons[i].episodes[j].sequence.scheme == found
    && (forall a, b :: 0 <= a < i && 0 <= b < |seasons[a].episodes| ==>
          seasons[a].episodes[b].sequence.scheme == expected)
    && (forall b :: 0 <= b < j ==> seasons[i].episodes[b].sequence.scheme == expected)
  }

  // A series that uses another scheme than the expected one.
  ghost function Deviates(expected: OrderingScheme): Series -> bool {
    (s: Series) =>
      s.ordering != expected ||
      exists i, j :: 0 <= i < |s.seasons| && 0 <= j < |s.seasons[i].episodes| &&
                     s.seasons[i].episodes[j].sequence.scheme != expected
  }

  lemma {:induction false} ForeignInFront(episodes: seq<Episode>, others: seq<Episode>, expected: OrderingScheme)
    ensures FirstForeign(episodes + others, expected) ==
            if FirstForeign(episodes, expected).Some? then FirstForeign(episodes, expected)
            else FirstForeign(others, expected)
  {
    if episodes == [] {
      assert episodes + others == others;
    } else {
      ForeignInFront(episodes[1..], others, expected);
      assert (episodes + others)[1..] == episodes[1..] + others;
    }
  }

  lemma {:induction false} ForeignAt(episodes: seq<Episode>, expected: OrderingScheme) returns (j: nat)
    ensures j <= |episodes| && forall b :: 0 <= b < j ==> episodes[b].sequence.scheme == expected
    ensures FirstForeign(episodes, expected) == if j < |episodes| then Some(episodes[j].sequence.scheme) else None
    ensures j < |episodes| ==> episodes[j].sequence.scheme != expected
  {
    if episodes == [] || episodes[0].sequence.scheme != expected {
      j := 0;
    } else {
      var rest := ForeignAt(episodes[1..], expected);
      j := rest + 1;
      forall b | 0 <= b < j ensures episodes[b].sequence.scheme == expected {
        if b > 0 { assert episodes[b] == episodes[1..][b - 1]; }
      }
    }
  }

  lemma {:induction false} ForeignInSeasons(seasons: seq<Season>, expected: OrderingScheme) returns (i: nat, j: nat)
    ensures var found := FirstForeign(EpisodesOf(seasons), expected);
            if found.Some? then found.value != expected && UsesFirstAt(seasons, expected, found.value, i, j)
            else forall a, b :: 0 <= a < |seasons| && 0 <= b < |seasons[a].episodes| ==>
                                seasons[a].episodes[b].sequence.scheme == expected
  {
    i, j := 0, 0;
    if seasons != [] {
      ForeignInFront(seasons[0].episodes, EpisodesOf(seasons[1..]), expected);
      j := ForeignAt(seasons[0].episodes, expected);
      if j == |seasons[0].episodes| {
        var n, m := ForeignInSeasons(seasons[1..], expected);
        i, j := n + 1, m;
      }
    }
  }

  // What one series says against the expected scheme.
  function Deviation(expected: OrderingScheme): Series -> Option<OrderingScheme> {
    (s: Series) =>
      if s.ordering != expected then Some(s.ordering) else FirstForeign(EpisodesOf(s.seasons), expected)
  }

  lemma DeviationIs(s: Series, expected: OrderingScheme)
    ensures Deviation(expected)(s).Some? <==> Deviates(expected)(s)
    ensures Deviation(expected)(s).Some? ==> UsesFirst(s, expected, Deviation(expected)(s).value)
  {
    var i, j := ForeignInSeasons(s.seasons, expected);
  }

  lemma {:induction false} FirstMismatchIsHead(documents: seq<SeriesDocument>, turns: seq<nat>,
                                               expected: OrderingScheme)
    requires forall i :: 0 <= i < |turns| ==> turns[i] < |documents|
    ensures var chosen := Chosen(turns, PartAt(documents, Deviation(expected)));
            FirstMismatch(Chosen(turns, PartAt(documents, Whole())), expected) ==
            if chosen == [] then None else Some(chosen[0].value)
  {
    if turns != [] {
      var d, rest := documents[turns[0]], Chosen(turns[1..], PartAt(documents, Whole()));
      FirstMismatchIsHead(documents, turns[1..], expected);
      assert PartAt(documents, Whole())(turns[0]) == Some(d);
      ChosenStep(turns[0], turns[1..], PartAt(documents, Whole()));
      assert turns == [turns[0]] + turns[1..] && ([d] + rest)[1..] == rest;
      assert DocumentMismatch(d, expected) == Deviation(expected)(d.value);
    }
  }

  /** A merge of some documents fails only for mixed schemes: the expected one is that of the document that speaks
      first, the other one the first that the first deviating document uses. */
  lemma MismatchIsFirst(policy: MergePolicy, unicode: Unicode, documents: seq<SeriesDocument>) returns (k: nat, l: nat)
    requires documents != [] && Merged(policy, unicode, documents).Err?
    ensures Merged(policy, unicode, documents).error.OrderingMismatch?
    ensures var error := Merged(policy, unicode, documents).error;
            && SpeaksFirst(policy, Television, ["series"], documents, (s: Series) => true, k)
            && error.expected == documents[k].value.ordering
            && SpeaksFirst(policy, Television, ["series"], documents, Deviates(error.expected), l)
            && UsesFirst(documents[l].value, error.expected, error.found)
  {
    k, l := FirstDeviation(policy, "series", documents);
  }

  lemma FirstDeviation(policy: MergePolicy, path: string, documents: seq<SeriesDocument>) returns (k: nat, l: nat)
    requires documents != []
    ensures Ordered(policy, Television, path, documents) != []
    ensures SpeaksFirst(policy, Television, [path], documents, (s: Series) => true, k)
    ensures Ordered(policy, Television, path, documents)[0] == documents[k]
    ensures var expected := documents[k].value.ordering;
            var found := FirstMismatch(Ordered(policy, Television, path, documents), expected);
            found.Some? ==>
              && SpeaksFirst(policy, Television, [path], documents, Deviates(expected), l)
              && UsesFirst(documents[l].value, expected, found.value)
  {
    l := 0;
    OrderedKeepsLength(policy, Television, path, documents);
    WholeParts(policy, Television, documents, path, path);
    k := HeadSpeaksFirst(policy, Television, [path], documents, Whole(), (s: Series) => true);
    var expected, turns := documents[k].value.ordering, Turns(policy, Television, [path], documents);
    TurnsAscend(policy, Television, [path], documents);
    assert forall i :: 0 <= i < |turns| ==> turns[i] in turns;
    FirstMismatchIsHead(documents, turns, expected);
    forall d | d in documents ensures Deviation(expected)(d.value).Some? <==> Deviates(expected)(d.value) {
      DeviationIs(d.value, expected);
    }
    if Parts(policy, Television, [path], documents, Deviation(expected)) != [] {
      l := HeadSpeaksFirst(policy, Television, [path], documents, Deviation(expected), Deviates(expected));
      DeviationIs(documents[l].value, expected);
    }
  }
}
