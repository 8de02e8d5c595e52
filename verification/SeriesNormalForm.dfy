/** The television merge returns normal forms: merging a merged series again changes nothing. Every level of the
    hierarchy, from the texts and credits of an episode up to the seasons of the series, is shown to be reduced by the
    merge, and what is reduced to be kept by it. */
module SeriesNormalForm {
  import opened Media
  import opened MergeLoops
  import opened MergePolicies
  import opened Options
  import opened OrderedSets
  import opened Provenance
  import opened Retention
  import opened SeriesMerge
  import opened SeriesTheorems

  ghost predicate NormalEpisode(unicode: Unicode, e: Episode) {
    && NoClash(e.titles, SameKey(LanguageKey(UNTAGGED)))
    && NoClash(e.summaries, SameKey(LanguageKey(UNTAGGED)))
    && NoClash(e.credits, SameCredit(unicode))
    && NoClash(e.artwork, SameKey(ArtworkKey(unicode)))
  }

  ghost predicate NormalSeason(unicode: Unicode, s: Season) {
    && AscendingEpisodes(s.episodes)
    && (forall i :: 0 <= i < |s.episodes| ==> NormalEpisode(unicode, s.episodes[i]))
    && NoClash(s.artwork, SameKey(ArtworkKey(unicode)))
  }

  // No repeated identity anywhere, seasons and episodes ascending, one numbering scheme.
  ghost predicate NormalSeries(unicode: Unicode, s: Series) {
    && NoClash(s.titles, SameKey(LanguageKey(UNTAGGED)))
    && NoClash(s.summaries, SameKey(LanguageKey(UNTAGGED)))
    && NoClash(s.artwork, SameKey(ArtworkKey(unicode)))
    && AscendingSeasons(s.seasons)
    && (forall i :: 0 <= i < |s.seasons| ==> NormalSeason(unicode, s.seasons[i]))
    && (forall t, e :: t in s.seasons && e in t.episodes ==> e.sequence.scheme == s.ordering)
  }

  // ----- merges are normal -----

  lemma {:induction false} GatherKeepsAll<K, V>(keys: seq<K>, step: K -> Outcome<seq<V>>, good: V -> bool)
    requires forall k, i :: k in keys && 0 <= i < |step(k).value| ==> good(step(k).value[i])
    ensures forall i :: 0 <= i < |Gather(keys, step).value| ==> good(Gather(keys, step).value[i])
  {
    if keys != [] {
      var n := |keys| - 1;
      GatherKeepsAll(keys[..n], step, good);
      assert keys[n] in keys;
    }
  }

  lemma EpisodeIsNormal(policy: MergePolicy, unicode: Unicode, path: string, documents: seq<Sourced<Episode>>)
    requires documents != []
    ensures NormalEpisode(unicode, EpisodeOf(policy, unicode, path, documents).value)
  {
    KeptDoesNotClash(FieldObservations(policy, Television, Dotted(path, "titles"), documents, EpisodeTitles),
                     SameKey(LanguageKey(UNTAGGED)));
    KeptDoesNotClash(FieldObservations(policy, Television, Dotted(path, "summaries"), documents, EpisodeSummaries),
                     SameKey(LanguageKey(UNTAGGED)));
    KeptDoesNotClash(FieldObservations(policy, Television, Dotted(path, "credits"), documents, EpisodeCredits),
                     SameCredit(unicode));
    KeptDoesNotClash(FieldObservations(policy, Television, Dotted(path, "artwork"), documents, EpisodeArtwork),
                     SameKey(ArtworkKey(unicode)));
  }

  ghost function IsNormalEpisode(unicode: Unicode): Episode -> bool {
    (e: Episode) => NormalEpisode(unicode, e)
  }

  lemma EpisodesAreNormal(policy: MergePolicy, unicode: Unicode, season: nat, documents: seq<Sourced<Season>>)
    ensures forall i :: 0 <= i < |Episodes(policy, unicode, season, documents).value| ==>
              NormalEpisode(unicode, Episodes(policy, unicode, season, documents).value[i])
  {
    SequencesAreOrdered();
    var keys, step := Ascending(SequencesOf(documents), SequenceLess), EpisodeStep(policy, unicode, season, documents);
    forall q, i | q in keys && 0 <= i < |step(q).value| ensures IsNormalEpisode(unicode)(step(q).value[i]) {
      EpisodeIsNormal(policy, unicode, EpisodePath(season, q.episode), EpisodeOrder(policy, season, documents, q));
    }
    GatherKeepsAll(keys, step, IsNormalEpisode(unicode));
    var episodes := Gather(keys, step).value;
    forall i | 0 <= i < |episodes| ensures NormalEpisode(unicode, episodes[i]) {
      assert IsNormalEpisode(unicode)(episodes[i]);
    }
  }

  lemma SeasonIsNormal(policy: MergePolicy, unicode: Unicode, number: nat, documents: seq<Sourced<Season>>)
    requires documents != []
    ensures NormalSeason(unicode, SeasonOf(policy, unicode, number, documents).value)
  {
    EpisodesAreComplete(policy, unicode, number, documents);
    EpisodesAreNormal(policy, unicode, number, documents);
    KeptDoesNotClash(FieldObservations(policy, Television, Dotted(SeasonPath(number), "artwork"), documents,
                                       SeasonArtwork),
                     SameKey(ArtworkKey(unicode)));
  }

  lemma SeasonsAreNormal(policy: MergePolicy, unicode: Unicode, documents: seq<SeriesDocument>)
    ensures forall i :: 0 <= i < |Seasons(policy, unicode, documents).value| ==>
              NormalSeason(unicode, Seasons(policy, unicode, documents).value[i])
  {
    var keys, seasons := SeasonNumbers(documents), Seasons(policy, unicode, documents).value;
    SeasonCount(policy, unicode, documents);
    forall i | 0 <= i < |seasons| ensures NormalSeason(unicode, seasons[i]) {
      SeasonAt(policy, unicode, documents, i);
      SeasonIsNormal(policy, unicode, keys[i], SeasonOrder(policy, documents, keys[i]));
    }
  }

  lemma SeriesIsNormal(policy: MergePolicy, unicode: Unicode, documents: seq<SeriesDocument>)
    requires documents != [] && Uniform(documents, documents[0].value.ordering)
    ensures NormalSeries(unicode, SeriesOf(policy, unicode, documents).value)
  {
    var series := SeriesOf(policy, unicode, documents).value;
    KeptDoesNotClash(FieldObservations(policy, Television, TITLES, documents, Titles), SameKey(LanguageKey(UNTAGGED)));
    KeptDoesNotClash(FieldObservations(policy, Television, SUMMARIES, documents, Summaries),
                     SameKey(LanguageKey(UNTAGGED)));
    KeptDoesNotClash(FieldObservations(policy, Television, ARTWORK, documents, Artwork), SameKey(ArtworkKey(unicode)));
    SeasonsAreNormal(policy, unicode, documents);
    SeriesIsComplete(policy, unicode, documents);
    forall t, e | t in series.seasons && e in t.episodes ensures e.sequence.scheme == series.ordering {
      assert CompleteSeason(documents, t, series.ordering);
    }
  }

  // ----- normal series are fixed -----

  lemma {:induction false} GatherReturns<K, V>(keys: seq<K>, step: K -> Outcome<seq<V>>, values: seq<V>)
    requires |keys| == |values|
    requires forall i :: 0 <= i < |keys| ==> step(keys[i]).value == [values[i]] && step(keys[i]).conflicts == []
    ensures Gather(keys, step).value == values && Gather(keys, step).conflicts == []
  {
    if keys != [] {
      var n := |keys| - 1;
      GatherReturns(keys[..n], step, values[..n]);
      assert values == values[..n] + [values[n]];
    }
  }

  lemma EpisodeIsFixed(policy: MergePolicy, unicode: Unicode, path: string, document: Sourced<Episode>)
    requires NormalEpisode(unicode, document.value)
    ensures var merged := EpisodeOf(policy, unicode, path, [document]);
            merged.value == document.value && merged.conflicts == []
  {
    LocalizedFieldIsNormal(policy, Television, Dotted(path, "titles"), document, EpisodeTitles, UNTAGGED, unicode);
    LocalizedFieldIsNormal(policy, Television, Dotted(path, "summaries"), document, EpisodeSummaries, UNTAGGED,
                           unicode);
    KeptFieldIsNormal(policy, Television, Dotted(path, "credits"), document, EpisodeCredits, SameCredit(unicode));
    KeptFieldIsNormal(policy, Television, Dotted(path, "artwork"), document, EpisodeArtwork,
                      SameKey(ArtworkKey(unicode)));
    RuntimeIsFixed(policy, Dotted(path, "runtime"), document);
  }

  lemma RuntimeIsFixed(policy: MergePolicy, path: string, document: Sourced<Episode>)
    ensures RuntimeField(policy, path, [document]).value == document.value.runtime
  {
    OrderedSingle(policy, Television, path, document);
    assert [document][1..] == [];
    assert FirstRuntime([document][1..]) == None;
  }

  lemma {:induction false} FindItself(episodes: seq<Episode>, i: nat)
    requires AscendingEpisodes(episodes) && i < |episodes|
    ensures FindEpisode(episodes, episodes[i].sequence) == Some(episodes[i])
  {
    if i > 0 {
      assert episodes[0].sequence != episodes[i].sequence;
      FindItself(episodes[1..], i - 1);
    }
  }

  lemma EpisodeStepIsFixed(policy: MergePolicy, unicode: Unicode, season: nat, document: Sourced<Season>, i: nat)
    requires NormalSeason(unicode, document.value) && i < |document.value.episodes|
    ensures var e := document.value.episodes[i];
            var o := EpisodeStep(policy, unicode, season, [document])(e.sequence);
            o.value == [e] && o.conflicts == []
  {
    var e := document.value.episodes[i];
    FindItself(document.value.episodes, i);
    assert [document][1..] == [];
    assert EpisodeDocuments([document], e.sequence) == [Sourced(e, document.source)];
    OrderedSingle(policy, Television, EpisodePath(season, e.sequence.episode), Sourced(e, document.source));
    EpisodeIsFixed(policy, unicode, EpisodePath(season, e.sequence.episode), Sourced(e, document.source));
  }

  lemma EpisodesAreFixed(policy: MergePolicy, unicode: Unicode, season: nat, document: Sourced<Season>)
    requires NormalSeason(unicode, document.value)
    ensures Episodes(policy, unicode, season, [document]).value == document.value.episodes
    ensures Episodes(policy, unicode, season, [document]).conflicts == []
  {
    var episodes := document.value.episodes;
    var keys := seq(|episodes|, i requires 0 <= i < |episodes| => episodes[i].sequence);
    SequencesAreOrdered();
    forall q ensures q in keys <==> q in SequencesOf([document]) {
      if q in SequencesOf([document]) {
        var e :| e in episodes && e.sequence == q;
        var i :| 0 <= i < |episodes| && episodes[i] == e;
        assert keys[i] == q;
      }
      if q in keys {
        var i :| 0 <= i < |keys| && keys[i] == q;
        assert document in [document] && episodes[i] in document.value.episodes;
      }
    }
    ListingsAgree(keys, Ascending(SequencesOf([document]), SequenceLess), SequenceLess);
    forall i | 0 <= i < |keys|
      ensures var o := EpisodeStep(policy, unicode, season, [document])(keys[i]);
              o.value == [episodes[i]] && o.conflicts == [] {
      EpisodeStepIsFixed(policy, unicode, season, document, i);
    }
    GatherReturns(keys, EpisodeStep(policy, unicode, season, [document]), episodes);
  }

  lemma SeasonIsFixed(policy: MergePolicy, unicode: Unicode, number: nat, document: Sourced<Season>)
    requires NormalSeason(unicode, document.value)
    ensures var merged := SeasonOf(policy, unicode, number, [document]);
            merged.value == document.value && merged.conflicts == []
  {
    EpisodesAreFixed(policy, unicode, number, document);
    KeptFieldIsNormal(policy, Television, Dotted(SeasonPath(number), "artwork"), document, SeasonArtwork,
                      SameKey(ArtworkKey(unicode)));
  }

  lemma {:induction false} FindSeasonItself(seasons: seq<Season>, i: nat)
    requires AscendingSeasons(seasons) && i < |seasons|
    ensures FindSeason(seasons, seasons[i].number) == Some(seasons[i])
  {
    if i > 0 {
      assert seasons[0].number < seasons[i].number;
      FindSeasonItself(seasons[1..], i - 1);
    }
  }

  lemma SeasonStepIsFixed(policy: MergePolicy, unicode: Unicode, document: SeriesDocument, i: nat)
    requires NormalSeries(unicode, document.value) && i < |document.value.seasons|
    ensures var s := document.value.seasons[i];
            var o := SeasonStep(policy, unicode, [document])(s.number);
            o.value == [s] && o.conflicts == []
  {
    var s := document.value.seasons[i];
    FindSeasonItself(document.value.seasons, i);
    OrderedSingle(policy, Television, SeasonPath(s.number), document);
    assert [document][1..] == [];
    assert SeasonDocuments([document], s.number) == [Sourced(s, document.source)];
    SeasonIsFixed(policy, unicode, s.number, Sourced(s, document.source));
  }

  lemma SeasonsAreFixed(policy: MergePolicy, unicode: Unicode, document: SeriesDocument)
    requires NormalSeries(unicode, document.value)
    ensures Seasons(policy, unicode, [document]).value == document.value.seasons
    ensures Seasons(policy, unicode, [document]).conflicts == []
  {
    var seasons := document.value.seasons;
    var keys: seq<nat> := seq(|seasons|, i requires 0 <= i < |seasons| => seasons[i].number);
    NumbersAreOrdered();
    forall n ensures n in keys <==> n in NumbersOf([document]) {
      if n in NumbersOf([document]) {
        var s :| s in seasons && s.number == n;
        var i :| 0 <= i < |seasons| && seasons[i] == s;
        assert keys[i] == n;
      }
      if n in keys {
        var i :| 0 <= i < |keys| && keys[i] == n;
        assert document in [document] && seasons[i] in document.value.seasons;
      }
    }
    ListingsAgree(keys, Ascending(NumbersOf([document]), NumberLess), NumberLess);
    forall i | 0 <= i < |keys|
      ensures var o := SeasonStep(policy, unicode, [document])(keys[i]);
              o.value == [seasons[i]] && o.conflicts == [] {
      SeasonStepIsFixed(policy, unicode, document, i);
    }
    GatherReturns(keys, SeasonStep(policy, unicode, [document]), seasons);
  }

  lemma NormalIsFixed(policy: MergePolicy, unicode: Unicode, document: SeriesDocument)
    requires NormalSeries(unicode, document.value)
    ensures var r := Merged(policy, unicode, [document]);
            r.Ok? && r.value.value == document.value && r.value.conflicts == []
  {
    OrderedSingle(policy, Television, "series", document);
    assert Uniform([document], document.value.ordering);
    NoMismatch([document], document.value.ordering);
    LocalizedFieldIsNormal(policy, Television, TITLES, document, Titles, UNTAGGED, unicode);
    LocalizedFieldIsNormal(policy, Television, SUMMARIES, document, Summaries, UNTAGGED, unicode);
    KeptFieldIsNormal(policy, Television, ARTWORK, document, Artwork, SameKey(ArtworkKey(unicode)));
    SeasonsAreFixed(policy, unicode, document);
  }

  /** Merging a merged series again, from any source and under any policy, returns exactly that
      series, order included, and reports no conflict. */
  lemma MergeIsNormalForm(policy: MergePolicy, again: MergePolicy, unicode: Unicode, documents: seq<SeriesDocument>,
                          source: SourceRef)
    requires Merged(policy, unicode, documents).Ok?
    ensures var series := Merged(policy, unicode, documents).value.value;
            var r := Merged(again, unicode, [Sourced(series, source)]);
            r.Ok? && r.value.value == series && r.value.conflicts == []
  {
    var base := Ordered(policy, Television, "series", documents);
    OrderedKeepsLength(policy, Television, "series", documents);
    NoMismatch(base, base[0].value.ordering);
    SeriesIsNormal(policy, unicode, base);
    NormalIsFixed(again, unicode, Sourced(Merged(policy, unicode, documents).value.value, source));
  }
}
