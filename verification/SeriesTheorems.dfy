/** What the television merge guarantees on every input: the arrival order does not matter; it succeeds exactly on
    documents that share one numbering scheme; and the merged hierarchy is the ordered union of the documents'
    hierarchies, where a document contributes the first season of a number and the first episode of a sequence. */
module SeriesTheorems {
  import opened Media
  import opened MergeLoops
  import opened MergePolicies
  import opened Options
  import opened OrderedSets
  import opened Provenance
  import opened SeriesMerge
  import StableSort

  /** Arrival order does not matter when documents of equal base rank are equal. */
  lemma ArrivalOrderDoesNotMatter(policy: MergePolicy, unicode: Unicode, documents: seq<SeriesDocument>,
                                  arrived: seq<SeriesDocument>)
    requires multiset(arrived) == multiset(documents)
    requires StableSort.TiesAreEqual(documents, RankOf(policy, Television, "series"))
    ensures Merged(policy, unicode, arrived) == Merged(policy, unicode, documents)
  {
    OrderedForgets(policy, Television, "series", documents, arrived);
    assert |multiset(arrived)| == |multiset(documents)|;
  }

  // ----- errors -----

  // Every document and every episode uses one numbering scheme.
  ghost predicate Uniform(documents: seq<SeriesDocument>, ordering: OrderingScheme) {
    forall d :: d in documents ==>
      d.value.ordering == ordering &&
      forall s, e :: s in d.value.seasons && e in s.episodes ==> e.sequence.scheme == ordering
  }

  lemma {:induction false} EpisodesOfMembers(seasons: seq<Season>, e: Episode)
    ensures e in EpisodesOf(seasons) <==> exists s :: s in seasons && e in s.episodes
  {
    if seasons != [] {
      EpisodesOfMembers(seasons[1..], e);
      assert seasons == [seasons[0]] + seasons[1..];
    }
  }

  lemma {:induction false} NoForeign(episodes: seq<Episode>, ordering: OrderingScheme)
    ensures FirstForeign(episodes, ordering).None? <==> forall e :: e in episodes ==> e.sequence.scheme == ordering
  {
    if episodes != [] {
      NoForeign(episodes[1..], ordering);
      assert episodes == [episodes[0]] + episodes[1..];
    }
  }

  lemma DocumentIsUniform(document: SeriesDocument, ordering: OrderingScheme)
    ensures DocumentMismatch(document, ordering).None? <==>
            document.value.ordering == ordering &&
            forall s, e :: s in document.value.seasons && e in s.episodes ==> e.sequence.scheme == ordering
  {
    NoForeign(EpisodesOf(document.value.seasons), ordering);
    forall e
      ensures e in EpisodesOf(document.value.seasons) <==> exists s :: s in document.value.seasons && e in s.episodes
    {
      EpisodesOfMembers(document.value.seasons, e);
    }
  }

  lemma {:induction false} NoMismatch(documents: seq<SeriesDocument>, ordering: OrderingScheme)
    ensures FirstMismatch(documents, ordering).None? <==> Uniform(documents, ordering)
  {
    if documents != [] {
      NoMismatch(documents[1..], ordering);
      DocumentIsUniform(documents[0], ordering);
      assert documents == [documents[0]] + documents[1..];
    }
  }

  lemma OrderedMembers<T>(policy: MergePolicy, media: MediaKind, path: string, documents: seq<Sourced<T>>,
                          d: Sourced<T>)
    ensures d in Ordered(policy, media, path, documents) <==> d in documents
  {
    StableSort.SortByKeyIsStable(documents, RankOf(policy, media, path));
    assert d in multiset(Ordered(policy, media, path, documents)) <==> d in multiset(documents);
  }

  lemma OrderedUniform(policy: MergePolicy, path: string, documents: seq<SeriesDocument>, ordering: OrderingScheme)
    ensures Uniform(Ordered(policy, Television, path, documents), ordering) <==> Uniform(documents, ordering)
  {
    forall d ensures d in Ordered(policy, Television, path, documents) <==> d in documents {
      OrderedMembers(policy, Television, path, documents, d);
    }
  }

  /** A merge succeeds exactly on documents that share one numbering scheme throughout. */
  lemma SucceedsIffUniform(policy: MergePolicy, unicode: Unicode, documents: seq<SeriesDocument>)
    ensures Merged(policy, unicode, documents).Ok? <==>
            documents != [] && exists ordering :: Uniform(documents, ordering)
  {
    if documents != [] {
      var base := Ordered(policy, Television, "series", documents);
      OrderedKeepsLength(policy, Television, "series", documents);
      var ordering := base[0].value.ordering;
      NoMismatch(base, ordering);
      OrderedUniform(policy, "series", documents, ordering);
      if other :| Uniform(documents, other) {
        OrderedUniform(policy, "series", documents, other);
        assert base[0] in base;
        assert other == ordering;
      }
    }
  }

  // ----- the hierarchy is complete and ordered -----

  // Every key contributes exactly one value, and the value carries the key.
  ghost predicate OnePerKey<K, V>(keys: seq<K>, step: K -> Outcome<seq<V>>, keyOf: V -> K) {
    forall k :: k in keys ==> |step(k).value| == 1 && keyOf(step(k).value[0]) == k
  }

  lemma {:induction false} GatherFollowsKeys<K, V>(keys: seq<K>, step: K -> Outcome<seq<V>>, keyOf: V -> K)
    requires OnePerKey(keys, step, keyOf)
    ensures |Gather(keys, step).value| == |keys|
    ensures forall i :: 0 <= i < |keys| ==>
              Gather(keys, step).value[i] == step(keys[i]).value[0] && keyOf(Gather(keys, step).value[i]) == keys[i]
  {
    if keys != [] {
      var n := |keys| - 1;
      assert keys == keys[..n] + [keys[n]];
      GatherFollowsKeys(keys[..n], step, keyOf);
    }
  }

  lemma {:induction false} FindSeasonFinds(seasons: seq<Season>, number: nat)
    ensures FindSeason(seasons, number).Some? <==> exists s :: s in seasons && s.number == number
    ensures FindSeason(seasons, number).Some? ==>
              FindSeason(seasons, number).value in seasons && FindSeason(seasons, number).value.number == number
  {
    if seasons != [] {
      FindSeasonFinds(seasons[1..], number);
      assert seasons == [seasons[0]] + seasons[1..];
    }
  }

  lemma {:induction false} FindEpisodeFinds(episodes: seq<Episode>, sequence: EpisodeSequence)
    ensures FindEpisode(episodes, sequence).Some? <==> exists e :: e in episodes && e.sequence == sequence
    ensures FindEpisode(episodes, sequence).Some? ==>
              FindEpisode(episodes, sequence).value in episodes &&
                FindEpisode(episodes, sequence).value.sequence == sequence
  {
    if episodes != [] {
      FindEpisodeFinds(episodes[1..], sequence);
      assert episodes == [episodes[0]] + episodes[1..];
    }
  }

  lemma {:induction false} SeasonDocumentsMembers(documents: seq<SeriesDocument>, number: nat, x: Sourced<Season>)
    ensures x in SeasonDocuments(documents, number) <==>
            exists d :: d in documents && d.source == x.source && FindSeason(d.value.seasons, number) == Some(x.value)
  {
    if documents != [] {
      SeasonDocumentsMembers(documents[1..], number, x);
      assert documents == [documents[0]] + documents[1..];
    }
  }

  lemma {:induction false} EpisodeDocumentsMembers(documents: seq<Sourced<Season>>, sequence: EpisodeSequence,
                                                   x: Sourced<Episode>)
    ensures x in EpisodeDocuments(documents, sequence) <==>
            exists d :: d in documents && d.source == x.source &&
              FindEpisode(d.value.episodes, sequence) == Some(x.value)
  {
    if documents != [] {
      EpisodeDocumentsMembers(documents[1..], sequence, x);
      assert documents == [documents[0]] + documents[1..];
    }
  }

  function NumberOf(s: Season): nat { s.number }

  function SequenceOf(e: Episode): EpisodeSequence { e.sequence }

  lemma EpisodeStepYieldsOne(policy: MergePolicy, unicode: Unicode, season: nat, documents: seq<Sourced<Season>>,
                             sequence: EpisodeSequence)
    requires sequence in SequencesOf(documents)
    ensures var step := EpisodeStep(policy, unicode, season, documents);
            |step(sequence).value| == 1 && step(sequence).value[0].sequence == sequence
  {
    var d, e :| d in documents && e in d.value.episodes && e.sequence == sequence;
    FindEpisodeFinds(d.value.episodes, sequence);
    var found := Sourced(FindEpisode(d.value.episodes, sequence).value, d.source);
    EpisodeDocumentsMembers(documents, sequence, found);
    var path := EpisodePath(season, sequence.episode);
    OrderedMembers(policy, Television, path, EpisodeDocuments(documents, sequence), found);
    var ordered := EpisodeOrder(policy, season, documents, sequence);
    assert ordered != [];
    assert ordered[0] in ordered;
    OrderedMembers(policy, Television, path, EpisodeDocuments(documents, sequence), ordered[0]);
    EpisodeDocumentsMembers(documents, sequence, ordered[0]);
    var f :| f in documents && FindEpisode(f.value.episodes, sequence) == Some(ordered[0].value);
    FindEpisodeFinds(f.value.episodes, sequence);
  }

  lemma SeasonStepYieldsOne(policy: MergePolicy, unicode: Unicode, documents: seq<SeriesDocument>, number: nat)
    requires number in NumbersOf(documents)
    ensures SeasonOrder(policy, documents, number) != []
    ensures var step := SeasonStep(policy, unicode, documents);
            |step(number).value| == 1 && step(number).value[0].number == number
  {
    var d, s :| d in documents && s in d.value.seasons && s.number == number;
    FindSeasonFinds(d.value.seasons, number);
    var found := Sourced(FindSeason(d.value.seasons, number).value, d.source);
    var base := Ordered(policy, Television, SeasonPath(number), documents);
    OrderedMembers(policy, Television, SeasonPath(number), documents, d);
    SeasonDocumentsMembers(base, number, found);
    var ordered := SeasonOrder(policy, documents, number);
    assert ordered != [];
    assert ordered[0] in ordered;
    SeasonDocumentsMembers(base, number, ordered[0]);
    var f :| f in base && FindSeason(f.value.seasons, number) == Some(ordered[0].value);
    FindSeasonFinds(f.value.seasons, number);
  }

  // By scheme (aired, DVD, absolute), then by season, those without one first, then by episode number.
  ghost predicate AscendingEpisodes(episodes: seq<Episode>) {
    forall i, j :: 0 <= i < j < |episodes| ==>
      var a, b := episodes[i].sequence, episodes[j].sequence;
      || (a.scheme.Aired? && !b.scheme.Aired?)
      || (a.scheme.Dvd? && b.scheme.Absolute?)
      || (a.scheme == b.scheme && a.season.None? && b.season.Some?)
      || (a.scheme == b.scheme && a.season.Some? && b.season.Some? && a.season.value < b.season.value)
      || (a.scheme == b.scheme && a.season == b.season && a.episode < b.episode)
  }

  ghost predicate AscendingSeasons(seasons: seq<Season>) {
    forall i, j :: 0 <= i < j < |seasons| ==> seasons[i].number < seasons[j].number
  }

  ghost function EpisodeSequences(documents: seq<Sourced<Season>>): seq<EpisodeSequence> {
    SequencesAreOrdered();
    Ascending(SequencesOf(documents), SequenceLess)
  }

  lemma EpisodesFollowSequences(policy: MergePolicy, unicode: Unicode, season: nat, documents: seq<Sourced<Season>>)
    ensures var keys, episodes := EpisodeSequences(documents), Episodes(policy, unicode, season, documents).value;
            |episodes| == |keys| && forall i :: 0 <= i < |keys| ==> episodes[i].sequence == keys[i]
  {
    var keys, step := EpisodeSequences(documents), EpisodeStep(policy, unicode, season, documents);
    forall q | q in keys ensures |step(q).value| == 1 && SequenceOf(step(q).value[0]) == q {
      SequencesAreOrdered();
      EpisodeStepYieldsOne(policy, unicode, season, documents, q);
    }
    GatherFollowsKeys(keys, step, SequenceOf);
    var episodes := Gather(keys, step).value;
    forall i | 0 <= i < |keys| ensures episodes[i].sequence == keys[i] {
      assert SequenceOf(episodes[i]) == keys[i];
    }
  }

  lemma EpisodesAreComplete(policy: MergePolicy, unicode: Unicode, season: nat, documents: seq<Sourced<Season>>)
    ensures AscendingEpisodes(Episodes(policy, unicode, season, documents).value)
    ensures forall q :: (exists e :: e in Episodes(policy, unicode, season, documents).value && e.sequence == q) <==>
                        q in SequencesOf(documents)
  {
    EpisodesFollowSequences(policy, unicode, season, documents);
    SequencesAreOrdered();
    var keys, episodes := EpisodeSequences(documents), Episodes(policy, unicode, season, documents).value;
    SequencesOfEpisodes(keys, episodes);
    assert StrictlyAscending(keys, SequenceLess);
  }

  lemma SequencesOfEpisodes(keys: seq<EpisodeSequence>, episodes: seq<Episode>)
    requires |episodes| == |keys| && forall i :: 0 <= i < |keys| ==> episodes[i].sequence == keys[i]
    ensures forall q :: (exists e :: e in episodes && e.sequence == q) <==> q in keys
  {
    forall q ensures (exists e :: e in episodes && e.sequence == q) <==> q in keys {
      if q in keys {
        var i :| 0 <= i < |keys| && keys[i] == q;
        assert episodes[i] in episodes;
      }
    }
  }

  ghost function SeasonNumbers(documents: seq<SeriesDocument>): (keys: seq<nat>)
    ensures forall n :: n in keys <==> n in NumbersOf(documents)
    ensures forall i, j :: 0 <= i < j < |keys| ==> keys[i] < keys[j]
  {
    NumbersAreOrdered();
    var keys := Ascending(NumbersOf(documents), NumberLess);
    assert forall i, j :: 0 <= i < j < |keys| ==> NumberLess(keys[i], keys[j]);
    keys
  }

  lemma SeasonCount(policy: MergePolicy, unicode: Unicode, documents: seq<SeriesDocument>)
    ensures |Seasons(policy, unicode, documents).value| == |SeasonNumbers(documents)|
  {
    var keys, step := SeasonNumbers(documents), SeasonStep(policy, unicode, documents);
    forall n | n in keys ensures |step(n).value| == 1 && NumberOf(step(n).value[0]) == n {
      SeasonStepYieldsOne(policy, unicode, documents, n);
    }
    GatherFollowsKeys(keys, step, NumberOf);
  }

  // The i-th merged season is the merge of the documents that have the i-th number.
  lemma SeasonAt(policy: MergePolicy, unicode: Unicode, documents: seq<SeriesDocument>, i: nat)
    requires i < |SeasonNumbers(documents)|
    ensures var number, seasons := SeasonNumbers(documents)[i], Seasons(policy, unicode, documents).value;
            && |seasons| == |SeasonNumbers(documents)|
            && SeasonOrder(policy, documents, number) != []
            && seasons[i] == SeasonOf(policy, unicode, number, SeasonOrder(policy, documents, number)).value
            && seasons[i].number == number
  {
    var keys, step := SeasonNumbers(documents), SeasonStep(policy, unicode, documents);
    forall n | n in keys ensures |step(n).value| == 1 && NumberOf(step(n).value[0]) == n {
      SeasonStepYieldsOne(policy, unicode, documents, n);
    }
    GatherFollowsKeys(keys, step, NumberOf);
    assert keys[i] in keys;
    SeasonStepYieldsOne(policy, unicode, documents, keys[i]);
  }

  // Some document's first season of that number has an episode of that sequence.
  ghost predicate OffersEpisode(documents: seq<SeriesDocument>, number: nat, sequence: EpisodeSequence) {
    exists d, e :: d in documents && FindSeason(d.value.seasons, number).Some? &&
                   e in FindSeason(d.value.seasons, number).value.episodes && e.sequence == sequence
  }

  lemma SeasonOffers(policy: MergePolicy, documents: seq<SeriesDocument>, number: nat, q: EpisodeSequence)
    ensures q in SequencesOf(SeasonOrder(policy, documents, number)) <==> OffersEpisode(documents, number, q)
  {
    var base := Ordered(policy, Television, SeasonPath(number), documents);
    var ordered := SeasonOrder(policy, documents, number);
    if q in SequencesOf(ordered) {
      var x, e :| x in ordered && e in x.value.episodes && e.sequence == q;
      SeasonDocumentsMembers(base, number, x);
      var d :| d in base && d.source == x.source && FindSeason(d.value.seasons, number) == Some(x.value);
      OrderedMembers(policy, Television, SeasonPath(number), documents, d);
    }
    if OffersEpisode(documents, number, q) {
      var d, e :| d in documents && FindSeason(d.value.seasons, number).Some? &&
                  e in FindSeason(d.value.seasons, number).value.episodes && e.sequence == q;
      OrderedMembers(policy, Television, SeasonPath(number), documents, d);
      var x := Sourced(FindSeason(d.value.seasons, number).value, d.source);
      SeasonDocumentsMembers(base, number, x);
      assert e in x.value.episodes;
    }
  }

  ghost predicate CompleteSeason(documents: seq<SeriesDocument>, season: Season, ordering: OrderingScheme) {
    && AscendingEpisodes(season.episodes)
    && (forall q :: (exists e :: e in season.episodes && e.sequence == q) <==>
        OffersEpisode(documents, season.number, q))
    && (forall e :: e in season.episodes ==> e.sequence.scheme == ordering)
  }

  lemma OfferedScheme(documents: seq<SeriesDocument>, number: nat, q: EpisodeSequence, ordering: OrderingScheme)
    requires Uniform(documents, ordering) && OffersEpisode(documents, number, q)
    ensures q.scheme == ordering
  {
    var d, f :| d in documents && FindSeason(d.value.seasons, number).Some? &&
                f in FindSeason(d.value.seasons, number).value.episodes && f.sequence == q;
    FindSeasonFinds(d.value.seasons, number);
  }

  lemma SeasonIsComplete(policy: MergePolicy, unicode: Unicode, documents: seq<SeriesDocument>, number: nat,
                         ordering: OrderingScheme)
    requires SeasonOrder(policy, documents, number) != [] && Uniform(documents, ordering)
    requires SeasonOrder(policy, documents, number)[0].value.number == number
    ensures CompleteSeason(documents, SeasonOf(policy, unicode, number, SeasonOrder(policy, documents, number)).value,
                           ordering)
  {
    var ordered := SeasonOrder(policy, documents, number);
    var episodes := Episodes(policy, unicode, number, ordered).value;
    EpisodesAreComplete(policy, unicode, number, ordered);
    forall q ensures q in SequencesOf(ordered) <==> OffersEpisode(documents, number, q) {
      SeasonOffers(policy, documents, number, q);
    }
    forall e | e in episodes ensures e.sequence.scheme == ordering {
      OfferedScheme(documents, number, e.sequence, ordering);
    }
  }

  ghost predicate OffersSeason(documents: seq<SeriesDocument>, number: nat) {
    exists d, s :: d in documents && s in d.value.seasons && s.number == number
  }

  // The hierarchy is the union of the documents' hierarchies, in ascending order.
  ghost predicate Complete(documents: seq<SeriesDocument>, series: Series) {
    && AscendingSeasons(series.seasons)
    && (forall n :: (exists s :: s in series.seasons && s.number == n) <==> OffersSeason(documents, n))
    && (forall s :: s in series.seasons ==> CompleteSeason(documents, s, series.ordering))
  }

  lemma SeasonsAreComplete(policy: MergePolicy, unicode: Unicode, documents: seq<SeriesDocument>,
                           ordering: OrderingScheme)
    requires Uniform(documents, ordering)
    ensures var seasons := Seasons(policy, unicode, documents).value;
            && |seasons| == |SeasonNumbers(documents)|
            && (forall i :: 0 <= i < |seasons| ==>
                  seasons[i].number == SeasonNumbers(documents)[i] && CompleteSeason(documents, seasons[i], ordering))
  {
    var keys, seasons := SeasonNumbers(documents), Seasons(policy, unicode, documents).value;
    SeasonCount(policy, unicode, documents);
    forall i | 0 <= i < |seasons|
      ensures seasons[i].number == keys[i] && CompleteSeason(documents, seasons[i], ordering) {
      SeasonAt(policy, unicode, documents, i);
      SeasonIsComplete(policy, unicode, documents, keys[i], ordering);
    }
  }

  lemma NumberedByKeys(keys: seq<nat>, seasons: seq<Season>, n: nat)
    requires |seasons| == |keys| && forall i :: 0 <= i < |keys| ==> seasons[i].number == keys[i]
    ensures (exists s :: s in seasons && s.number == n) <==> n in keys
  {
    if n in keys {
      var i :| 0 <= i < |keys| && keys[i] == n;
      assert seasons[i] in seasons;
    }
  }

  lemma UnionOfSeasons(documents: seq<SeriesDocument>, seasons: seq<Season>)
    requires |seasons| == |SeasonNumbers(documents)|
    requires forall i :: 0 <= i < |seasons| ==> seasons[i].number == SeasonNumbers(documents)[i]
    ensures forall n :: (exists s :: s in seasons && s.number == n) <==> OffersSeason(documents, n)
  {
    forall n: nat ensures (exists s :: s in seasons && s.number == n) <==> OffersSeason(documents, n) {
      NumberedByKeys(SeasonNumbers(documents), seasons, n);
      assert n in SeasonNumbers(documents) <==> n in NumbersOf(documents);
    }
  }

  lemma SeriesIsComplete(policy: MergePolicy, unicode: Unicode, documents: seq<SeriesDocument>)
    requires documents != [] && Uniform(documents, documents[0].value.ordering)
    ensures Complete(documents, SeriesOf(policy, unicode, documents).value)
  {
    var seasons := Seasons(policy, unicode, documents).value;
    SeasonsAreComplete(policy, unicode, documents, documents[0].value.ordering);
    UnionOfSeasons(documents, seasons);
  }

  lemma OrderedOffers(policy: MergePolicy, path: string, documents: seq<SeriesDocument>)
    ensures var base := Ordered(policy, Television, path, documents);
            && (forall n :: OffersSeason(base, n) <==> OffersSeason(documents, n))
            && (forall n, q :: OffersEpisode(base, n, q) <==> OffersEpisode(documents, n, q))
  {
    forall d ensures d in Ordered(policy, Television, path, documents) <==> d in documents {
      OrderedMembers(policy, Television, path, documents, d);
    }
  }

  // Documents that offer the same seasons and episodes make the same series complete.
  lemma CompleteLikewise(base: seq<SeriesDocument>, documents: seq<SeriesDocument>, series: Series)
    requires forall n :: OffersSeason(base, n) <==> OffersSeason(documents, n)
    requires forall n, q :: OffersEpisode(base, n, q) <==> OffersEpisode(documents, n, q)
    requires Complete(base, series)
    ensures Complete(documents, series)
  {
    forall s | s in series.seasons ensures CompleteSeason(documents, s, series.ordering) {
      assert CompleteSeason(base, s, series.ordering);
    }
  }

  /** The merged hierarchy is complete and ordered: seasons ascend and are the union of the
      documents' seasons, and so are the episodes of each season's first occurrences. */
  lemma HierarchyIsComplete(policy: MergePolicy, unicode: Unicode, documents: seq<SeriesDocument>)
    requires Merged(policy, unicode, documents).Ok?
    ensures Complete(documents, Merged(policy, unicode, documents).value.value)
  {
    var base := Ordered(policy, Television, "series", documents);
    OrderedKeepsLength(policy, Television, "series", documents);
    NoMismatch(base, base[0].value.ordering);
    SeriesIsComplete(policy, unicode, base);
    OrderedOffers(policy, "series", documents);
    CompleteLikewise(base, documents, SeriesOf(policy, unicode, base).value);
  }
}
