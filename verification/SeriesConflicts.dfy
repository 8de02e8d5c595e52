/** The conflicts of a merged series: one for each text that loses, in the order of the hierarchy. */
module SeriesConflicts {
  import opened Media
  import opened MergeLoops
  import opened MergePolicies
  import opened OrderedSets
  import opened Provenance
  import opened Retention
  import opened Sequences
  import opened SeriesMerge

  lemma {:induction false} GatheredConflicts<K, V>(keys: seq<K>, step: K -> Outcome<seq<V>>,
                                                   conflicts: K -> seq<MergeConflict>)
    requires forall k :: k in keys ==> step(k).conflicts == conflicts(k)
    ensures Gather(keys, step).conflicts == Chain(keys, conflicts)
  {
    if keys != [] {
      var n := |keys| - 1;
      assert keys[n] in keys;
      GatheredConflicts(keys[..n], step, conflicts);
    }
  }

  // The conflicts of one text field.
  ghost function FieldConflicts<T>(policy: MergePolicy, unicode: Unicode, path: string, documents: seq<Sourced<T>>,
                                   select: T -> seq<LocalizedEntry>): seq<MergeConflict>
  {
    var obs := FieldObservations(policy, Television, path, documents, select);
    Disagreements(obs, LanguageKey(UNTAGGED), unicode.Normalize, path, |obs|)
  }

  /** A text field reports exactly one conflict for each entry that disagrees with the first of its language, in order,
      naming the winner and the loser. */
  lemma FieldConflictsIff<T>(policy: MergePolicy, unicode: Unicode, path: string, documents: seq<Sourced<T>>,
                             select: T -> seq<LocalizedEntry>, conflicts: seq<MergeConflict>)
    ensures conflicts == FieldConflicts(policy, unicode, path, documents, select) <==>
            OnePerLoser(conflicts, FieldObservations(policy, Television, path, documents, select),
                        LanguageKey(UNTAGGED), unicode.Normalize, path)
  {
    DisagreementsIff(FieldObservations(policy, Television, path, documents, select), LanguageKey(UNTAGGED),
                     unicode.Normalize, path, conflicts);
  }

  // The conflicts of one episode: its titles, then its summaries.
  ghost function EpisodeConflicts(policy: MergePolicy, unicode: Unicode, season: nat, documents: seq<Sourced<Season>>)
    : EpisodeSequence -> seq<MergeConflict>
  {
    (sequence: EpisodeSequence) =>
      var path, ordered := EpisodePath(season, sequence.episode), EpisodeOrder(policy, season, documents, sequence);
      FieldConflicts(policy, unicode, Dotted(path, "titles"), ordered, EpisodeTitles) +
      FieldConflicts(policy, unicode, Dotted(path, "summaries"), ordered, EpisodeSummaries)
  }

  // The conflicts of one season: its episodes in ascending order.
  ghost function SeasonConflicts(policy: MergePolicy, unicode: Unicode, documents: seq<SeriesDocument>)
    : nat -> seq<MergeConflict>
  {
    SequencesAreOrdered();
    (number: nat) =>
      var ordered := SeasonOrder(policy, documents, number);
      Chain(Ascending(SequencesOf(ordered), SequenceLess), EpisodeConflicts(policy, unicode, number, ordered))
  }

  lemma NothingObserved<T, U>(policy: MergePolicy, path: string, select: T -> seq<U>)
    ensures FieldObservations(policy, Television, path, [], select) == []
  {
    assert Ordered<T>(policy, Television, path, []) == [];
  }

  lemma EpisodeStepConflicts(policy: MergePolicy, unicode: Unicode, season: nat, documents: seq<Sourced<Season>>,
                             sequence: EpisodeSequence)
    ensures EpisodeStep(policy, unicode, season, documents)(sequence).conflicts ==
            EpisodeConflicts(policy, unicode, season, documents)(sequence)
  {
    var path, ordered := EpisodePath(season, sequence.episode), EpisodeOrder(policy, season, documents, sequence);
    if ordered == [] {
      NothingObserved(policy, Dotted(path, "titles"), EpisodeTitles);
      NothingObserved(policy, Dotted(path, "summaries"), EpisodeSummaries);
    }
  }

  lemma EpisodesConflicts(policy: MergePolicy, unicode: Unicode, season: nat, documents: seq<Sourced<Season>>)
    ensures StrictTotal(SequenceLess)
    ensures Episodes(policy, unicode, season, documents).conflicts ==
            Chain(Ascending(SequencesOf(documents), SequenceLess), EpisodeConflicts(policy, unicode, season, documents))
  {
    SequencesAreOrdered();
    var keys := Ascending(SequencesOf(documents), SequenceLess);
    forall q | q in keys
      ensures EpisodeStep(policy, unicode, season, documents)(q).conflicts ==
              EpisodeConflicts(policy, unicode, season, documents)(q)
    {
      EpisodeStepConflicts(policy, unicode, season, documents, q);
    }
    GatheredConflicts(keys, EpisodeStep(policy, unicode, season, documents),
                      EpisodeConflicts(policy, unicode, season, documents));
  }

  lemma SeasonStepConflicts(policy: MergePolicy, unicode: Unicode, documents: seq<SeriesDocument>, number: nat)
    ensures SeasonStep(policy, unicode, documents)(number).conflicts ==
            SeasonConflicts(policy, unicode, documents)(number)
  {
    var ordered := SeasonOrder(policy, documents, number);
    EpisodesConflicts(policy, unicode, number, ordered);
    if ordered == [] {
      assert SequencesOf(ordered) == {};
      assert Ascending(SequencesOf(ordered), SequenceLess) == [];
    }
  }

  /** The conflicts are those of the titles, then of the summaries, then of every episode of every season, seasons and
      episodes ascending; nothing else is reported. */
  lemma ConflictsAreDisagreements(policy: MergePolicy, unicode: Unicode, documents: seq<SeriesDocument>)
    requires Merged(policy, unicode, documents).Ok?
    ensures StrictTotal(NumberLess)
    ensures var base := Ordered(policy, Television, "series", documents);
            Merged(policy, unicode, documents).value.conflicts ==
            FieldConflicts(policy, unicode, TITLES, base, Titles) +
            FieldConflicts(policy, unicode, SUMMARIES, base, Summaries) +
            Chain(Ascending(NumbersOf(base), NumberLess), SeasonConflicts(policy, unicode, base))
  {
    var base := Ordered(policy, Television, "series", documents);
    OrderedKeepsLength(policy, Television, "series", documents);
    NumbersAreOrdered();
    var keys := Ascending(NumbersOf(base), NumberLess);
    forall n | n in keys
      ensures SeasonStep(policy, unicode, base)(n).conflicts == SeasonConflicts(policy, unicode, base)(n)
    {
      SeasonStepConflicts(policy, unicode, base, n);
    }
    GatheredConflicts(keys, SeasonStep(policy, unicode, base), SeasonConflicts(policy, unicode, base));
  }
}
