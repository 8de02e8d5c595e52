/** The provenance of the seasons and episodes of a merged series, even where two episodes share a path. First what one
    episode records, field by field; then that a path below an episode of one number receives exactly what the episodes
    of that number record, because other numbers, other seasons and the series itself record elsewhere; then that this
    is aligned with the merged episode, for an episode that has its number to itself, and as a concatenation otherwise.
    The artwork of a season comes last. */
module EpisodeProvenance {
  import opened Decimal
  import opened Media
  import opened MergeLoops
  import opened MergePolicies
  import opened Options
  import opened Provenance
  import opened Retention
  import opened Sequences
  import opened SeriesMerge
  import opened SeriesPaths
  import SeriesProvenance
  import SeriesTheorems

  // ----- one episode -----

  // An episode records its own source, its titles, its summaries, its runtime, its credits and its artwork.
  const FIELDS := 6

  function FieldName(n: nat): (name: string)
    requires 0 < n < FIELDS
    ensures name != []
  {
    match n
    case 1 => "titles"
    case 2 => "summaries"
    case 3 => "runtime"
    case 4 => "credits"
    case _ => "artwork"
  }

  function FieldPath(path: string, n: nat): string
    requires n < FIELDS
  {
    if n == 0 then path else Dotted(path, FieldName(n))
  }

  lemma FieldNamesDiffer(m: nat, n: nat)
    requires 0 < m < FIELDS && 0 < n < FIELDS && m != n
    ensures FieldName(m)[0] != FieldName(n)[0]
  {
  }

  lemma FieldPathsDiffer(path: string, m: nat, n: nat)
    requires m < FIELDS && n < FIELDS && m != n
    ensures FieldPath(path, m) != FieldPath(path, n)
  {
    if m > 0 && n > 0 {
      FieldNamesDiffer(m, n);
      assert FieldPath(path, m)[|path| + 1] == FieldName(m)[0];
      assert FieldPath(path, n)[|path| + 1] == FieldName(n)[0];
    }
  }

  lemma FieldBelow(path: string, n: nat)
    requires n < FIELDS
    ensures Below(path, FieldPath(path, n))
  {
    if n > 0 { DottedBelow(path, path, FieldName(n)); }
  }

  function TextClash(): (LocalizedEntry, LocalizedEntry) -> bool { SameKey(LanguageKey(UNTAGGED)) }

  // What the loops over an episode field visit.
  function Visited<T>(policy: MergePolicy, path: string, documents: seq<Sourced<Episode>>, n: nat,
                      select: Episode -> seq<T>): seq<Sourced<T>>
    requires n < FIELDS
  {
    FieldObservations(policy, Television, FieldPath(path, n), documents, select)
  }

  function RuntimeSources(ordered: seq<Sourced<Episode>>): seq<SourceRef> {
    match FirstRuntime(ordered)
    case None => []
    case Some(r) => [r.source]
  }

  // The sources of the n-th field.
  ghost function FieldSources(policy: MergePolicy, unicode: Unicode, path: string, documents: seq<Sourced<Episode>>,
                              n: nat): seq<SourceRef>
    requires documents != [] && n < FIELDS
  {
    match n
    case 0 => [documents[0].source]
    case 1 => Sources(Kept(Visited(policy, path, documents, 1, EpisodeTitles), TextClash()))
    case 2 => Sources(Kept(Visited(policy, path, documents, 2, EpisodeSummaries), TextClash()))
    case 3 => RuntimeSources(Ordered(policy, Television, FieldPath(path, 3), documents))
    case 4 => Sources(Kept(Visited(policy, path, documents, 4, EpisodeCredits), SameCredit(unicode)))
    case _ => Sources(Kept(Visited(policy, path, documents, 5, EpisodeArtwork), SameKey(ArtworkKey(unicode))))
  }

  ghost function EpisodeSections(policy: MergePolicy, unicode: Unicode, path: string, documents: seq<Sourced<Episode>>)
    : (sections: seq<Section>)
    requires documents != []
    ensures |sections| == FIELDS
    ensures forall n :: 0 <= n < FIELDS ==>
              sections[n] == Section(FieldPath(path, n), FieldSources(policy, unicode, path, documents, n))
  {
    seq(FIELDS, n requires 0 <= n < FIELDS =>
      Section(FieldPath(path, n), FieldSources(policy, unicode, path, documents, n)))
  }

  lemma ThreeSections(done: seq<Section>, a: Section, b: Section, c: Section)
    ensures Journal(done + [a] + [b] + [c]) ==
            Journal(done) + Under(a.path, a.sources) + Under(b.path, b.sources) + Under(c.path, c.sources)
  {
    JournalStep(done, a);
    JournalStep(done + [a], b);
    JournalStep(done + [a] + [b], c);
  }

  lemma SixSections(s: seq<Section>)
    requires |s| == 6
    ensures Journal(s) ==
            Under(s[0].path, s[0].sources) + Under(s[1].path, s[1].sources) + Under(s[2].path, s[2].sources) +
            Under(s[3].path, s[3].sources) + Under(s[4].path, s[4].sources) + Under(s[5].path, s[5].sources)
  {
    ThreeSections([], s[0], s[1], s[2]);
    ThreeSections([] + [s[0]] + [s[1]] + [s[2]], s[3], s[4], s[5]);
    assert [] + [s[0]] + [s[1]] + [s[2]] + [s[3]] + [s[4]] + [s[5]] == s;
    assert [] + Under(s[0].path, s[0].sources) == Under(s[0].path, s[0].sources);
  }

  lemma TextLogs(policy: MergePolicy, unicode: Unicode, path: string, documents: seq<Sourced<Episode>>)
    requires documents != []
    ensures Under(FieldPath(path, 1), FieldSources(policy, unicode, path, documents, 1)) ==
            EpisodeText(policy, unicode, Dotted(path, "titles"), documents, EpisodeTitles).log
    ensures Under(FieldPath(path, 2), FieldSources(policy, unicode, path, documents, 2)) ==
            EpisodeText(policy, unicode, Dotted(path, "summaries"), documents, EpisodeSummaries).log
  {
  }

  lemma RuntimeLog(policy: MergePolicy, unicode: Unicode, path: string, documents: seq<Sourced<Episode>>)
    requires documents != []
    ensures Under(FieldPath(path, 0), FieldSources(policy, unicode, path, documents, 0)) ==
            [Entry(path, documents[0].source)]
    ensures Under(FieldPath(path, 3), FieldSources(policy, unicode, path, documents, 3)) ==
            RuntimeField(policy, Dotted(path, "runtime"), documents).log
  {
  }

  lemma ListLogs(policy: MergePolicy, unicode: Unicode, path: string, documents: seq<Sourced<Episode>>)
    requires documents != []
    ensures Under(FieldPath(path, 4), FieldSources(policy, unicode, path, documents, 4)) ==
            CreditsField(policy, unicode, Dotted(path, "credits"), documents).log
    ensures Under(FieldPath(path, 5), FieldSources(policy, unicode, path, documents, 5)) ==
            ArtworkField(policy, unicode, Dotted(path, "artwork"), documents, EpisodeArtwork).log
  {
  }

  lemma EpisodeJournal(policy: MergePolicy, unicode: Unicode, path: string, documents: seq<Sourced<Episode>>)
    requires documents != []
    ensures EpisodeOf(policy, unicode, path, documents).log ==
            Journal(EpisodeSections(policy, unicode, path, documents))
  {
    var s := EpisodeSections(policy, unicode, path, documents);
    SixSections(s);
    TextLogs(policy, unicode, path, documents);
    RuntimeLog(policy, unicode, path, documents);
    ListLogs(policy, unicode, path, documents);
  }

  /** Every path of an episode has exactly the sources of its own field. */
  lemma EpisodeFieldSources(policy: MergePolicy, unicode: Unicode, path: string, documents: seq<Sourced<Episode>>,
                            n: nat)
    requires documents != [] && n < FIELDS
    ensures SourcesFor(EpisodeOf(policy, unicode, path, documents).log, FieldPath(path, n)) ==
            FieldSources(policy, unicode, path, documents, n)
  {
    forall m | 0 <= m < FIELDS && m != n ensures FieldPath(path, m) != FieldPath(path, n) {
      FieldPathsDiffer(path, m, n);
    }
    EpisodeJournal(policy, unicode, path, documents);
    SourcesOfSection(EpisodeSections(policy, unicode, path, documents), n);
  }

  // ----- from the episode to the series -----

  lemma ChainStep<K, T>(keys: seq<K>, mine: K -> bool, list: K -> seq<T>)
    requires keys != []
    ensures var n := |keys| - 1;
            Chain(Filtered(keys, mine), list) ==
            Chain(Filtered(keys[..n], mine), list) + if mine(keys[n]) then list(keys[n]) else []
  {
    var n := |keys| - 1;
    var front := Filtered(keys[..n], mine);
    if mine(keys[n]) {
      assert (front + [keys[n]])[..|front|] == front;
    } else {
      assert front + [] == front;
    }
  }

  lemma {:induction false} GatheredSources<K, V>(keys: seq<K>, step: K -> Outcome<seq<V>>, mine: K -> bool,
                                                 path: string, sources: K -> seq<SourceRef>)
    requires forall k :: k in keys ==> SourcesFor(step(k).log, path) == if mine(k) then sources(k) else []
    ensures SourcesFor(Gather(keys, step).log, path) == Chain(Filtered(keys, mine), sources)
  {
    if keys != [] {
      var n := |keys| - 1;
      assert keys[n] in keys;
      GatheredSources(keys[..n], step, mine, path, sources);
      SourcesOfConcatenation(Gather(keys[..n], step).log, step(keys[n]).log, path);
      ChainStep(keys, mine, sources);
    }
  }

  lemma {:induction false} GatheredNothing<K, V>(keys: seq<K>, step: K -> Outcome<seq<V>>, path: string)
    requires forall j :: 0 <= j < |keys| ==> SourcesFor(step(keys[j]).log, path) == []
    ensures SourcesFor(Gather(keys, step).log, path) == []
  {
    if keys != [] {
      var n := |keys| - 1;
      GatheredNothing(keys[..n], step, path);
      SourcesOfConcatenation(Gather(keys[..n], step).log, step(keys[n]).log, path);
    }
  }

  lemma {:induction false} GatheredFromOne<K, V>(keys: seq<K>, step: K -> Outcome<seq<V>>, path: string, i: nat)
    requires i < |keys|
    requires forall j :: 0 <= j < |keys| && j != i ==> SourcesFor(step(keys[j]).log, path) == []
    ensures SourcesFor(Gather(keys, step).log, path) == SourcesFor(step(keys[i]).log, path)
  {
    var n := |keys| - 1;
    SourcesOfConcatenation(Gather(keys[..n], step).log, step(keys[n]).log, path);
    if i == n { GatheredNothing(keys[..n], step, path); } else { GatheredFromOne(keys[..n], step, path, i); }
  }

  // The episodes of a season that share a path.
  function Numbered(episode: nat): EpisodeSequence -> bool {
    (q: EpisodeSequence) => q.episode == episode
  }

  function Sequenced(episodes: seq<Episode>): seq<EpisodeSequence> {
    seq(|episodes|, i requires 0 <= i < |episodes| => episodes[i].sequence)
  }

  // What one episode of a season records for its n-th field.
  ghost function Recorded(policy: MergePolicy, unicode: Unicode, season: nat, documents: seq<Sourced<Season>>, n: nat)
    : EpisodeSequence -> seq<SourceRef>
    requires n < FIELDS
  {
    (q: EpisodeSequence) =>
      var ordered := EpisodeOrder(policy, season, documents, q);
      if ordered == [] then [] else FieldSources(policy, unicode, EpisodePath(season, q.episode), ordered, n)
  }

  lemma OtherEpisode(policy: MergePolicy, unicode: Unicode, season: nat, documents: seq<Sourced<Season>>,
                     q: EpisodeSequence, episode: nat, path: string)
    requires Below(EpisodePath(season, episode), path) && q.episode != episode
    ensures SourcesFor(EpisodeStep(policy, unicode, season, documents)(q).log, path) == []
  {
    var log, base := EpisodeStep(policy, unicode, season, documents)(q).log, EpisodePath(season, q.episode);
    EpisodeStepBelow(policy, unicode, base, season, documents, q);
    forall e | e in log ensures e.path != path {
      if e.path == path { BelowOneNumber(Dotted(SeasonPath(season), "episodes"), q.episode, episode, path); }
    }
    NoSourcesOutside(log, path);
  }

  lemma StepSources(policy: MergePolicy, unicode: Unicode, season: nat, documents: seq<Sourced<Season>>,
                    q: EpisodeSequence, episode: nat, n: nat)
    requires n < FIELDS
    ensures SourcesFor(EpisodeStep(policy, unicode, season, documents)(q).log,
                       FieldPath(EpisodePath(season, episode), n)) ==
            if Numbered(episode)(q) then Recorded(policy, unicode, season, documents, n)(q) else []
  {
    var ordered := EpisodeOrder(policy, season, documents, q);
    if q.episode != episode {
      FieldBelow(EpisodePath(season, episode), n);
      OtherEpisode(policy, unicode, season, documents, q, episode, FieldPath(EpisodePath(season, episode), n));
    } else if ordered != [] {
      EpisodeFieldSources(policy, unicode, EpisodePath(season, episode), ordered, n);
    }
  }

  lemma EpisodesSources(policy: MergePolicy, unicode: Unicode, season: nat, documents: seq<Sourced<Season>>,
                        episode: nat, n: nat)
    requires n < FIELDS
    ensures SourcesFor(Episodes(policy, unicode, season, documents).log, FieldPath(EpisodePath(season, episode), n)) ==
            Chain(Filtered(SeriesTheorems.EpisodeSequences(documents), Numbered(episode)),
                  Recorded(policy, unicode, season, documents, n))
  {
    SequencesAreOrdered();
    var keys, step := SeriesTheorems.EpisodeSequences(documents), EpisodeStep(policy, unicode, season, documents);
    var path := FieldPath(EpisodePath(season, episode), n);
    forall q | q in keys
      ensures SourcesFor(step(q).log, path) ==
              if Numbered(episode)(q) then Recorded(policy, unicode, season, documents, n)(q) else []
    {
      StepSources(policy, unicode, season, documents, q, episode, n);
    }
    GatheredSources(keys, step, Numbered(episode), path, Recorded(policy, unicode, season, documents, n));
  }

  // ----- one season -----

  lemma InEpisodes(season: nat, episode: nat, path: string)
    requires Below(EpisodePath(season, episode), path)
    ensures Below(Dotted(SeasonPath(season), "episodes"), path) && Below(SeasonPath(season), path)
    ensures Below(SEASONS, path)
  {
    BelowShorter(Dotted(SeasonPath(season), "episodes"), Numeral(episode), path);
    BelowShorter(SeasonPath(season), "episodes", path);
    BelowShorter(SEASONS, Numeral(season), path);
  }

  lemma BelowShorter(base: string, segment: string, path: string)
    requires Below(Dotted(base, segment), path)
    ensures Below(base, path)
  {
    assert path[..|base|] == path[..|base| + 1 + |segment|][..|base|];
    CharacterBelow(Dotted(base, segment), path, |base|);
  }

  lemma SeasonSources(policy: MergePolicy, unicode: Unicode, number: nat, documents: seq<Sourced<Season>>,
                      path: string)
    requires documents != [] && Below(Dotted(SeasonPath(number), "episodes"), path)
    ensures SourcesFor(SeasonOf(policy, unicode, number, documents).log, path) ==
            SourcesFor(Episodes(policy, unicode, number, documents).log, path)
  {
    var own := [Entry(SeasonPath(number), documents[0].source)];
    var episodes := Episodes(policy, unicode, number, documents).log;
    var artworkPath := Dotted(SeasonPath(number), "artwork");
    var kept := Kept(FieldObservations(policy, Television, artworkPath, documents, SeasonArtwork),
                     SameKey(ArtworkKey(unicode)));
    CharacterBelow(Dotted(SeasonPath(number), "episodes"), path, |SeasonPath(number)| + 1);
    SourcesOfConcatenation(own, episodes, path);
    SourcesOfConcatenation(own + episodes, Under(artworkPath, Sources(kept)), path);
    NoSourcesOutside(own, path);
    SourcesUnder(artworkPath, Sources(kept), path);
  }

  lemma OtherSeason(policy: MergePolicy, unicode: Unicode, documents: seq<SeriesDocument>, other: nat, number: nat,
                    path: string)
    requires Below(SeasonPath(number), path) && other != number
    ensures SourcesFor(SeasonStep(policy, unicode, documents)(other).log, path) == []
  {
    var log := SeasonStep(policy, unicode, documents)(other).log;
    SeasonStepBelow(policy, unicode, SeasonPath(other), documents, other);
    forall e | e in log ensures e.path != path {
      if e.path == path { BelowOneNumber(SEASONS, other, number, path); }
    }
    NoSourcesOutside(log, path);
  }

  lemma SeasonsSources(policy: MergePolicy, unicode: Unicode, documents: seq<SeriesDocument>, i: nat, path: string)
    requires i < |SeriesTheorems.SeasonNumbers(documents)|
    requires Below(SeasonPath(SeriesTheorems.SeasonNumbers(documents)[i]), path)
    ensures SourcesFor(Seasons(policy, unicode, documents).log, path) ==
            SourcesFor(SeasonStep(policy, unicode, documents)(SeriesTheorems.SeasonNumbers(documents)[i]).log, path)
  {
    var keys, step := SeriesTheorems.SeasonNumbers(documents), SeasonStep(policy, unicode, documents);
    forall j | 0 <= j < |keys| && j != i ensures SourcesFor(step(keys[j]).log, path) == [] {
      OtherSeason(policy, unicode, documents, keys[j], keys[i], path);
    }
    GatheredFromOne(keys, step, path, i);
  }

  // ----- the series -----

  lemma SeriesSources(policy: MergePolicy, unicode: Unicode, documents: seq<SeriesDocument>, path: string)
    requires documents != [] && Below(SEASONS, path)
    ensures SourcesFor(SeriesOf(policy, unicode, documents).log, path) ==
            SourcesFor(Seasons(policy, unicode, documents).log, path)
  {
    SeriesProvenance.MarksOfPaths();
    SeriesProvenance.MarkBelowSeasons(path);
    SeriesProvenance.SourcesOfFour(
      SeriesText(policy, unicode, TITLES, documents, Titles).log,
      SeriesText(policy, unicode, SUMMARIES, documents, Summaries).log,
      ArtworkField(policy, unicode, ARTWORK, documents, Artwork).log,
      Seasons(policy, unicode, documents).log, [Entry(ORDERING, documents[0].source)], path);
    NoSourcesOutside([Entry(ORDERING, documents[0].source)], path);
    SeriesProvenance.OtherField(FieldObservations(policy, Television, TITLES, documents, Titles), TextClash(), TITLES,
                                path);
    SeriesProvenance.OtherField(FieldObservations(policy, Television, SUMMARIES, documents, Summaries), TextClash(),
                                SUMMARIES, path);
    SeriesProvenance.OtherField(FieldObservations(policy, Television, ARTWORK, documents, Artwork),
                                SameKey(ArtworkKey(unicode)), ARTWORK, path);
  }

  // Some document's episode supplies the runtime, and no earlier one has any.
  ghost predicate FirstSupplies(runtime: Option<nat>, sources: seq<SourceRef>, ordered: seq<Sourced<Episode>>) {
    if forall d :: d in ordered ==> d.value.runtime.None? then runtime == None && sources == []
    else exists k ::
      && 0 <= k < |ordered|
      && ordered[k].value.runtime.Some?
      && (forall m :: 0 <= m < k ==> ordered[m].value.runtime.None?)
      && runtime == ordered[k].value.runtime
      && sources == [ordered[k].source]
  }

  function FirstValue(ordered: seq<Sourced<Episode>>): Option<nat> {
    match FirstRuntime(ordered)
    case None => None
    case Some(r) => Some(r.value)
  }

  lemma {:induction false} FirstIndex(ordered: seq<Sourced<Episode>>) returns (k: nat)
    ensures k <= |ordered| && forall m :: 0 <= m < k ==> ordered[m].value.runtime.None?
    ensures if k == |ordered| then FirstRuntime(ordered) == None
            else ordered[k].value.runtime.Some? &&
                 FirstRuntime(ordered) == Some(Sourced(ordered[k].value.runtime.value, ordered[k].source))
  {
    if ordered == [] || ordered[0].value.runtime.Some? { return 0; }
    var j := FirstIndex(ordered[1..]);
    k := j + 1;
    forall m | 0 <= m < k ensures ordered[m].value.runtime.None? {
      if m > 0 { assert ordered[m] == ordered[1..][m - 1]; }
    }
  }

  lemma RuntimeIsFirst(ordered: seq<Sourced<Episode>>)
    ensures FirstSupplies(FirstValue(ordered), RuntimeSources(ordered), ordered)
  {
    var k := FirstIndex(ordered);
    if k < |ordered| { assert ordered[k] in ordered; }
  }

  // The sources recorded for the fields of an episode supplied its values.
  ghost predicate EpisodeAligned(policy: MergePolicy, unicode: Unicode, path: string, documents: seq<Sourced<Episode>>,
                                 e: Episode, sources: seq<seq<SourceRef>>)
  {
    && documents != []
    && |sources| == FIELDS
    && sources[0] == [documents[0].source]
    && Aligned(e.titles, sources[1], Visited(policy, path, documents, 1, EpisodeTitles), TextClash())
    && Aligned(e.summaries, sources[2], Visited(policy, path, documents, 2, EpisodeSummaries), TextClash())
    && FirstSupplies(e.runtime, sources[3], Ordered(policy, Television, FieldPath(path, 3), documents))
    && Aligned(e.credits, sources[4], Visited(policy, path, documents, 4, EpisodeCredits), SameCredit(unicode))
    && Aligned(e.artwork, sources[5], Visited(policy, path, documents, 5, EpisodeArtwork), SameKey(ArtworkKey(unicode)))
  }

  lemma EpisodeIsAligned(policy: MergePolicy, unicode: Unicode, path: string, documents: seq<Sourced<Episode>>,
                         sources: seq<seq<SourceRef>>)
    requires documents != [] && |sources| == FIELDS
    requires forall n :: 0 <= n < FIELDS ==> sources[n] == FieldSources(policy, unicode, path, documents, n)
    ensures EpisodeAligned(policy, unicode, path, documents, EpisodeOf(policy, unicode, path, documents).value, sources)
  {
    KeptIsAligned(Visited(policy, path, documents, 1, EpisodeTitles), TextClash());
    KeptIsAligned(Visited(policy, path, documents, 2, EpisodeSummaries), TextClash());
    RuntimeIsFirst(Ordered(policy, Television, FieldPath(path, 3), documents));
    KeptIsAligned(Visited(policy, path, documents, 4, EpisodeCredits), SameCredit(unicode));
    KeptIsAligned(Visited(policy, path, documents, 5, EpisodeArtwork), SameKey(ArtworkKey(unicode)));
  }

  lemma EpisodeAt(policy: MergePolicy, unicode: Unicode, season: nat, documents: seq<Sourced<Season>>, i: nat)
    requires i < |Episodes(policy, unicode, season, documents).value|
    ensures var e := Episodes(policy, unicode, season, documents).value[i];
            var ordered := EpisodeOrder(policy, season, documents, e.sequence);
            ordered != [] && e == EpisodeOf(policy, unicode, EpisodePath(season, e.sequence.episode), ordered).value
  {
    var keys, step := SeriesTheorems.EpisodeSequences(documents), EpisodeStep(policy, unicode, season, documents);
    forall q | q in keys ensures |step(q).value| == 1 && SeriesTheorems.SequenceOf(step(q).value[0]) == q {
      SequencesAreOrdered();
      SeriesTheorems.EpisodeStepYieldsOne(policy, unicode, season, documents, q);
    }
    SeriesTheorems.GatherFollowsKeys(keys, step, SeriesTheorems.SequenceOf);
    assert keys[i] in keys;
    assert |step(keys[i]).value| == 1;
  }

  // What an episode of a season records, field by field.
  ghost function Contribution(policy: MergePolicy, unicode: Unicode, season: nat, documents: seq<Sourced<Season>>,
                              q: EpisodeSequence): (sources: seq<seq<SourceRef>>)
    ensures |sources| == FIELDS
    ensures forall n :: 0 <= n < FIELDS ==> sources[n] == Recorded(policy, unicode, season, documents, n)(q)
  {
    seq(FIELDS, n requires 0 <= n < FIELDS => Recorded(policy, unicode, season, documents, n)(q))
  }

  // What a provenance map holds under the path of an episode, field by field.
  function RecordedUnder(provenance: SourceMap, path: string): (sources: seq<seq<SourceRef>>)
    ensures |sources| == FIELDS
  {
    seq(FIELDS, n requires 0 <= n < FIELDS => Lookup(provenance, FieldPath(path, n)))
  }

  lemma SequenceIsAligned(policy: MergePolicy, unicode: Unicode, number: nat, documents: seq<Sourced<Season>>,
                          q: EpisodeSequence)
    requires EpisodeOrder(policy, number, documents, q) != []
    ensures var path, ordered := EpisodePath(number, q.episode), EpisodeOrder(policy, number, documents, q);
            EpisodeAligned(policy, unicode, path, ordered, EpisodeOf(policy, unicode, path, ordered).value,
                           Contribution(policy, unicode, number, documents, q))
  {
    EpisodeIsAligned(policy, unicode, EpisodePath(number, q.episode), EpisodeOrder(policy, number, documents, q),
                     Contribution(policy, unicode, number, documents, q));
  }

  lemma ContributionIsAligned(policy: MergePolicy, unicode: Unicode, number: nat, documents: seq<Sourced<Season>>,
                              i: nat)
    requires i < |Episodes(policy, unicode, number, documents).value|
    ensures var e := Episodes(policy, unicode, number, documents).value[i];
            EpisodeAligned(policy, unicode, EpisodePath(number, e.sequence.episode),
                           EpisodeOrder(policy, number, documents, e.sequence), e,
                           Contribution(policy, unicode, number, documents, e.sequence))
  {
    EpisodeAt(policy, unicode, number, documents, i);
    SequenceIsAligned(policy, unicode, number, documents,
                      Episodes(policy, unicode, number, documents).value[i].sequence);
  }

  lemma MergedIsSeriesOf(policy: MergePolicy, unicode: Unicode, documents: seq<SeriesDocument>)
    requires Merged(policy, unicode, documents).Ok?
    ensures var base, r := Ordered(policy, Television, "series", documents), Merged(policy, unicode, documents).value;
            && base != []
            && r.value == SeriesOf(policy, unicode, base).value
            && r.provenance == Grouped(SeriesOf(policy, unicode, base).log)
  {
    OrderedKeepsLength(policy, Television, "series", documents);
  }

  // The documents that have the number of a merged season.
  function DocumentsOf(policy: MergePolicy, documents: seq<SeriesDocument>, number: nat): seq<Sourced<Season>> {
    SeasonOrder(policy, Ordered(policy, Television, "series", documents), number)
  }

  // Where a season of the merged series comes from.
  lemma MergedSeason(policy: MergePolicy, unicode: Unicode, documents: seq<SeriesDocument>, s: nat)
    requires Merged(policy, unicode, documents).Ok?
    requires s < |Merged(policy, unicode, documents).value.value.seasons|
    ensures var season := Merged(policy, unicode, documents).value.value.seasons[s];
            var keys := SeriesTheorems.SeasonNumbers(Ordered(policy, Television, "series", documents));
            && s < |keys| && season.number == keys[s]
            && season.episodes ==
               Episodes(policy, unicode, season.number, DocumentsOf(policy, documents, season.number)).value
  {
    var base := Ordered(policy, Television, "series", documents);
    MergedIsSeriesOf(policy, unicode, documents);
    SeriesTheorems.SeasonCount(policy, unicode, base);
    SeriesTheorems.SeasonAt(policy, unicode, base, s);
  }

  /** Every episode of the merged series is aligned with its own contribution to the provenance. */
  lemma ContributionsAreAligned(policy: MergePolicy, unicode: Unicode, documents: seq<SeriesDocument>, s: nat, i: nat)
    requires Merged(policy, unicode, documents).Ok?
    requires s < |Merged(policy, unicode, documents).value.value.seasons|
    requires i < |Merged(policy, unicode, documents).value.value.seasons[s].episodes|
    ensures var season := Merged(policy, unicode, documents).value.value.seasons[s];
            var e, seasons := season.episodes[i], DocumentsOf(policy, documents, season.number);
            EpisodeAligned(policy, unicode, EpisodePath(season.number, e.sequence.episode),
                           EpisodeOrder(policy, season.number, seasons, e.sequence), e,
                           Contribution(policy, unicode, season.number, seasons, e.sequence))
  {
    MergedSeason(policy, unicode, documents, s);
    var number := Merged(policy, unicode, documents).value.value.seasons[s].number;
    ContributionIsAligned(policy, unicode, number, DocumentsOf(policy, documents, number), i);
  }

  lemma EpisodePathSources(policy: MergePolicy, unicode: Unicode, base: seq<SeriesDocument>, s: nat, episode: nat,
                           n: nat)
    requires base != [] && n < FIELDS && s < |SeriesTheorems.SeasonNumbers(base)|
    ensures var number := SeriesTheorems.SeasonNumbers(base)[s];
            var seasons := SeasonOrder(policy, base, number);
            SourcesFor(SeriesOf(policy, unicode, base).log, FieldPath(EpisodePath(number, episode), n)) ==
            Chain(Filtered(Sequenced(Episodes(policy, unicode, number, seasons).value), Numbered(episode)),
                  Recorded(policy, unicode, number, seasons, n))
  {
    var number := SeriesTheorems.SeasonNumbers(base)[s];
    var seasons := SeasonOrder(policy, base, number);
    var path := FieldPath(EpisodePath(number, episode), n);
    FieldBelow(EpisodePath(number, episode), n);
    InEpisodes(number, episode, path);
    SeriesSources(policy, unicode, base, path);
    SeasonsSources(policy, unicode, base, s, path);
    SeriesTheorems.SeasonAt(policy, unicode, base, s);
    SeasonSources(policy, unicode, number, seasons, path);
    EpisodesSources(policy, unicode, number, seasons, episode, n);
    SameSequences(policy, unicode, number, seasons);
  }

  lemma SameSequences(policy: MergePolicy, unicode: Unicode, season: nat, documents: seq<Sourced<Season>>)
    ensures Sequenced(Episodes(policy, unicode, season, documents).value) == SeriesTheorems.EpisodeSequences(documents)
  {
    SeriesTheorems.EpisodesFollowSequences(policy, unicode, season, documents);
  }

  /** What is recorded under an episode path is exactly the contributions of the season's episodes of that number, one
      after another. */
  lemma PathsCollectContributions(policy: MergePolicy, unicode: Unicode, documents: seq<SeriesDocument>, s: nat,
                                  episode: nat, n: nat)
    requires Merged(policy, unicode, documents).Ok? && n < FIELDS
    requires s < |Merged(policy, unicode, documents).value.value.seasons|
    ensures var r := Merged(policy, unicode, documents).value;
            var season := r.value.seasons[s];
            Lookup(r.provenance, FieldPath(EpisodePath(season.number, episode), n)) ==
            Chain(Filtered(Sequenced(season.episodes), Numbered(episode)),
                  Recorded(policy, unicode, season.number, DocumentsOf(policy, documents, season.number), n))
  {
    var base := Ordered(policy, Television, "series", documents);
    MergedIsSeriesOf(policy, unicode, documents);
    MergedSeason(policy, unicode, documents, s);
    var number := Merged(policy, unicode, documents).value.value.seasons[s].number;
    LookupInGrouped(SeriesOf(policy, unicode, base).log, FieldPath(EpisodePath(number, episode), n));
    EpisodePathSources(policy, unicode, base, s, episode, n);
  }

  // No other episode of the season has this one's number.
  ghost predicate OwnsItsNumber(episodes: seq<Episode>, i: nat)
    requires i < |episodes|
  {
    forall j :: 0 <= j < |episodes| && j != i ==> episodes[j].sequence.episode != episodes[i].sequence.episode
  }

  lemma ChainOfOwner<T>(episodes: seq<Episode>, i: nat, list: EpisodeSequence -> seq<T>)
    requires i < |episodes| && OwnsItsNumber(episodes, i)
    ensures Chain(Filtered(Sequenced(episodes), Numbered(episodes[i].sequence.episode)), list) ==
            list(episodes[i].sequence)
  {
    var q := episodes[i].sequence;
    FilteredOne(Sequenced(episodes), Numbered(q.episode), i);
    assert [q][..0] == [];
  }

  lemma OwnerAlone(policy: MergePolicy, unicode: Unicode, documents: seq<SeriesDocument>, s: nat, i: nat)
    requires Merged(policy, unicode, documents).Ok?
    requires s < |Merged(policy, unicode, documents).value.value.seasons|
    requires i < |Merged(policy, unicode, documents).value.value.seasons[s].episodes|
    requires OwnsItsNumber(Merged(policy, unicode, documents).value.value.seasons[s].episodes, i)
    ensures var r := Merged(policy, unicode, documents).value;
            var season := r.value.seasons[s];
            var q := season.episodes[i].sequence;
            RecordedUnder(r.provenance, EpisodePath(season.number, q.episode)) ==
            Contribution(policy, unicode, season.number, DocumentsOf(policy, documents, season.number), q)
  {
    var r := Merged(policy, unicode, documents).value;
    var season := r.value.seasons[s];
    var q, seasons := season.episodes[i].sequence, DocumentsOf(policy, documents, season.number);
    forall n: nat | n < FIELDS
      ensures Lookup(r.provenance, FieldPath(EpisodePath(season.number, q.episode), n)) ==
              Recorded(policy, unicode, season.number, seasons, n)(q)
    {
      PathsCollectContributions(policy, unicode, documents, s, q.episode, n);
      ChainOfOwner(season.episodes, i, Recorded(policy, unicode, season.number, seasons, n));
    }
  }

  // Two keys that both count contribute at least two elements between them.
  lemma {:induction false} ChainOfTwo<K, T>(keys: seq<K>, mine: K -> bool, list: K -> seq<T>, i: nat, j: nat)
    requires i < j < |keys| && mine(keys[i]) && mine(keys[j]) && list(keys[i]) != [] && list(keys[j]) != []
    ensures |Chain(Filtered(keys, mine), list)| >= 2
  {
    ChainStep(keys, mine, list);
    var n := |keys| - 1;
    if j < n { ChainOfTwo(keys[..n], mine, list, i, j); } else { ChainOfSome(keys[..n], mine, list, i); }
  }

  lemma {:induction false} ChainOfSome<K, T>(keys: seq<K>, mine: K -> bool, list: K -> seq<T>, i: nat)
    requires i < |keys| && mine(keys[i]) && list(keys[i]) != []
    ensures Chain(Filtered(keys, mine), list) != []
  {
    ChainStep(keys, mine, list);
    var n := |keys| - 1;
    if i < n { ChainOfSome(keys[..n], mine, list, i); }
  }

  // Every episode records one source of its own.
  lemma RecordsItself(policy: MergePolicy, unicode: Unicode, season: nat, documents: seq<Sourced<Season>>, i: nat)
    requires i < |Episodes(policy, unicode, season, documents).value|
    ensures |Recorded(policy, unicode, season, documents, 0)(
              Episodes(policy, unicode, season, documents).value[i].sequence)| == 1
  {
    EpisodeAt(policy, unicode, season, documents, i);
  }

  lemma SharedPathHoldsTwo(policy: MergePolicy, unicode: Unicode, documents: seq<SeriesDocument>, s: nat, i: nat,
                           j: nat)
    requires Merged(policy, unicode, documents).Ok?
    requires s < |Merged(policy, unicode, documents).value.value.seasons|
    requires i < j < |Merged(policy, unicode, documents).value.value.seasons[s].episodes|
    requires var episodes := Merged(policy, unicode, documents).value.value.seasons[s].episodes;
             episodes[i].sequence.episode == episodes[j].sequence.episode
    ensures var r := Merged(policy, unicode, documents).value;
            var season := r.value.seasons[s];
            |Lookup(r.provenance, EpisodePath(season.number, season.episodes[i].sequence.episode))| >= 2
  {
    var season := Merged(policy, unicode, documents).value.value.seasons[s];
    var seasons, episode := DocumentsOf(policy, documents, season.number), season.episodes[i].sequence.episode;
    MergedSeason(policy, unicode, documents, s);
    PathsCollectContributions(policy, unicode, documents, s, episode, 0);
    RecordsItself(policy, unicode, season.number, seasons, i);
    RecordsItself(policy, unicode, season.number, seasons, j);
    ChainOfTwo(Sequenced(season.episodes), Numbered(episode), Recorded(policy, unicode, season.number, seasons, 0), i,
               j);
  }

  // The s-th season of the merged series has an i-th episode.
  ghost predicate HasEpisode(policy: MergePolicy, unicode: Unicode, documents: seq<SeriesDocument>, s: nat, i: nat) {
    && Merged(policy, unicode, documents).Ok?
    && s < |Merged(policy, unicode, documents).value.value.seasons|
    && i < |Merged(policy, unicode, documents).value.value.seasons[s].episodes|
  }

  // What is recorded under the path of an episode is the episode's own.
  ghost predicate PathIsAligned(policy: MergePolicy, unicode: Unicode, documents: seq<SeriesDocument>, s: nat, i: nat)
    requires HasEpisode(policy, unicode, documents, s, i)
  {
    var r := Merged(policy, unicode, documents).value;
    var season := r.value.seasons[s];
    var e := season.episodes[i];
    var path := EpisodePath(season.number, e.sequence.episode);
    EpisodeAligned(policy, unicode, path,
                   EpisodeOrder(policy, season.number, DocumentsOf(policy, documents, season.number), e.sequence),
                   e, RecordedUnder(r.provenance, path))
  }

  lemma OwnerIsAligned(policy: MergePolicy, unicode: Unicode, documents: seq<SeriesDocument>, s: nat, i: nat)
    requires HasEpisode(policy, unicode, documents, s, i)
    requires OwnsItsNumber(Merged(policy, unicode, documents).value.value.seasons[s].episodes, i)
    ensures PathIsAligned(policy, unicode, documents, s, i)
  {
    ContributionsAreAligned(policy, unicode, documents, s, i);
    OwnerAlone(policy, unicode, documents, s, i);
  }

  lemma SharerIsNotAligned(policy: MergePolicy, unicode: Unicode, documents: seq<SeriesDocument>, s: nat, i: nat)
    requires HasEpisode(policy, unicode, documents, s, i)
    requires !OwnsItsNumber(Merged(policy, unicode, documents).value.value.seasons[s].episodes, i)
    ensures !PathIsAligned(policy, unicode, documents, s, i)
  {
    var episodes := Merged(policy, unicode, documents).value.value.seasons[s].episodes;
    var j :| 0 <= j < |episodes| && j != i && episodes[j].sequence.episode == episodes[i].sequence.episode;
    SharedPathHoldsTwo(policy, unicode, documents, s, if i < j then i else j, if i < j then j else i);
  }

  /** The provenance under the path of an episode is aligned with that episode exactly when no other episode of the
      season has its number. */
  lemma EpisodeProvenanceIsAlignedIff(policy: MergePolicy, unicode: Unicode, documents: seq<SeriesDocument>, s: nat,
                                      i: nat)
    requires HasEpisode(policy, unicode, documents, s, i)
    ensures PathIsAligned(policy, unicode, documents, s, i) <==>
            OwnsItsNumber(Merged(policy, unicode, documents).value.value.seasons[s].episodes, i)
  {
    if OwnsItsNumber(Merged(policy, unicode, documents).value.value.seasons[s].episodes, i) {
      OwnerIsAligned(policy, unicode, documents, s, i);
    } else {
      SharerIsNotAligned(policy, unicode, documents, s, i);
    }
  }

  // A season with two episodes of one number, which belong to different seasons by their sequences.
  const ONE := EpisodeSequence(Aired, Some(1), 5)
  const OTHER := EpisodeSequence(Aired, Some(2), 5)
  const DOUBLED := Season("d", 1, [Episode("a", [], [], ONE, None, [], []), Episode("b", [], [], OTHER, None, [], [])],
                          [])

  function Doubled(source: SourceRef): SeriesDocument {
    Sourced(Series("s", [], [], Aired, [DOUBLED], []), source)
  }

  lemma DoubledOffers(source: SourceRef)
    ensures SeriesTheorems.Uniform([Doubled(source)], Aired)
    ensures SeriesTheorems.OffersSeason([Doubled(source)], 1)
    ensures SeriesTheorems.OffersEpisode([Doubled(source)], 1, ONE)
    ensures SeriesTheorems.OffersEpisode([Doubled(source)], 1, OTHER)
  {
    var d := Doubled(source);
    assert d in [d] && DOUBLED in d.value.seasons && FindSeason(d.value.seasons, 1) == Some(DOUBLED);
    assert DOUBLED.episodes[0] in DOUBLED.episodes && DOUBLED.episodes[1] in DOUBLED.episodes;
  }

  lemma EpisodeAppears(documents: seq<SeriesDocument>, season: Season, ordering: OrderingScheme,
                       a: EpisodeSequence)
    returns (i: nat)
    requires SeriesTheorems.CompleteSeason(documents, season, ordering)
    requires SeriesTheorems.OffersEpisode(documents, season.number, a)
    ensures i < |season.episodes| && season.episodes[i].sequence == a
  {
    var e :| e in season.episodes && e.sequence == a;
    i :| i < |season.episodes| && season.episodes[i] == e;
  }

  // Where documents offer two sequences of one number for a season, the merged season has an episode that shares.
  lemma SharersAppear(documents: seq<SeriesDocument>, series: Series, n: nat, a: EpisodeSequence, b: EpisodeSequence)
    returns (s: nat, i: nat)
    requires SeriesTheorems.Complete(documents, series) && SeriesTheorems.OffersSeason(documents, n)
    requires SeriesTheorems.OffersEpisode(documents, n, a) && SeriesTheorems.OffersEpisode(documents, n, b)
    requires a != b && a.episode == b.episode
    ensures s < |series.seasons| && i < |series.seasons[s].episodes|
    ensures series.seasons[s].episodes[i].sequence == a && !OwnsItsNumber(series.seasons[s].episodes, i)
  {
    var season :| season in series.seasons && season.number == n;
    s :| s < |series.seasons| && series.seasons[s] == season;
    i := EpisodeAppears(documents, season, series.ordering, a);
    var j := EpisodeAppears(documents, season, series.ordering, b);
  }

  /** A single document whose episodes share a path: what is recorded there is not the first one's alone. */
  lemma SharedNumberIsNotAligned(policy: MergePolicy, unicode: Unicode, source: SourceRef) returns (s: nat, i: nat)
    ensures HasEpisode(policy, unicode, [Doubled(source)], s, i)
    ensures Merged(policy, unicode, [Doubled(source)]).value.value.seasons[s].episodes[i].sequence == ONE
    ensures !PathIsAligned(policy, unicode, [Doubled(source)], s, i)
  {
    var documents := [Doubled(source)];
    DoubledOffers(source);
    SeriesTheorems.SucceedsIffUniform(policy, unicode, documents);
    SeriesTheorems.HierarchyIsComplete(policy, unicode, documents);
    s, i := SharersAppear(documents, Merged(policy, unicode, documents).value.value, 1, ONE, OTHER);
    SharerIsNotAligned(policy, unicode, documents, s, i);
  }

  // ----- season artwork -----

  lemma SeasonArtworkSources(policy: MergePolicy, unicode: Unicode, number: nat, documents: seq<Sourced<Season>>)
    requires documents != []
    ensures var path := Dotted(SeasonPath(number), "artwork");
            SourcesFor(SeasonOf(policy, unicode, number, documents).log, path) ==
            Sources(Kept(FieldObservations(policy, Television, path, documents, SeasonArtwork),
                         SameKey(ArtworkKey(unicode))))
  {
    var path, below := Dotted(SeasonPath(number), "artwork"), Dotted(SeasonPath(number), "episodes");
    var own := [Entry(SeasonPath(number), documents[0].source)];
    var episodes := Episodes(policy, unicode, number, documents).log;
    var kept := Kept(FieldObservations(policy, Television, path, documents, SeasonArtwork),
                     SameKey(ArtworkKey(unicode)));
    EpisodesLogBelow(policy, unicode, below, number, documents);
    forall e | e in episodes ensures e.path != path { CharacterBelow(below, e.path, |SeasonPath(number)| + 1); }
    NoSourcesOutside(episodes, path);
    NoSourcesOutside(own, path);
    SourcesOfConcatenation(own, episodes, path);
    SourcesOfConcatenation(own + episodes, Under(path, Sources(kept)), path);
    SourcesUnder(path, Sources(kept), path);
  }

  lemma SeasonArtworkAt(policy: MergePolicy, unicode: Unicode, base: seq<SeriesDocument>, s: nat)
    requires base != [] && s < |SeriesTheorems.SeasonNumbers(base)|
    ensures var number := SeriesTheorems.SeasonNumbers(base)[s];
            var path := Dotted(SeasonPath(number), "artwork");
            var obs := FieldObservations(policy, Television, path, SeasonOrder(policy, base, number), SeasonArtwork);
            && s < |Seasons(policy, unicode, base).value|
            && Seasons(policy, unicode, base).value[s].artwork == Values(Kept(obs, SameKey(ArtworkKey(unicode))))
            && SourcesFor(SeriesOf(policy, unicode, base).log, path) ==
               Sources(Kept(obs, SameKey(ArtworkKey(unicode))))
  {
    var number := SeriesTheorems.SeasonNumbers(base)[s];
    var path := Dotted(SeasonPath(number), "artwork");
    DottedBelow(SeasonPath(number), SeasonPath(number), "artwork");
    BelowShorter(SEASONS, Numeral(number), path);
    SeriesSources(policy, unicode, base, path);
    SeasonsSources(policy, unicode, base, s, path);
    SeriesTheorems.SeasonAt(policy, unicode, base, s);
    SeasonArtworkSources(policy, unicode, number, SeasonOrder(policy, base, number));
  }

  /** The artwork of every season is aligned with its recorded sources. */
  lemma SeasonArtworkIsAligned(policy: MergePolicy, unicode: Unicode, documents: seq<SeriesDocument>, s: nat)
    requires Merged(policy, unicode, documents).Ok?
    requires s < |Merged(policy, unicode, documents).value.value.seasons|
    ensures var r := Merged(policy, unicode, documents).value;
            var season := r.value.seasons[s];
            var path := Dotted(SeasonPath(season.number), "artwork");
            Aligned(season.artwork, Lookup(r.provenance, path),
                    FieldObservations(policy, Television, path, DocumentsOf(policy, documents, season.number),
                                      SeasonArtwork),
                    SameKey(ArtworkKey(unicode)))
  {
    var base := Ordered(policy, Television, "series", documents);
    MergedIsSeriesOf(policy, unicode, documents);
    MergedSeason(policy, unicode, documents, s);
    SeasonArtworkAt(policy, unicode, base, s);
    var number := SeriesTheorems.SeasonNumbers(base)[s];
    var path := Dotted(SeasonPath(number), "artwork");
    LookupInGrouped(SeriesOf(policy, unicode, base).log, path);
    KeptIsAligned(FieldObservations(policy, Television, path, SeasonOrder(policy, base, number), SeasonArtwork),
                  SameKey(ArtworkKey(unicode)));
  }
}
