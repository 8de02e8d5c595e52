/** Where the provenance of a series is recorded: every season and every episode below its own path. A path continues
    another one only behind a dot, and numerals are injective, so no path lies below two seasons, or below two episodes
    of one season that have different numbers. Nothing of the series itself is recorded there. */
module SeriesPaths {
  import opened Decimal
  import opened Media
  import opened MergeLoops
  import opened MergePolicies
  import opened OrderedSets
  import opened Provenance
  import opened SeriesMerge

  // The path itself, or one that continues it with a dot.
  predicate Below(base: string, path: string) {
    |base| <= |path| && path[..|base|] == base && (|path| == |base| || path[|base|] == '.')
  }

  ghost predicate LogBelow(base: string, log: seq<Entry>) {
    forall i :: 0 <= i < |log| ==> Below(base, log[i].path)
  }

  lemma DottedBelow(base: string, path: string, segment: string)
    requires Below(base, path)
    ensures Below(base, Dotted(path, segment))
  {
    assert Dotted(path, segment)[..|base|] == path[..|base|];
  }

  lemma JoinBelow(base: string, a: seq<Entry>, b: seq<Entry>)
    requires LogBelow(base, a) && LogBelow(base, b)
    ensures LogBelow(base, a + b)
  {
  }

  lemma EpisodePathBelow(base: string, season: nat, episode: nat)
    requires Below(base, Dotted(SeasonPath(season), "episodes"))
    ensures Below(base, EpisodePath(season, episode))
  {
    DottedBelow(base, Dotted(SeasonPath(season), "episodes"), Numeral(episode));
  }

  lemma EpisodeLogBelow(policy: MergePolicy, unicode: Unicode, base: string, path: string,
                        documents: seq<Sourced<Episode>>)
    requires documents != [] && Below(base, path)
    ensures LogBelow(base, EpisodeOf(policy, unicode, path, documents).log)
  {
    DottedBelow(base, path, "titles");
    DottedBelow(base, path, "summaries");
    DottedBelow(base, path, "runtime");
    DottedBelow(base, path, "credits");
    DottedBelow(base, path, "artwork");
    var own := [Entry(path, documents[0].source)];
    var titles := EpisodeText(policy, unicode, Dotted(path, "titles"), documents, EpisodeTitles).log;
    var summaries := EpisodeText(policy, unicode, Dotted(path, "summaries"), documents, EpisodeSummaries).log;
    var runtime := RuntimeField(policy, Dotted(path, "runtime"), documents).log;
    var credits := CreditsField(policy, unicode, Dotted(path, "credits"), documents).log;
    var artwork := ArtworkField(policy, unicode, Dotted(path, "artwork"), documents, EpisodeArtwork).log;
    JoinBelow(base, own, titles);
    JoinBelow(base, own + titles, summaries);
    JoinBelow(base, own + titles + summaries, runtime);
    JoinBelow(base, own + titles + summaries + runtime, credits);
    JoinBelow(base, own + titles + summaries + runtime + credits, artwork);
  }

  lemma {:induction false} GatherBelow<K, V>(base: string, keys: seq<K>, step: K -> Outcome<seq<V>>)
    requires forall k :: k in keys ==> LogBelow(base, step(k).log)
    ensures LogBelow(base, Gather(keys, step).log)
  {
    if keys != [] {
      var n := |keys| - 1;
      assert keys[n] in keys;
      GatherBelow(base, keys[..n], step);
      JoinBelow(base, Gather(keys[..n], step).log, step(keys[n]).log);
    }
  }

  lemma EpisodeStepBelow(policy: MergePolicy, unicode: Unicode, base: string, season: nat,
                         documents: seq<Sourced<Season>>, sequence: EpisodeSequence)
    requires Below(base, EpisodePath(season, sequence.episode))
    ensures LogBelow(base, EpisodeStep(policy, unicode, season, documents)(sequence).log)
  {
    var ordered := EpisodeOrder(policy, season, documents, sequence);
    if ordered != [] { EpisodeLogBelow(policy, unicode, base, EpisodePath(season, sequence.episode), ordered); }
  }

  lemma EpisodesLogBelow(policy: MergePolicy, unicode: Unicode, base: string, season: nat,
                         documents: seq<Sourced<Season>>)
    requires Below(base, Dotted(SeasonPath(season), "episodes"))
    ensures LogBelow(base, Episodes(policy, unicode, season, documents).log)
  {
    SequencesAreOrdered();
    var keys, step := Ascending(SequencesOf(documents), SequenceLess), EpisodeStep(policy, unicode, season, documents);
    forall q | q in keys ensures LogBelow(base, step(q).log) {
      EpisodePathBelow(base, season, q.episode);
      EpisodeStepBelow(policy, unicode, base, season, documents, q);
    }
    GatherBelow(base, keys, step);
  }

  lemma SeasonStepBelow(policy: MergePolicy, unicode: Unicode, base: string, documents: seq<SeriesDocument>,
                        number: nat)
    requires Below(base, SeasonPath(number))
    ensures LogBelow(base, SeasonStep(policy, unicode, documents)(number).log)
  {
    var path, ordered := SeasonPath(number), SeasonOrder(policy, documents, number);
    if ordered != [] {
      DottedBelow(base, path, "artwork");
      DottedBelow(base, path, "episodes");
      EpisodesLogBelow(policy, unicode, base, number, ordered);
      var own, episodes := [Entry(path, ordered[0].source)], Episodes(policy, unicode, number, ordered).log;
      JoinBelow(base, own, episodes);
      JoinBelow(base, own + episodes,
                ArtworkField(policy, unicode, Dotted(path, "artwork"), ordered, SeasonArtwork).log);
    }
  }

  lemma SeasonsLogBelow(policy: MergePolicy, unicode: Unicode, documents: seq<SeriesDocument>)
    ensures LogBelow(SEASONS, Seasons(policy, unicode, documents).log)
  {
    NumbersAreOrdered();
    var keys, step := Ascending(NumbersOf(documents), NumberLess), SeasonStep(policy, unicode, documents);
    forall n | n in keys ensures LogBelow(SEASONS, step(n).log) {
      assert Below(SEASONS, SEASONS);
      DottedBelow(SEASONS, SEASONS, Numeral(n));
      SeasonStepBelow(policy, unicode, SEASONS, documents, n);
    }
    GatherBelow(SEASONS, keys, step);
  }

  // ----- no path is below two numbers -----

  lemma NumeralsAreInjective(a: nat, b: nat)
    requires Numeral(a) == Numeral(b)
    ensures a == b
  {
    NumeralRoundTrip(a);
    NumeralRoundTrip(b);
  }

  lemma CharacterBelow(base: string, path: string, i: nat)
    requires Below(base, path) && i < |base|
    ensures path[i] == base[i]
  {
    assert path[..|base|][i] == path[i];
  }

  lemma DigitBelow(base: string, n: nat, path: string, i: nat)
    requires Below(Dotted(base, Numeral(n)), path) && i < |Numeral(n)|
    ensures |base| + 1 + i < |path| && IsDigit(path[|base| + 1 + i])
  {
    CharacterBelow(Dotted(base, Numeral(n)), path, |base| + 1 + i);
  }

  lemma ShorterNumeral(base: string, a: nat, b: nat, path: string)
    requires Below(Dotted(base, Numeral(a)), path) && Below(Dotted(base, Numeral(b)), path)
    ensures |Numeral(b)| <= |Numeral(a)|
  {
    if |Numeral(a)| < |Numeral(b)| { DigitBelow(base, b, path, |Numeral(a)|); }
  }

  /** A path lies below the path of one number only. */
  lemma BelowOneNumber(base: string, a: nat, b: nat, path: string)
    requires Below(Dotted(base, Numeral(a)), path) && Below(Dotted(base, Numeral(b)), path)
    ensures a == b
  {
    ShorterNumeral(base, a, b, path);
    ShorterNumeral(base, b, a, path);
    var n := |base| + 1;
    assert Dotted(base, Numeral(a))[n..] == Numeral(a) && Dotted(base, Numeral(b))[n..] == Numeral(b);
    NumeralsAreInjective(a, b);
  }
}
