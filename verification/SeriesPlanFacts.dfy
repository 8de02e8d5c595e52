/** The files that are planned for a series, by name. */
module SeriesPlanFacts {
  import opened EpisodeNames
  import opened Options
  import opened Organize
  import opened Paths
  import opened PlannedMetadata
  import opened Sequences
  import opened SeriesMerge

  // The name of an episode's file. A missing season counts as season zero.
  ghost function FileNameOf(q: EpisodeSequence): string {
    var season := if q.season == None then 0 else q.season.value;
    if q.scheme.Absolute? then "E" + Padded4(q.episode) + ".nfo"
    else "S" + Padded(season) + "E" + Padded(q.episode) + ".nfo"
  }

  // Where the files of season s start: behind that of the series and those of each earlier season, which are one more
  // than its episodes.
  ghost function StartOf(seasons: seq<Season>, s: nat): nat
    requires s <= |seasons|
  {
    if s == 0 then 1 else StartOf(seasons, s - 1) + 1 + |seasons[s - 1].episodes|
  }

  // The plan holds the files of season s in their place.
  ghost predicate SeasonStands(plan: seq<Operation>, seasons: seq<Season>, xml: Xml, s: nat)
    requires s < |seasons|
  {
    var season, start := seasons[s], StartOf(seasons, s);
    var folder := Normal("Season " + Padded(season.number));
    && start + |season.episodes| < |plan|
    && plan[start] == WriteBytes([folder, Normal("season.nfo")], xml.season(season))
    && forall j :: 0 <= j < |season.episodes| ==>
         plan[start + 1 + j] ==
         WriteBytes([folder, Normal(FileNameOf(season.episodes[j].sequence))], xml.episode(season.episodes[j]))
  }

  lemma EpisodeFileIs(season: nat, e: SeriesMerge.Episode, xml: Xml)
    ensures EpisodeFile(season, e, xml) ==
            WriteBytes([Normal("Season " + Padded(season)), Normal(FileNameOf(e.sequence))], xml.episode(e))
  {
    assert PrintedStem(e.sequence) + ['.'] + NFO == FileNameOf(e.sequence);
  }

  lemma SeasonFileIs(season: Season, xml: Xml)
    ensures SeasonFile(season, xml) ==
            WriteBytes([Normal("Season " + Padded(season.number)), Normal("season.nfo")], xml.season(season))
  {
    assert "season" + ['.'] + NFO == "season.nfo";
  }

  lemma StartsAgree(front: seq<Season>, seasons: seq<Season>, s: nat)
    requires s <= |front| && front <= seasons
    ensures StartOf(front, s) == StartOf(seasons, s)
  {
    if s > 0 { StartsAgree(front, seasons, s - 1); }
  }

  lemma {:induction false} SeasonsStand(head: Operation, seasons: seq<Season>, xml: Xml)
    ensures |[head] + Chain(seasons, SeasonFiles(xml))| == StartOf(seasons, |seasons|)
    ensures forall s: nat :: s < |seasons| ==>
              SeasonStands([head] + Chain(seasons, SeasonFiles(xml)), seasons, xml, s)
  {
    if seasons != [] {
      var n := |seasons| - 1;
      var front, last := seasons[..n], seasons[n];
      var before := [head] + Chain(front, SeasonFiles(xml));
      SeasonsStand(head, front, xml);
      StartsAgree(front, seasons, n);
      Associative([head], Chain(front, SeasonFiles(xml)), SeasonFiles(xml)(last));
      LastSeasonStands(before, seasons, xml);
      forall s: nat | s < n ensures SeasonStands(before + SeasonFiles(xml)(last), seasons, xml, s) {
        StartsAgree(front, seasons, s);
        assert SeasonStands(before, front, xml, s);
      }
    }
  }

  lemma LastSeasonStands(before: seq<Operation>, seasons: seq<Season>, xml: Xml)
    requires seasons != [] && |before| == StartOf(seasons, |seasons| - 1)
    ensures var n := |seasons| - 1;
            var plan := before + SeasonFiles(xml)(seasons[n]);
            SeasonStands(plan, seasons, xml, n) && |plan| == StartOf(seasons, |seasons|)
  {
    var season := seasons[|seasons| - 1];
    SeasonFileIs(season, xml);
    forall j | 0 <= j < |season.episodes|
      ensures SeasonFiles(xml)(season)[1 + j] ==
              WriteBytes([Normal("Season " + Padded(season.number)), Normal(FileNameOf(season.episodes[j].sequence))],
                         xml.episode(season.episodes[j]))
    {
      EpisodeFileIs(season.number, season.episodes[j], xml);
    }
  }

  /** The plan of a series: its own file, then for each season that season's file and those of its episodes, and nothing
      else. */
  lemma SeriesPlanIs(series: Series, xml: Xml)
    ensures var plan := SeriesPlan(series, xml);
            && |plan| == StartOf(series.seasons, |series.seasons|)
            && plan[0] == WriteBytes([Normal("tvshow.nfo")], xml.series(series))
            && forall s: nat :: s < |series.seasons| ==> SeasonStands(plan, series.seasons, xml, s)
  {
    SeasonsStand(SeriesFile(series, xml), series.seasons, xml);
    assert "tvshow" + ['.'] + NFO == "tvshow.nfo";
  }
}
