/** The metadata plan of a series (`plan_series`), and which of its files go with their videos when it is organized. */
module PlannedMetadata {
  import opened Options
  import opened Organize
  import opened OrganizeLayout
  import opened OrganizeTheorems
  import opened PathNames
  import opened Paths
  import opened Results
  import opened Sequences
  import opened SeriesMerge
  import opened Texts
  import EpisodeNames

  // ----- the metadata plan of a series -----

  // The writers of the three kinds of files.
  datatype Xml = Xml(series: Series -> Content, season: Season -> Content, episode: Episode -> Content)

  // `unwrap_or_default`
  function DefaultSeason(q: EpisodeSequence): nat {
    if q.season.Some? then q.season.value else 0
  }

  // `episode_stem`
  function PrintedStem(q: EpisodeSequence): string {
    match q.scheme
    case Absolute => EpisodeNames.AbsoluteStem(q.episode)
    case Aired => EpisodeNames.EpisodeStem(DefaultSeason(q), q.episode)
    case Dvd => EpisodeNames.EpisodeStem(DefaultSeason(q), q.episode)
  }

  function NfoIn(season: nat, stem: string): Path {
    [Normal(EpisodeNames.SeasonFolder(season)), Normal(stem + ['.'] + NFO)]
  }

  function EpisodeFile(season: nat, e: Episode, xml: Xml): Operation {
    WriteBytes(NfoIn(season, PrintedStem(e.sequence)), xml.episode(e))
  }

  function SeasonFile(s: Season, xml: Xml): Operation {
    WriteBytes(NfoIn(s.number, "season"), xml.season(s))
  }

  function SeriesFile(series: Series, xml: Xml): Operation {
    WriteBytes([Normal("tvshow" + ['.'] + NFO)], xml.series(series))
  }

  function EpisodeFiles(season: nat, xml: Xml): Episode -> Operation {
    (e: Episode) => EpisodeFile(season, e, xml)
  }

  function SeasonFiles(xml: Xml): Season -> seq<Operation> {
    (s: Season) => [SeasonFile(s, xml)] + Each(s.episodes, EpisodeFiles(s.number, xml))
  }

  // `plan_series`
  function SeriesPlan(series: Series, xml: Xml): seq<Operation> {
    [SeriesFile(series, xml)] + Chain(series.seasons, SeasonFiles(xml))
  }

  // The files of one season, behind those of the series and of earlier seasons.
  method PlanSeason(season: Season, xml: Xml, earlier: seq<Operation>) returns (plan: seq<Operation>)
    ensures plan == earlier + SeasonFiles(xml)(season)
  {
    plan := earlier + [SeasonFile(season, xml)];
    ghost var before, files := plan, EpisodeFiles(season.number, xml);
    for j := 0 to |season.episodes|
      invariant plan == before + Each(season.episodes[..j], files)
    {
      EachStep(season.episodes, files, j);
      Associative(before, Each(season.episodes[..j], files), [files(season.episodes[j])]);
      plan := plan + [EpisodeFile(season.number, season.episodes[j], xml)];
    }
    assert season.episodes[..|season.episodes|] == season.episodes;
    Associative(earlier, [SeasonFile(season, xml)], Each(season.episodes, files));
  }

  /** The loops over seasons and episodes. */
  method PlanSeries(series: Series, xml: Xml) returns (plan: seq<Operation>)
    ensures plan == SeriesPlan(series, xml)
  {
    plan := [SeriesFile(series, xml)];
    for i := 0 to |series.seasons|
      invariant plan == [SeriesFile(series, xml)] + Chain(series.seasons[..i], SeasonFiles(xml))
    {
      plan := PlanSeason(series.seasons[i], xml, plan);
      assert series.seasons[..i + 1][..i] == series.seasons[..i];
      Associative([SeriesFile(series, xml)], Chain(series.seasons[..i], SeasonFiles(xml)),
                  SeasonFiles(xml)(series.seasons[i]));
    }
    assert series.seasons[..|series.seasons|] == series.seasons;
  }

  // ----- which of them go with an episode -----

  // The season and the number fit 32 bits.
  predicate InRange(q: EpisodeSequence) {
    DefaultSeason(q) < EpisodeNames.U32_LIMIT && q.episode < EpisodeNames.U32_LIMIT
  }

  // A printed episode of positive number, in the aired or the DVD order.
  predicate IsPrinted(q: EpisodeSequence) {
    !q.scheme.Absolute? && q.episode > 0
  }

  function KeyOf(q: EpisodeSequence): EpisodeKey { (DefaultSeason(q), q.episode) }

  lemma NfoNames(season: nat, stem: string)
    requires stem != ""
    ensures var path := NfoIn(season, stem);
            && FileStem(path) == Some(stem) && Extension(path) == Some(NFO)
            && path[..1] == [Normal(EpisodeNames.SeasonFolder(season))]
  {
    Appended(stem, NFO);
  }

  lemma PrintedStems(q: EpisodeSequence)
    ensures PrintedStem(q) != "" && (StartsWith(PrintedStem(q), "S") <==> !q.scheme.Absolute?)
  {
    if q.scheme.Absolute? { assert PrintedStem(q)[0] == 'E'; } else { assert PrintedStem(q)[0] == 'S'; }
  }

  // Episode zero has a marker that names no episode.
  lemma ZeroIsNoEpisode(season: nat, folder: Option<string>, text: EpisodeNames.Text)
    requires season < EpisodeNames.U32_LIMIT
    ensures EpisodeNames.Identity(EpisodeNames.EpisodeStem(season, 0), folder, text) == None
  {
    var s := EpisodeNames.EpisodeStem(season, 0);
    EpisodeNames.StemLayout(season, 0);
    EpisodeNames.StemNumbers(season, 0);
    assert EpisodeNames.Marker(s, 0) && !EpisodeNames.Single(s, 0);
    EpisodeNames.MarkedStemsDecideIff(s, folder, text, 0);
  }

  /** A printed episode is the planned metadata of its season and number; an absolute one is that of no episode. */
  lemma PlannedNfoIff(season: nat, e: SeriesMerge.Episode, xml: Xml, key: EpisodeKey, text: EpisodeNames.Text)
    requires InRange(e.sequence)
    ensures PlannedNfo(EpisodeFile(season, e, xml), key, text) <==> IsPrinted(e.sequence) && key == KeyOf(e.sequence)
  {
    var q := e.sequence;
    PrintedStems(q);
    NfoNames(season, PrintedStem(q));
    if !q.scheme.Absolute? {
      var folder := Some(EpisodeNames.SeasonFolder(season));
      if q.episode > 0 {
        EpisodeNames.StemRoundTrip(DefaultSeason(q), q.episode, folder, text);
      } else {
        ZeroIsNoEpisode(DefaultSeason(q), folder, text);
      }
    }
  }

  // ----- where they end -----

  lemma {:induction false} InChain<K, T>(keys: seq<K>, list: K -> seq<T>, k: K, x: T)
    requires k in keys && x in list(k)
    ensures x in Chain(keys, list)
  {
    var n := |keys| - 1;
    assert keys == keys[..n] + [keys[n]];
    if k != keys[n] { InChain(keys[..n], list, k, x); }
  }

  lemma EpisodeIsPlanned(series: Series, xml: Xml, season: Season, e: SeriesMerge.Episode)
    requires season in series.seasons && e in season.episodes
    ensures EpisodeFile(season.number, e, xml) in SeriesPlan(series, xml)
  {
    var i :| 0 <= i < |season.episodes| && season.episodes[i] == e;
    assert Each(season.episodes, EpisodeFiles(season.number, xml))[i] == EpisodeFile(season.number, e, xml);
    InChain(series.seasons, SeasonFiles(xml), season, EpisodeFile(season.number, e, xml));
  }

  // Where the metadata operation at j ends.
  lemma MetadataAt(files: seq<Path>, request: Request, j: nat)
    requires Planned(files, request).Ok? && j < |request.metadata|
    ensures var parts, episodes := PartsOf(files, request), PlaceAll(files, Asked(files, request)).value.episodes;
            && |parts.metadata| == |request.metadata|
            && Rebase(request.metadata[j], episodes, request) == Ok(parts.metadata[j])
  {
    var rebase := Rebasing(PlaceAll(files, Asked(files, request)).value.episodes, request);
    RebasingSucceedsIff(request.metadata, rebase);
    assert rebase(request.metadata[j]) == Ok(PartsOf(files, request).metadata[j]);
  }

  lemma VideoSettles(files: seq<Path>, request: Request, v: nat, key: EpisodeKey)
    requires Planned(files, request).Ok? && request.kind.Television? && v < |files|
    requires VideoEpisode(files[v], request) == Some(key)
    ensures var episodes, settled := PlaceAll(files, Asked(files, request)).value.episodes,
            PartsOf(files, request).settled;
            |settled| == |files| && key in episodes && episodes[key] == WithExtension(settled[v].target, NFO)
  {
    var ask := Asked(files, request);
    var placed := PlaceAll(files, ask).value;
    PlacedInOrder(files, ask);
    EpisodeTargets(files, ask, v);
    VideosStay(placed.placements, placed.episodes, request.text, v);
  }

  /** Organizing a series: the metadata of every printed episode that a video of the source identifies ends beside that
      video, under its name. */
  lemma PrintedMetadataMeetsItsVideo(files: seq<Path>, request: Request, series: Series, xml: Xml, season: Season,
                                     e: SeriesMerge.Episode, v: nat)
    requires Planned(files, request).Ok? && request.kind.Television? && request.metadata == SeriesPlan(series, xml)
    requires season in series.seasons && e in season.episodes && InRange(e.sequence) && IsPrinted(e.sequence)
    requires v < |files| && VideoEpisode(files[v], request) == Some(KeyOf(e.sequence))
    ensures var parts := PartsOf(files, request);
            && |parts.settled| == |files|
            && WriteBytes(WithExtension(parts.settled[v].target, NFO), xml.episode(e)) in parts.metadata
  {
    var operation, key := EpisodeFile(season.number, e, xml), KeyOf(e.sequence);
    EpisodeIsPlanned(series, xml, season, e);
    var j :| 0 <= j < |request.metadata| && request.metadata[j] == operation;
    PlannedNfoIff(season.number, e, xml, key, request.text);
    VideoSettles(files, request, v, key);
    MetadataAt(files, request, j);
    MetadataMovesToItsEpisode(operation, key, PlaceAll(files, Asked(files, request)).value.episodes, request);
    assert PartsOf(files, request).metadata[j] in PartsOf(files, request).metadata;
  }

  lemma OtherMetadataIsNotMoved(season: nat, e: SeriesMerge.Episode, xml: Xml, episodes: map<EpisodeKey, Path>,
                                request: Request)
    requires InRange(e.sequence) && !IsPrinted(e.sequence)
    requires Rebase(EpisodeFile(season, e, xml), episodes, request).Ok?
    ensures Rebase(EpisodeFile(season, e, xml), episodes, request).value ==
            WriteBytes(Join(request.package, NfoIn(season, PrintedStem(e.sequence))), xml.episode(e))
  {
    var operation := EpisodeFile(season, e, xml);
    if IsEpisodeNfo(operation, episodes, request.text) {
      PlannedNfoIff(season, e, xml, Organize.Episode(operation.target, request.text).value, request.text);
    }
  }

  /** The metadata of every other episode, the absolute ones above all, ends below the package under its own name,
      whatever videos there are. */
  lemma OtherMetadataStays(files: seq<Path>, request: Request, series: Series, xml: Xml, season: Season,
                           e: SeriesMerge.Episode)
    requires Planned(files, request).Ok? && request.kind.Television? && request.metadata == SeriesPlan(series, xml)
    requires season in series.seasons && e in season.episodes && InRange(e.sequence) && !IsPrinted(e.sequence)
    ensures WriteBytes(Join(request.package, NfoIn(season.number, PrintedStem(e.sequence))), xml.episode(e)) in
            PartsOf(files, request).metadata
  {
    var episodes := PlaceAll(files, Asked(files, request)).value.episodes;
    EpisodeIsPlanned(series, xml, season, e);
    var j :| 0 <= j < |request.metadata| && request.metadata[j] == EpisodeFile(season.number, e, xml);
    MetadataAt(files, request, j);
    OtherMetadataIsNotMoved(season.number, e, xml, episodes, request);
    assert PartsOf(files, request).metadata[j] in PartsOf(files, request).metadata;
  }
}
