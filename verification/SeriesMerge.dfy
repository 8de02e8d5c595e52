/** What the television merger computes (`merge/television.rs`), as functions of its documents. */
module SeriesMerge {
  import opened Decimal
  import opened Media
  import opened MergeLoops
  import opened MergePolicies
  import opened Options
  import opened OrderedSets
  import opened Provenance
  import opened Results
  import opened Retention

  datatype EpisodeSequence = EpisodeSequence(scheme: OrderingScheme, season: Option<nat>, episode: nat)

  datatype Episode = Episode(
    id: string,
    titles: seq<LocalizedEntry>,
    summaries: seq<LocalizedEntry>,
    sequence: EpisodeSequence,
    runtime: Option<nat>,
    credits: seq<Credit>,
    artwork: seq<ArtworkReference>)

  datatype Season = Season(id: string, number: nat, episodes: seq<Episode>, artwork: seq<ArtworkReference>)

  datatype Series = Series(
    id: string,
    titles: seq<LocalizedEntry>,
    summaries: seq<LocalizedEntry>,
    ordering: OrderingScheme,
    seasons: seq<Season>,
    artwork: seq<ArtworkReference>)

  type SeriesDocument = Sourced<Series>

  const UNTAGGED := "untagged"

  // ----- the derived order of episode sequences: scheme, then season, then number -----

  function SchemeIndex(s: OrderingScheme): nat {
    match s case Aired => 0 case Dvd => 1 case Absolute => 2
  }

  function SeasonIndex(s: Option<nat>): nat {
    match s case None => 0 case Some(n) => n + 1
  }

  predicate SequenceLess(a: EpisodeSequence, b: EpisodeSequence) {
    || SchemeIndex(a.scheme) < SchemeIndex(b.scheme)
    || (a.scheme == b.scheme && SeasonIndex(a.season) < SeasonIndex(b.season))
    || (a.scheme == b.scheme && a.season == b.season && a.episode < b.episode)
  }

  lemma SequencesAreOrdered()
    ensures StrictTotal(SequenceLess)
  {
  }

  // ----- field paths -----

  const TITLES := "series.titles"
  const SUMMARIES := "series.summaries"
  const ARTWORK := "series.artwork"
  const ORDERING := "series.ordering"
  const SEASONS := "series.seasons"

  function SeasonPath(number: nat): string { Dotted(SEASONS, Numeral(number)) }

  // Only the season and episode numbers enter the path, not the whole sequence.
  function EpisodePath(season: nat, episode: nat): string {
    Dotted(Dotted(SeasonPath(season), "episodes"), Numeral(episode))
  }

  lemma TitlesPath() ensures ValidPath(TITLES) {}
  lemma SummariesPath() ensures ValidPath(SUMMARIES) {}
  lemma ArtworkPath() ensures ValidPath(ARTWORK) {}
  lemma OrderingPath() ensures ValidPath(ORDERING) {}
  lemma SeasonsPath() ensures ValidPath(SEASONS) {}

  lemma FieldWords()
    ensures ValidSegment("episodes") && ValidSegment("titles") && ValidSegment("summaries")
    ensures ValidSegment("runtime") && ValidSegment("credits") && ValidSegment("artwork")
  {
  }

  lemma SeasonPathIsValid(number: nat)
    ensures ValidPath(SeasonPath(number))
  {
    SeasonsPath();
    DottedIsValid(SEASONS, Numeral(number));
  }

  lemma EpisodePathIsValid(season: nat, episode: nat)
    ensures ValidPath(EpisodePath(season, episode))
  {
    SeasonPathIsValid(season);
    FieldWords();
    DottedIsValid(SeasonPath(season), "episodes");
    DottedIsValid(Dotted(SeasonPath(season), "episodes"), Numeral(episode));
  }

  // ----- selectors -----

  function Titles(s: Series): seq<LocalizedEntry> { s.titles }
  function Summaries(s: Series): seq<LocalizedEntry> { s.summaries }
  function Artwork(s: Series): seq<ArtworkReference> { s.artwork }
  function SeasonArtwork(s: Season): seq<ArtworkReference> { s.artwork }
  function EpisodeTitles(e: Episode): seq<LocalizedEntry> { e.titles }
  function EpisodeSummaries(e: Episode): seq<LocalizedEntry> { e.summaries }
  function EpisodeCredits(e: Episode): seq<Credit> { e.credits }
  function EpisodeArtwork(e: Episode): seq<ArtworkReference> { e.artwork }

  // ----- the ordering check -----

  function EpisodesOf(seasons: seq<Season>): seq<Episode> {
    if seasons == [] then [] else seasons[0].episodes + EpisodesOf(seasons[1..])
  }

  function FirstForeign(episodes: seq<Episode>, ordering: OrderingScheme): Option<OrderingScheme> {
    if episodes == [] then None
    else if episodes[0].sequence.scheme != ordering then Some(episodes[0].sequence.scheme)
    else FirstForeign(episodes[1..], ordering)
  }

  function DocumentMismatch(document: SeriesDocument, ordering: OrderingScheme): Option<OrderingScheme> {
    if document.value.ordering != ordering then Some(document.value.ordering)
    else FirstForeign(EpisodesOf(document.value.seasons), ordering)
  }

  function FirstMismatch(documents: seq<SeriesDocument>, ordering: OrderingScheme): Option<OrderingScheme> {
    if documents == [] then None
    else if DocumentMismatch(documents[0], ordering).Some? then DocumentMismatch(documents[0], ordering)
    else FirstMismatch(documents[1..], ordering)
  }

  // ----- gathering one outcome per key -----

  ghost function Gather<K, V>(keys: seq<K>, step: K -> Outcome<seq<V>>): Outcome<seq<V>> {
    if keys == [] then Outcome([], [], [])
    else
      var before, last := Gather(keys[..|keys| - 1], step), step(keys[|keys| - 1]);
      Outcome(before.value + last.value, before.log + last.log, before.conflicts + last.conflicts)
  }

  // ----- episodes -----

  function FindEpisode(episodes: seq<Episode>, sequence: EpisodeSequence): Option<Episode> {
    if episodes == [] then None
    else if episodes[0].sequence == sequence then Some(episodes[0])
    else FindEpisode(episodes[1..], sequence)
  }

  function EpisodeDocuments(documents: seq<Sourced<Season>>, sequence: EpisodeSequence): seq<Sourced<Episode>> {
    if documents == [] then []
    else
      var found := FindEpisode(documents[0].value.episodes, sequence);
      (if found.Some? then [Sourced(found.value, documents[0].source)] else []) +
      EpisodeDocuments(documents[1..], sequence)
  }

  ghost function SequencesOf(documents: seq<Sourced<Season>>): set<EpisodeSequence> {
    set d, e | d in documents && e in d.value.episodes :: e.sequence
  }

  // The first document with a runtime supplies it.
  function FirstRuntime(documents: seq<Sourced<Episode>>): Option<Sourced<nat>> {
    if documents == [] then None
    else if documents[0].value.runtime.Some? then Some(Sourced(documents[0].value.runtime.value, documents[0].source))
    else FirstRuntime(documents[1..])
  }

  ghost function EpisodeText(policy: MergePolicy, unicode: Unicode, path: string, documents: seq<Sourced<Episode>>,
                             select: Episode -> seq<LocalizedEntry>): Outcome<seq<LocalizedEntry>>
  {
    LocalizedField(FieldObservations(policy, Television, path, documents, select), UNTAGGED, path, unicode)
  }

  ghost function RuntimeField(policy: MergePolicy, path: string, documents: seq<Sourced<Episode>>)
    : Outcome<Option<nat>>
  {
    match FirstRuntime(Ordered(policy, Television, path, documents))
    case None => Outcome(None, [], [])
    case Some(r) => Outcome(Some(r.value), [Entry(path, r.source)], [])
  }

  ghost function CreditsField(policy: MergePolicy, unicode: Unicode, path: string, documents: seq<Sourced<Episode>>)
    : Outcome<seq<Credit>>
  {
    KeptField(FieldObservations(policy, Television, path, documents, EpisodeCredits), SameCredit(unicode), path)
  }

  ghost function ArtworkField<T>(policy: MergePolicy, unicode: Unicode, path: string, documents: seq<Sourced<T>>,
                                 select: T -> seq<ArtworkReference>): Outcome<seq<ArtworkReference>>
  {
    KeptField(FieldObservations(policy, Television, path, documents, select), SameKey(ArtworkKey(unicode)), path)
  }

  // One episode from the documents that have its sequence, already in the order of its base path.
  ghost function EpisodeOf(policy: MergePolicy, unicode: Unicode, path: string, documents: seq<Sourced<Episode>>)
    : Outcome<Episode>
    requires documents != []
  {
    var titles := EpisodeText(policy, unicode, Dotted(path, "titles"), documents, EpisodeTitles);
    var summaries := EpisodeText(policy, unicode, Dotted(path, "summaries"), documents, EpisodeSummaries);
    var runtime := RuntimeField(policy, Dotted(path, "runtime"), documents);
    var credits := CreditsField(policy, unicode, Dotted(path, "credits"), documents);
    var artwork := ArtworkField(policy, unicode, Dotted(path, "artwork"), documents, EpisodeArtwork);
    Outcome(
      documents[0].value.(titles := titles.value, summaries := summaries.value, runtime := runtime.value,
                          credits := credits.value, artwork := artwork.value),
      [Entry(path, documents[0].source)] + titles.log + summaries.log + runtime.log + credits.log + artwork.log,
      titles.conflicts + summaries.conflicts)
  }

  function EpisodeOrder(policy: MergePolicy, season: nat, documents: seq<Sourced<Season>>, sequence: EpisodeSequence)
    : seq<Sourced<Episode>>
  {
    Ordered(policy, Television, EpisodePath(season, sequence.episode), EpisodeDocuments(documents, sequence))
  }

  ghost function One<T>(o: Outcome<T>): Outcome<seq<T>> {
    Outcome([o.value], o.log, o.conflicts)
  }

  ghost function EpisodeStep(policy: MergePolicy, unicode: Unicode, season: nat, documents: seq<Sourced<Season>>)
    : EpisodeSequence -> Outcome<seq<Episode>>
  {
    (sequence: EpisodeSequence) =>
      var ordered := EpisodeOrder(policy, season, documents, sequence);
      if ordered == [] then Outcome([], [], [])
      else One(EpisodeOf(policy, unicode, EpisodePath(season, sequence.episode), ordered))
  }

  ghost function Episodes(policy: MergePolicy, unicode: Unicode, season: nat, documents: seq<Sourced<Season>>)
    : Outcome<seq<Episode>>
  {
    SequencesAreOrdered();
    Gather(Ascending(SequencesOf(documents), SequenceLess), EpisodeStep(policy, unicode, season, documents))
  }

  // ----- seasons -----

  function FindSeason(seasons: seq<Season>, number: nat): Option<Season> {
    if seasons == [] then None
    else if seasons[0].number == number then Some(seasons[0])
    else FindSeason(seasons[1..], number)
  }

  // The first season of that number in every document that has one.
  function SeasonDocuments(documents: seq<SeriesDocument>, number: nat): seq<Sourced<Season>> {
    if documents == [] then []
    else
      var found := FindSeason(documents[0].value.seasons, number);
      (if found.Some? then [Sourced(found.value, documents[0].source)] else []) +
      SeasonDocuments(documents[1..], number)
  }

  ghost function NumbersOf(documents: seq<SeriesDocument>): set<nat> {
    set d, s | d in documents && s in d.value.seasons :: s.number
  }

  ghost function SeasonOf(policy: MergePolicy, unicode: Unicode, number: nat, documents: seq<Sourced<Season>>)
    : Outcome<Season>
    requires documents != []
  {
    var path := SeasonPath(number);
    var episodes := Episodes(policy, unicode, number, documents);
    var artwork := ArtworkField(policy, unicode, Dotted(path, "artwork"), documents, SeasonArtwork);
    Outcome(documents[0].value.(episodes := episodes.value, artwork := artwork.value),
            [Entry(path, documents[0].source)] + episodes.log + artwork.log,
            episodes.conflicts)
  }

  function SeasonOrder(policy: MergePolicy, documents: seq<SeriesDocument>, number: nat): seq<Sourced<Season>> {
    SeasonDocuments(Ordered(policy, Television, SeasonPath(number), documents), number)
  }

  ghost function SeasonStep(policy: MergePolicy, unicode: Unicode, documents: seq<SeriesDocument>)
    : nat -> Outcome<seq<Season>>
  {
    (number: nat) =>
      var ordered := SeasonOrder(policy, documents, number);
      if ordered == [] then Outcome([], [], [])
      else One(SeasonOf(policy, unicode, number, ordered))
  }

  ghost function Seasons(policy: MergePolicy, unicode: Unicode, documents: seq<SeriesDocument>): Outcome<seq<Season>> {
    NumbersAreOrdered();
    Gather(Ascending(NumbersOf(documents), NumberLess), SeasonStep(policy, unicode, documents))
  }

  // ----- series -----

  ghost function SeriesText(policy: MergePolicy, unicode: Unicode, path: string, documents: seq<SeriesDocument>,
                            select: Series -> seq<LocalizedEntry>): Outcome<seq<LocalizedEntry>>
  {
    LocalizedField(FieldObservations(policy, Television, path, documents, select), UNTAGGED, path, unicode)
  }

  // The merged series of documents in base order.
  ghost function SeriesOf(policy: MergePolicy, unicode: Unicode, documents: seq<SeriesDocument>): Outcome<Series>
    requires documents != []
  {
    var titles := SeriesText(policy, unicode, TITLES, documents, Titles);
    var summaries := SeriesText(policy, unicode, SUMMARIES, documents, Summaries);
    var artwork := ArtworkField(policy, unicode, ARTWORK, documents, Artwork);
    var seasons := Seasons(policy, unicode, documents);
    Outcome(
      documents[0].value.(titles := titles.value, summaries := summaries.value, artwork := artwork.value,
                          seasons := seasons.value),
      titles.log + summaries.log + artwork.log + seasons.log + [Entry(ORDERING, documents[0].source)],
      titles.conflicts + summaries.conflicts + seasons.conflicts)
  }

  // What a complete series has.
  function Checklist(s: Series): seq<bool> {
    [s.titles != [], s.summaries != [], s.seasons != [], exists season <- s.seasons :: season.episodes != [],
     s.artwork != []]
  }

  /** What a merge of sourced series amounts to. */
  ghost function Merged(policy: MergePolicy, unicode: Unicode, arrived: seq<SeriesDocument>)
    : MergeResult<Resolved<Series>>
  {
    if arrived == [] then Err(NoDocuments)
    else
      var documents := Ordered(policy, Television, "series", arrived);
      OrderedKeepsLength(policy, Television, "series", arrived);
      var ordering := documents[0].value.ordering;
      match FirstMismatch(documents, ordering)
      case Some(found) => Err(OrderingMismatch(ordering, found))
      case None =>
        var merged := SeriesOf(policy, unicode, documents);
        Ok(Rated(merged.value, Grouped(merged.log), merged.conflicts, Checklist(merged.value)))
  }
}
