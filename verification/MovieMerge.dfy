/** The movie merger (`MovieMerger::merge`): documents in the order of their base ranks, then eight fields, each from
    the documents in its own order. What it guarantees follows: arrival order and base ranks, merged movies as normal
    forms, provenance field by field, and one conflict for each text that loses. */
module MovieMerge {
  import opened Completeness
  import opened Media
  import opened MergeLoops
  import opened MergePolicies
  import opened Options
  import opened Provenance
  import opened Results
  import opened Retention
  import StableSort

  datatype ReleaseDate = ReleaseDate(year: nat, month: Option<nat>, day: Option<nat>)

  datatype MovieRelease = MovieRelease(id: string, releaseDate: ReleaseDate, edition: Option<string>,
                                       runtime: Option<nat>)

  datatype Movie = Movie(
    id: string,
    titles: seq<LocalizedEntry>,
    summaries: seq<LocalizedEntry>,
    releases: seq<MovieRelease>,
    credits: seq<Credit>,
    genres: seq<string>,
    artwork: seq<ArtworkReference>,
    ratings: seq<Rating>,
    contentRatings: seq<ContentRating>)

  type MovieDocument = Sourced<Movie>

  const UNTAGGED := "<untagged>"

  const TITLES := "movie.titles"
  const SUMMARIES := "movie.summaries"
  const RELEASES := "movie.releases"
  const CREDITS := "movie.credits"
  const GENRES := "movie.genres"
  const ARTWORK := "movie.artwork"
  const RATINGS := "movie.ratings"
  const CONTENT_RATINGS := "movie.content_ratings"

  lemma TitlesPath() ensures ValidPath(TITLES) {}
  lemma SummariesPath() ensures ValidPath(SUMMARIES) {}
  lemma ReleasesPath() ensures ValidPath(RELEASES) {}
  lemma CreditsPath() ensures ValidPath(CREDITS) {}
  lemma GenresPath() ensures ValidPath(GENRES) {}
  lemma ArtworkPath() ensures ValidPath(ARTWORK) {}
  lemma RatingsPath() ensures ValidPath(RATINGS) {}
  lemma ContentRatingsPath() ensures ValidPath(CONTENT_RATINGS) {}

  lemma PathsAreValid()
    ensures ValidPath(TITLES) && ValidPath(SUMMARIES) && ValidPath(RELEASES) && ValidPath(CREDITS)
    ensures ValidPath(GENRES) && ValidPath(ARTWORK) && ValidPath(RATINGS) && ValidPath(CONTENT_RATINGS)
  {
    TitlesPath();
    SummariesPath();
    ReleasesPath();
    CreditsPath();
    GenresPath();
    ArtworkPath();
    RatingsPath();
    ContentRatingsPath();
  }

  function Titles(m: Movie): seq<LocalizedEntry> { m.titles }
  function Summaries(m: Movie): seq<LocalizedEntry> { m.summaries }
  function Releases(m: Movie): seq<MovieRelease> { m.releases }
  function Credits(m: Movie): seq<Credit> { m.credits }
  function Genres(m: Movie): seq<string> { m.genres }
  function Artwork(m: Movie): seq<ArtworkReference> { m.artwork }
  function Ratings(m: Movie): seq<Rating> { m.ratings }
  function ContentRatings(m: Movie): seq<ContentRating> { m.contentRatings }

  function ReleaseKey(): MovieRelease -> string { (r: MovieRelease) => r.id }
  function GenreKey(unicode: Unicode): string -> string { (g: string) => unicode.Normalize(g) }
  function RatingKey(unicode: Unicode): Rating -> string { (r: Rating) => unicode.Normalize(r.system) }
  function ContentRatingKey(unicode: Unicode): ContentRating -> string {
    (r: ContentRating) => unicode.Normalize(r.system) + ":" + unicode.Normalize(r.value)
  }

  // The eight merged fields, each from the documents in its own order.
  datatype MovieFields = MovieFields(
    titles: Outcome<seq<LocalizedEntry>>,
    summaries: Outcome<seq<LocalizedEntry>>,
    releases: Outcome<seq<MovieRelease>>,
    credits: Outcome<seq<Credit>>,
    genres: Outcome<seq<string>>,
    artwork: Outcome<seq<ArtworkReference>>,
    ratings: Outcome<seq<Rating>>,
    contentRatings: Outcome<seq<ContentRating>>)
  {
    function Conflicts(): seq<MergeConflict> {
      titles.conflicts + summaries.conflicts
    }

    function Apply(base: Movie): Movie {
      Movie(base.id, titles.value, summaries.value, releases.value, credits.value, genres.value, artwork.value,
            ratings.value, contentRatings.value)
    }
  }

  ghost function Localized(policy: MergePolicy, unicode: Unicode, base: seq<MovieDocument>, path: string,
                           select: Movie -> seq<LocalizedEntry>): Outcome<seq<LocalizedEntry>>
  {
    LocalizedField(FieldObservations(policy, Movies, path, base, select), UNTAGGED, path, unicode)
  }

  ghost function Unique<T>(policy: MergePolicy, base: seq<MovieDocument>, path: string,
                           select: Movie -> seq<T>, clash: (T, T) -> bool): Outcome<seq<T>>
  {
    KeptField(FieldObservations(policy, Movies, path, base, select), clash, path)
  }

  ghost function FieldsOf(policy: MergePolicy, unicode: Unicode, base: seq<MovieDocument>): MovieFields {
    MovieFields(
      Localized(policy, unicode, base, TITLES, Titles),
      Localized(policy, unicode, base, SUMMARIES, Summaries),
      Unique(policy, base, RELEASES, Releases, SameKey(ReleaseKey())),
      Unique(policy, base, CREDITS, Credits, SameCredit(unicode)),
      Unique(policy, base, GENRES, Genres, SameKey(GenreKey(unicode))),
      Unique(policy, base, ARTWORK, Artwork, SameKey(ArtworkKey(unicode))),
      Unique(policy, base, RATINGS, Ratings, SameKey(RatingKey(unicode))),
      Unique(policy, base, CONTENT_RATINGS, ContentRatings, SameKey(ContentRatingKey(unicode))))
  }

  // The provenance the eight fields record, one after another.
  ghost function SectionOf<T>(policy: MergePolicy, base: seq<MovieDocument>, path: string, select: Movie -> seq<T>,
                              clash: (T, T) -> bool): Section
  {
    Section(path, Sources(Kept(FieldObservations(policy, Movies, path, base, select), clash)))
  }

  ghost function SectionAt(policy: MergePolicy, unicode: Unicode, base: seq<MovieDocument>, n: nat): Section {
    match n
    case 0 => SectionOf(policy, base, TITLES, Titles, SameKey(LanguageKey(UNTAGGED)))
    case 1 => SectionOf(policy, base, SUMMARIES, Summaries, SameKey(LanguageKey(UNTAGGED)))
    case 2 => SectionOf(policy, base, RELEASES, Releases, SameKey(ReleaseKey()))
    case 3 => SectionOf(policy, base, CREDITS, Credits, SameCredit(unicode))
    case 4 => SectionOf(policy, base, GENRES, Genres, SameKey(GenreKey(unicode)))
    case 5 => SectionOf(policy, base, ARTWORK, Artwork, SameKey(ArtworkKey(unicode)))
    case 6 => SectionOf(policy, base, RATINGS, Ratings, SameKey(RatingKey(unicode)))
    case _ => SectionOf(policy, base, CONTENT_RATINGS, ContentRatings, SameKey(ContentRatingKey(unicode)))
  }

  ghost function Sections(policy: MergePolicy, unicode: Unicode, base: seq<MovieDocument>): (r: seq<Section>)
    ensures |r| == 8
  {
    seq(8, n requires 0 <= n => SectionAt(policy, unicode, base, n))
  }

  lemma JournalOfFour(s: seq<Section>, k: nat)
    requires k + 4 <= |s|
    ensures Journal(s[..k + 4]) ==
            Journal(s[..k]) + Under(s[k].path, s[k].sources) + Under(s[k + 1].path, s[k + 1].sources) +
            Under(s[k + 2].path, s[k + 2].sources) + Under(s[k + 3].path, s[k + 3].sources)
  {
    PrefixStep(s, k);
    PrefixStep(s, k + 1);
    PrefixStep(s, k + 2);
    PrefixStep(s, k + 3);
  }

  lemma UnrollJournal(s: seq<Section>)
    requires |s| == 8
    ensures Journal(s) == [] + Under(s[0].path, s[0].sources) + Under(s[1].path, s[1].sources) +
            Under(s[2].path, s[2].sources) + Under(s[3].path, s[3].sources) + Under(s[4].path, s[4].sources) +
              Under(s[5].path, s[5].sources) + Under(s[6].path, s[6].sources) + Under(s[7].path, s[7].sources)
  {
    JournalOfFour(s, 0);
    JournalOfFour(s, 4);
    assert s[..0] == [] && s[..8] == s;
  }

  lemma PrefixStep(s: seq<Section>, i: nat)
    requires i < |s|
    ensures Journal(s[..i + 1]) == Journal(s[..i]) + Under(s[i].path, s[i].sources)
  {
    JournalStep(s[..i], s[i]);
    assert s[..i + 1] == s[..i] + [s[i]];
  }

  lemma JournalOfFields(policy: MergePolicy, unicode: Unicode, base: seq<MovieDocument>)
    ensures var f := FieldsOf(policy, unicode, base);
            Journal(Sections(policy, unicode, base)) ==
            [] + f.titles.log + f.summaries.log + f.releases.log + f.credits.log + f.genres.log + f.artwork.log +
              f.ratings.log + f.contentRatings.log
  {
    UnrollJournal(Sections(policy, unicode, base));
  }

  // What a complete movie has.
  function Checklist(m: Movie): seq<bool> {
    [m.titles != [], m.summaries != [], m.releases != [], m.credits != [], m.genres != [], m.artwork != []]
  }

  /** What a merge of sourced movies amounts to. */
  ghost function Merged(policy: MergePolicy, unicode: Unicode, documents: seq<MovieDocument>)
    : MergeResult<Resolved<Movie>>
  {
    if documents == [] then Err(NoDocuments)
    else
      var base := Ordered(policy, Movies, "movie", documents);
      OrderedKeepsLength(policy, Movies, "movie", documents);
      var fields := FieldsOf(policy, unicode, base);
      var merged := fields.Apply(base[0].value);
      Ok(Rated(merged, Grouped(Journal(Sections(policy, unicode, base))), fields.Conflicts(), Checklist(merged)))
  }

  method MergeField<T>(policy: MergePolicy, base: seq<MovieDocument>, path: string, select: Movie -> seq<T>,
                       key: T -> string, provenance: ProvenanceMap) returns (result: seq<T>)
    requires ValidPath(path) && provenance.Valid()
    modifies provenance
    ensures provenance.Valid()
    ensures var field := Unique(policy, base, path, select, SameKey(key));
            result == field.value && provenance.log == old(provenance.log) + field.log
  {
    result := MergeUnique(Project(Ordered(policy, Movies, path, base), select), key, path, provenance);
  }

  // All fields of documents in base order, with their provenance and conflicts.
  method MergeFields(policy: MergePolicy, unicode: Unicode, documents: seq<MovieDocument>)
    returns (merged: Movie, sources: SourceMap, conflicts: seq<MergeConflict>)
    requires documents != []
    ensures var fields := FieldsOf(policy, unicode, documents);
            && merged == fields.Apply(documents[0].value) && conflicts == fields.Conflicts()
            && sources == Grouped(Journal(Sections(policy, unicode, documents)))
  {
    merged := documents[0].value;
    var provenance := new ProvenanceMap();
    ghost var fields := FieldsOf(policy, unicode, documents);
    PathsAreValid();
    var titles, titleConflicts := MergeLocalized(
      Project(Ordered(policy, Movies, TITLES, documents), Titles), TITLES, UNTAGGED, unicode, provenance, []);
    var summaries, allConflicts := MergeLocalized(
      Project(Ordered(policy, Movies, SUMMARIES, documents), Summaries), SUMMARIES, UNTAGGED, unicode, provenance,
        titleConflicts);
    assert [] + fields.titles.conflicts == fields.titles.conflicts;
    merged := merged.(titles := titles, summaries := summaries);
    var releases := MergeField(policy, documents, RELEASES, Releases, ReleaseKey(), provenance);
    merged := merged.(releases := releases);
    var credits := MergeCredits(Project(Ordered(policy, Movies, CREDITS, documents), Credits), CREDITS, unicode,
                                provenance);
    merged := merged.(credits := credits);
    var genres := MergeField(policy, documents, GENRES, Genres, GenreKey(unicode), provenance);
    merged := merged.(genres := genres);
    var artwork := MergeField(policy, documents, ARTWORK, Artwork, ArtworkKey(unicode), provenance);
    merged := merged.(artwork := artwork);
    var ratings := MergeField(policy, documents, RATINGS, Ratings, RatingKey(unicode), provenance);
    merged := merged.(ratings := ratings);
    var contentRatings := MergeField(policy, documents, CONTENT_RATINGS, ContentRatings, ContentRatingKey(unicode),
                                     provenance);
    merged := merged.(contentRatings := contentRatings);
    ghost var journal := Journal(Sections(policy, unicode, documents));
    JournalOfFields(policy, unicode, documents);
    assert provenance.log == journal;
    GroupsIsUnique(provenance.sources, Grouped(journal), journal);
    sources, conflicts := provenance.sources, allConflicts;
  }

  /** Merges movie documents field by field, each in its own precedence order. */
  method Merge(policy: MergePolicy, unicode: Unicode, arrived: seq<MovieDocument>)
    returns (r: MergeResult<Resolved<Movie>>)
    ensures r == Merged(policy, unicode, arrived)
  {
    if arrived == [] { return Err(NoDocuments); }
    var documents := Ordered(policy, Movies, "movie", arrived);
    OrderedKeepsLength(policy, Movies, "movie", arrived);
    var merged, sources, conflicts := MergeFields(policy, unicode, documents);
    var completeness := Share(Checklist(merged));
    var warnings := [];
    if completeness < 1.0 { warnings := [IncompleteMetadata]; }
    return Ok(Resolved(merged, sources, conflicts, completeness, warnings));
  }

  // ----- what the merge guarantees -----

  /** Arrival order does not matter when documents of equal base rank are equal. */
  lemma ArrivalOrderDoesNotMatter(policy: MergePolicy, unicode: Unicode, documents: seq<MovieDocument>,
                                  arrived: seq<MovieDocument>)
    requires multiset(arrived) == multiset(documents)
    requires StableSort.TiesAreEqual(documents, RankOf(policy, Movies, "movie"))
    ensures Merged(policy, unicode, arrived) == Merged(policy, unicode, documents)
  {
    OrderedForgets(policy, Movies, "movie", documents, arrived);
    assert |multiset(arrived)| == |multiset(documents)|;
  }

  // No list-valued field repeats an identity.
  ghost predicate Normal(unicode: Unicode, m: Movie) {
    && NoClash(m.titles, SameKey(LanguageKey(UNTAGGED)))
    && NoClash(m.summaries, SameKey(LanguageKey(UNTAGGED)))
    && NoClash(m.releases, SameKey(ReleaseKey()))
    && NoClash(m.credits, SameCredit(unicode))
    && NoClash(m.genres, SameKey(GenreKey(unicode)))
    && NoClash(m.artwork, SameKey(ArtworkKey(unicode)))
    && NoClash(m.ratings, SameKey(RatingKey(unicode)))
    && NoClash(m.contentRatings, SameKey(ContentRatingKey(unicode)))
  }

  lemma MergedIsNormal(policy: MergePolicy, unicode: Unicode, documents: seq<MovieDocument>)
    requires documents != []
    ensures Normal(unicode, Merged(policy, unicode, documents).value.value)
  {
    var base := Ordered(policy, Movies, "movie", documents);
    KeptDoesNotClash(FieldObservations(policy, Movies, TITLES, base, Titles), SameKey(LanguageKey(UNTAGGED)));
    KeptDoesNotClash(FieldObservations(policy, Movies, SUMMARIES, base, Summaries), SameKey(LanguageKey(UNTAGGED)));
    KeptDoesNotClash(FieldObservations(policy, Movies, RELEASES, base, Releases), SameKey(ReleaseKey()));
    KeptDoesNotClash(FieldObservations(policy, Movies, CREDITS, base, Credits), SameCredit(unicode));
    KeptDoesNotClash(FieldObservations(policy, Movies, GENRES, base, Genres), SameKey(GenreKey(unicode)));
    KeptDoesNotClash(FieldObservations(policy, Movies, ARTWORK, base, Artwork), SameKey(ArtworkKey(unicode)));
    KeptDoesNotClash(FieldObservations(policy, Movies, RATINGS, base, Ratings), SameKey(RatingKey(unicode)));
    KeptDoesNotClash(FieldObservations(policy, Movies, CONTENT_RATINGS, base, ContentRatings),
                     SameKey(ContentRatingKey(unicode)));
  }

  lemma NormalIsFixed(policy: MergePolicy, unicode: Unicode, document: MovieDocument)
    requires Normal(unicode, document.value)
    ensures var r := Merged(policy, unicode, [document]);
            r.Ok? && r.value.value == document.value && r.value.conflicts == []
  {
    OrderedSingle(policy, Movies, "movie", document);
    LocalizedFieldIsNormal(policy, Movies, TITLES, document, Titles, UNTAGGED, unicode);
    LocalizedFieldIsNormal(policy, Movies, SUMMARIES, document, Summaries, UNTAGGED, unicode);
    KeptFieldIsNormal(policy, Movies, RELEASES, document, Releases, SameKey(ReleaseKey()));
    KeptFieldIsNormal(policy, Movies, CREDITS, document, Credits, SameCredit(unicode));
    KeptFieldIsNormal(policy, Movies, GENRES, document, Genres, SameKey(GenreKey(unicode)));
    KeptFieldIsNormal(policy, Movies, ARTWORK, document, Artwork, SameKey(ArtworkKey(unicode)));
    KeptFieldIsNormal(policy, Movies, RATINGS, document, Ratings, SameKey(RatingKey(unicode)));
    KeptFieldIsNormal(policy, Movies, CONTENT_RATINGS, document, ContentRatings, SameKey(ContentRatingKey(unicode)));
  }

  /** Merging a merged movie again, from any source and under any policy, returns it unchanged. */
  lemma MergeIsNormalForm(policy: MergePolicy, again: MergePolicy, unicode: Unicode, documents: seq<MovieDocument>,
                          source: SourceRef)
    requires documents != []
    ensures var movie := Merged(policy, unicode, documents).value.value;
            var r := Merged(again, unicode, [Sourced(movie, source)]);
            r.Ok? && r.value.value == movie && r.value.conflicts == []
  {
    MergedIsNormal(policy, unicode, documents);
    NormalIsFixed(again, unicode, Sourced(Merged(policy, unicode, documents).value.value, source));
  }

  // The length and the first letter after "movie." tell the eight paths apart.
  function PathMark(path: string): int {
    if |path| > 6 then |path| * 0x11_0000 + path[6] as int else 0
  }

  lemma MarksDiffer()
    ensures PathMark(TITLES) == 12 * 0x11_0000 + 't' as int
    ensures PathMark(SUMMARIES) == 15 * 0x11_0000 + 's' as int
    ensures PathMark(RELEASES) == 14 * 0x11_0000 + 'r' as int
    ensures PathMark(CREDITS) == 13 * 0x11_0000 + 'c' as int
    ensures PathMark(GENRES) == 12 * 0x11_0000 + 'g' as int
    ensures PathMark(ARTWORK) == 13 * 0x11_0000 + 'a' as int
    ensures PathMark(RATINGS) == 13 * 0x11_0000 + 'r' as int
    ensures PathMark(CONTENT_RATINGS) == 21 * 0x11_0000 + 'c' as int
  {
  }

  // The i-th recorded source of a field supplied its i-th value.
  ghost predicate FieldAligned<T>(policy: MergePolicy, base: seq<MovieDocument>, provenance: SourceMap, path: string,
                                  values: seq<T>, select: Movie -> seq<T>, clash: (T, T) -> bool)
  {
    Aligned(values, Lookup(provenance, path), FieldObservations(policy, Movies, path, base, select), clash)
  }

  ghost predicate DistinctPaths(sections: seq<Section>) {
    forall i, j :: 0 <= i < |sections| && 0 <= j < |sections| && i != j ==>
      PathMark(sections[i].path) != PathMark(sections[j].path)
  }

  lemma SectionsHaveDistinctPaths(policy: MergePolicy, unicode: Unicode, base: seq<MovieDocument>)
    ensures DistinctPaths(Sections(policy, unicode, base))
  {
    forall i, j | 0 <= i < 8 && 0 <= j < 8 && i != j
      ensures PathMark(Sections(policy, unicode, base)[i].path) != PathMark(Sections(policy, unicode, base)[j].path) {
      SectionMark(policy, unicode, base, i);
      SectionMark(policy, unicode, base, j);
    }
  }

  function MarkAt(n: nat): int {
    match n
    case 0 => 12 * 0x11_0000 + 't' as int
    case 1 => 15 * 0x11_0000 + 's' as int
    case 2 => 14 * 0x11_0000 + 'r' as int
    case 3 => 13 * 0x11_0000 + 'c' as int
    case 4 => 12 * 0x11_0000 + 'g' as int
    case 5 => 13 * 0x11_0000 + 'a' as int
    case 6 => 13 * 0x11_0000 + 'r' as int
    case _ => 21 * 0x11_0000 + 'c' as int
  }

  lemma SectionMark(policy: MergePolicy, unicode: Unicode, base: seq<MovieDocument>, n: nat)
    requires n < 8
    ensures PathMark(Sections(policy, unicode, base)[n].path) == MarkAt(n)
  {
    MarksDiffer();
  }

  lemma FieldIsAligned<T>(policy: MergePolicy, base: seq<MovieDocument>, sections: seq<Section>, n: nat, path: string,
                          select: Movie -> seq<T>, clash: (T, T) -> bool)
    requires n < |sections| && sections[n] == SectionOf(policy, base, path, select, clash)
    requires DistinctPaths(sections)
    ensures FieldAligned(policy, base, Grouped(Journal(sections)), path,
                         Unique(policy, base, path, select, clash).value,
                         select, clash)
  {
    SourcesOfSection(sections, n);
    LookupInGrouped(Journal(sections), path);
    KeptIsAligned(FieldObservations(policy, Movies, path, base, select), clash);
  }

  ghost predicate TextAligned(policy: MergePolicy, base: seq<MovieDocument>, provenance: SourceMap, movie: Movie) {
    && FieldAligned(policy, base, provenance, TITLES, movie.titles, Titles, SameKey(LanguageKey(UNTAGGED)))
    && FieldAligned(policy, base, provenance, SUMMARIES, movie.summaries, Summaries, SameKey(LanguageKey(UNTAGGED)))
  }

  ghost predicate WorkAligned(policy: MergePolicy, unicode: Unicode, base: seq<MovieDocument>, provenance: SourceMap,
                              movie: Movie)
  {
    && FieldAligned(policy, base, provenance, RELEASES, movie.releases, Releases, SameKey(ReleaseKey()))
    && FieldAligned(policy, base, provenance, CREDITS, movie.credits, Credits, SameCredit(unicode))
  }

  ghost predicate StyleAligned(policy: MergePolicy, unicode: Unicode, base: seq<MovieDocument>, provenance: SourceMap,
                               movie: Movie)
  {
    && FieldAligned(policy, base, provenance, GENRES, movie.genres, Genres, SameKey(GenreKey(unicode)))
    && FieldAligned(policy, base, provenance, ARTWORK, movie.artwork, Artwork, SameKey(ArtworkKey(unicode)))
  }

  ghost predicate RatingAligned(policy: MergePolicy, unicode: Unicode, base: seq<MovieDocument>, provenance: SourceMap,
                                movie: Movie)
  {
    && FieldAligned(policy, base, provenance, RATINGS, movie.ratings, Ratings, SameKey(RatingKey(unicode)))
    && FieldAligned(policy, base, provenance, CONTENT_RATINGS, movie.contentRatings, ContentRatings,
                    SameKey(ContentRatingKey(unicode)))
  }

  lemma TextIsAligned(policy: MergePolicy, unicode: Unicode, base: seq<MovieDocument>, movie: Movie)
    requires base != []
    ensures TextAligned(policy, base, Grouped(Journal(Sections(policy, unicode, base))),
                        FieldsOf(policy, unicode, base).Apply(movie))
  {
    var sections := Sections(policy, unicode, base);
    SectionsHaveDistinctPaths(policy, unicode, base);
    FieldIsAligned(policy, base, sections, 0, TITLES, Titles, SameKey(LanguageKey(UNTAGGED)));
    FieldIsAligned(policy, base, sections, 1, SUMMARIES, Summaries, SameKey(LanguageKey(UNTAGGED)));
  }

  lemma WorkIsAligned(policy: MergePolicy, unicode: Unicode, base: seq<MovieDocument>, movie: Movie)
    requires base != []
    ensures WorkAligned(policy, unicode, base, Grouped(Journal(Sections(policy, unicode, base))),
                        FieldsOf(policy, unicode, base).Apply(movie))
  {
    var sections := Sections(policy, unicode, base);
    SectionsHaveDistinctPaths(policy, unicode, base);
    FieldIsAligned(policy, base, sections, 2, RELEASES, Releases, SameKey(ReleaseKey()));
    FieldIsAligned(policy, base, sections, 3, CREDITS, Credits, SameCredit(unicode));
  }

  lemma StyleIsAligned(policy: MergePolicy, unicode: Unicode, base: seq<MovieDocument>, movie: Movie)
    requires base != []
    ensures StyleAligned(policy, unicode, base, Grouped(Journal(Sections(policy, unicode, base))),
                         FieldsOf(policy, unicode, base).Apply(movie))
  {
    var sections := Sections(policy, unicode, base);
    SectionsHaveDistinctPaths(policy, unicode, base);
    FieldIsAligned(policy, base, sections, 4, GENRES, Genres, SameKey(GenreKey(unicode)));
    FieldIsAligned(policy, base, sections, 5, ARTWORK, Artwork, SameKey(ArtworkKey(unicode)));
  }

  lemma RatingsAreAligned(policy: MergePolicy, unicode: Unicode, base: seq<MovieDocument>, movie: Movie)
    requires base != []
    ensures FieldAligned(policy, base, Grouped(Journal(Sections(policy, unicode, base))), RATINGS,
                         FieldsOf(policy, unicode, base).Apply(movie).ratings, Ratings, SameKey(RatingKey(unicode)))
  {
    SectionsHaveDistinctPaths(policy, unicode, base);
    FieldIsAligned(policy, base, Sections(policy, unicode, base), 6, RATINGS, Ratings, SameKey(RatingKey(unicode)));
  }

  lemma ContentRatingsAreAligned(policy: MergePolicy, unicode: Unicode, base: seq<MovieDocument>, movie: Movie)
    requires base != []
    ensures FieldAligned(policy, base, Grouped(Journal(Sections(policy, unicode, base))), CONTENT_RATINGS,
                         FieldsOf(policy, unicode, base).Apply(movie).contentRatings, ContentRatings,
                         SameKey(ContentRatingKey(unicode)))
  {
    SectionsHaveDistinctPaths(policy, unicode, base);
    FieldIsAligned(policy, base, Sections(policy, unicode, base), 7, CONTENT_RATINGS, ContentRatings,
                   SameKey(ContentRatingKey(unicode)));
  }

  lemma RatingIsAligned(policy: MergePolicy, unicode: Unicode, base: seq<MovieDocument>, movie: Movie)
    requires base != []
    ensures RatingAligned(policy, unicode, base, Grouped(Journal(Sections(policy, unicode, base))),
                          FieldsOf(policy, unicode, base).Apply(movie))
  {
    RatingsAreAligned(policy, unicode, base, movie);
    ContentRatingsAreAligned(policy, unicode, base, movie);
  }

  /** Every field of a merged movie and its recorded sources are the retained observations, in step. */
  lemma ProvenanceIsAligned(policy: MergePolicy, unicode: Unicode, documents: seq<MovieDocument>)
    requires documents != []
    ensures var base := Ordered(policy, Movies, "movie", documents);
            var r := Merged(policy, unicode, documents).value;
            && TextAligned(policy, base, r.provenance, r.value)
            && WorkAligned(policy, unicode, base, r.provenance, r.value)
            && StyleAligned(policy, unicode, base, r.provenance, r.value)
            && RatingAligned(policy, unicode, base, r.provenance, r.value)
  {
    var base := Ordered(policy, Movies, "movie", documents);
    OrderedKeepsLength(policy, Movies, "movie", documents);
    TextIsAligned(policy, unicode, base, base[0].value);
    WorkIsAligned(policy, unicode, base, base[0].value);
    StyleIsAligned(policy, unicode, base, base[0].value);
    RatingIsAligned(policy, unicode, base, base[0].value);
  }

  /** The conflicts are one for each title, then one for each summary, that disagrees with the first of its language,
      naming the winner and the loser; nothing else is reported. */
  lemma ConflictsAreDisagreements(policy: MergePolicy, unicode: Unicode, documents: seq<MovieDocument>)
    returns (inTitles: seq<MergeConflict>, inSummaries: seq<MergeConflict>)
    requires documents != []
    ensures Merged(policy, unicode, documents).value.conflicts == inTitles + inSummaries
    ensures var base, key := Ordered(policy, Movies, "movie", documents), LanguageKey(UNTAGGED);
            && OnePerLoser(inTitles, FieldObservations(policy, Movies, TITLES, base, Titles), key, unicode.Normalize,
                           TITLES)
            && OnePerLoser(inSummaries, FieldObservations(policy, Movies, SUMMARIES, base, Summaries), key,
                           unicode.Normalize, SUMMARIES)
  {
    var base, key := Ordered(policy, Movies, "movie", documents), LanguageKey(UNTAGGED);
    var titles := FieldObservations(policy, Movies, TITLES, base, Titles);
    var summaries := FieldObservations(policy, Movies, SUMMARIES, base, Summaries);
    inTitles := Disagreements(titles, key, unicode.Normalize, TITLES, |titles|);
    inSummaries := Disagreements(summaries, key, unicode.Normalize, SUMMARIES, |summaries|);
    DisagreementsIff(titles, key, unicode.Normalize, TITLES, inTitles);
    DisagreementsIff(summaries, key, unicode.Normalize, SUMMARIES, inSummaries);
  }
}
