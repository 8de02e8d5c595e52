/** The movie merge, said of the documents as they arrive: which values every field holds and where they come from,
    which texts are reported, and what makes the movie complete. */
module MovieAnswers {
  import opened Completeness
  import opened FieldAnswers
  import opened Media
  import opened MediaIdentities
  import opened MergeLoops
  import opened MergePolicies
  import opened MovieMerge
  import opened Provenance
  import opened Results
  import opened Retention

  // ----- what counts as one value -----

  // The language of an entry: its canonical tag, or "<untagged>".
  ghost function Language(): LocalizedEntry -> string {
    (e: LocalizedEntry) => match e case Tagged(tag, _) => tag.normalized case Untagged(_) => "<untagged>"
  }

  ghost function SameLanguage(): (LocalizedEntry, LocalizedEntry) -> bool {
    (a: LocalizedEntry, b: LocalizedEntry) => Language()(a) == Language()(b)
  }

  ghost function SameRelease(): (MovieRelease, MovieRelease) -> bool {
    (a: MovieRelease, b: MovieRelease) => a.id == b.id
  }

  ghost function SameGenre(unicode: Unicode): (string, string) -> bool {
    (a: string, b: string) => unicode.Normalize(a) == unicode.Normalize(b)
  }

  ghost function SameSystem(unicode: Unicode): (Rating, Rating) -> bool {
    (a: Rating, b: Rating) => unicode.Normalize(a.system) == unicode.Normalize(b.system)
  }

  ghost function SamePrintedRating(unicode: Unicode): (ContentRating, ContentRating) -> bool {
    (a: ContentRating, b: ContentRating) =>
      unicode.Normalize(a.system) + ":" + unicode.Normalize(a.value) ==
      unicode.Normalize(b.system) + ":" + unicode.Normalize(b.value)
  }

  lemma LanguagesAreKeys()
    ensures SameTexts(LanguageKey(UNTAGGED), Language())
    ensures SameRelation(SameKey(LanguageKey(UNTAGGED)), SameLanguage())
  {
    forall e ensures LanguageKey(UNTAGGED)(e) == Language()(e) {}
    forall a, b ensures SameKey(LanguageKey(UNTAGGED))(a, b) <==> SameLanguage()(a, b) {
      assert LanguageKey(UNTAGGED)(a) == Language()(a) && LanguageKey(UNTAGGED)(b) == Language()(b);
    }
  }

  lemma CreditsClash(unicode: Unicode)
    ensures SameRelation(SameCredit(unicode), SameContribution(unicode))
  {
    forall a, b ensures SameCredit(unicode)(a, b) <==> SameContribution(unicode)(a, b) {
      CreditsClashIff(unicode, a, b);
    }
  }

  lemma ArtworkClashes(unicode: Unicode)
    ensures SameRelation(SameKey(ArtworkKey(unicode)), SameArtwork(unicode))
  {
    forall a, b ensures SameKey(ArtworkKey(unicode))(a, b) <==> SameArtwork(unicode)(a, b) {
      ArtworkClashesIff(unicode, a, b);
    }
  }

  // ----- the eight fields -----

  lemma TitlesFrom(policy: MergePolicy, first: string, path: string, documents: seq<MovieDocument>,
                   values: seq<LocalizedEntry>, sources: seq<SourceRef>)
    requires Aligned(values, sources,
                     FieldObservations(policy, Movies, path, Ordered(policy, Movies, first, documents), Titles),
                     SameKey(LanguageKey(UNTAGGED)))
    ensures Answers(policy, Movies, [first, path], documents, (m: Movie) => m.titles, SameLanguage(),
                    values, sources)
  {
    LanguagesAreKeys();
    AlignedIsAnswer(policy, Movies, first, path, documents, Titles, SameKey(LanguageKey(UNTAGGED)),
                    (m: Movie) => m.titles, SameLanguage(), values, sources);
  }

  lemma SummariesFrom(policy: MergePolicy, first: string, path: string, documents: seq<MovieDocument>,
                      values: seq<LocalizedEntry>, sources: seq<SourceRef>)
    requires Aligned(values, sources,
                     FieldObservations(policy, Movies, path, Ordered(policy, Movies, first, documents), Summaries),
                     SameKey(LanguageKey(UNTAGGED)))
    ensures Answers(policy, Movies, [first, path], documents, (m: Movie) => m.summaries, SameLanguage(),
                    values, sources)
  {
    LanguagesAreKeys();
    AlignedIsAnswer(policy, Movies, first, path, documents, Summaries, SameKey(LanguageKey(UNTAGGED)),
                    (m: Movie) => m.summaries, SameLanguage(), values, sources);
  }

  lemma ReleasesFrom(policy: MergePolicy, first: string, path: string, documents: seq<MovieDocument>,
                     values: seq<MovieRelease>, sources: seq<SourceRef>)
    requires Aligned(values, sources,
                     FieldObservations(policy, Movies, path, Ordered(policy, Movies, first, documents), Releases),
                     SameKey(ReleaseKey()))
    ensures Answers(policy, Movies, [first, path], documents, (m: Movie) => m.releases, SameRelease(),
                    values, sources)
  {
    AlignedIsAnswer(policy, Movies, first, path, documents, Releases, SameKey(ReleaseKey()),
                    (m: Movie) => m.releases, SameRelease(), values, sources);
  }

  lemma CreditsFrom(policy: MergePolicy, unicode: Unicode, first: string, path: string, documents: seq<MovieDocument>,
                    values: seq<Credit>, sources: seq<SourceRef>)
    requires Aligned(values, sources,
                     FieldObservations(policy, Movies, path, Ordered(policy, Movies, first, documents), Credits),
                     SameCredit(unicode))
    ensures Answers(policy, Movies, [first, path], documents, (m: Movie) => m.credits, SameContribution(unicode),
                    values, sources)
  {
    CreditsClash(unicode);
    AlignedIsAnswer(policy, Movies, first, path, documents, Credits, SameCredit(unicode),
                    (m: Movie) => m.credits, SameContribution(unicode), values, sources);
  }

  lemma GenresFrom(policy: MergePolicy, unicode: Unicode, first: string, path: string, documents: seq<MovieDocument>,
                   values: seq<string>, sources: seq<SourceRef>)
    requires Aligned(values, sources,
                     FieldObservations(policy, Movies, path, Ordered(policy, Movies, first, documents), Genres),
                     SameKey(GenreKey(unicode)))
    ensures Answers(policy, Movies, [first, path], documents, (m: Movie) => m.genres, SameGenre(unicode),
                    values, sources)
  {
    AlignedIsAnswer(policy, Movies, first, path, documents, Genres, SameKey(GenreKey(unicode)),
                    (m: Movie) => m.genres, SameGenre(unicode), values, sources);
  }

  lemma ArtworkFrom(policy: MergePolicy, unicode: Unicode, first: string, path: string, documents: seq<MovieDocument>,
                    values: seq<ArtworkReference>, sources: seq<SourceRef>)
    requires Aligned(values, sources,
                     FieldObservations(policy, Movies, path, Ordered(policy, Movies, first, documents), Artwork),
                     SameKey(ArtworkKey(unicode)))
    ensures Answers(policy, Movies, [first, path], documents, (m: Movie) => m.artwork, SameArtwork(unicode),
                    values, sources)
  {
    ArtworkClashes(unicode);
    AlignedIsAnswer(policy, Movies, first, path, documents, Artwork, SameKey(ArtworkKey(unicode)),
                    (m: Movie) => m.artwork, SameArtwork(unicode), values, sources);
  }

  lemma RatingsFrom(policy: MergePolicy, unicode: Unicode, first: string, path: string, documents: seq<MovieDocument>,
                    values: seq<Rating>, sources: seq<SourceRef>)
    requires Aligned(values, sources,
                     FieldObservations(policy, Movies, path, Ordered(policy, Movies, first, documents), Ratings),
                     SameKey(RatingKey(unicode)))
    ensures Answers(policy, Movies, [first, path], documents, (m: Movie) => m.ratings, SameSystem(unicode),
                    values, sources)
  {
    AlignedIsAnswer(policy, Movies, first, path, documents, Ratings, SameKey(RatingKey(unicode)),
                    (m: Movie) => m.ratings, SameSystem(unicode), values, sources);
  }

  lemma ContentRatingsFrom(policy: MergePolicy, unicode: Unicode, first: string, path: string,
                           documents: seq<MovieDocument>,
                           values: seq<ContentRating>, sources: seq<SourceRef>)
    requires Aligned(values, sources,
                     FieldObservations(policy, Movies, path, Ordered(policy, Movies, first, documents), ContentRatings),
                     SameKey(ContentRatingKey(unicode)))
    ensures Answers(policy, Movies, [first, path], documents, (m: Movie) => m.contentRatings,
                    SamePrintedRating(unicode),
                    values, sources)
  {
    AlignedIsAnswer(policy, Movies, first, path, documents, ContentRatings, SameKey(ContentRatingKey(unicode)),
                    (m: Movie) => m.contentRatings, SamePrintedRating(unicode), values, sources);
  }

  /** Titles and summaries hold the first text of every language. */
  lemma TextsAreAnswered(policy: MergePolicy, unicode: Unicode, documents: seq<MovieDocument>)
    requires documents != []
    ensures var r := Merged(policy, unicode, documents).value;
            && Answers(policy, Movies, ["movie", "movie.titles"], documents, (m: Movie) => m.titles,
                       SameLanguage(), r.value.titles, Lookup(r.provenance, "movie.titles"))
            && Answers(policy, Movies, ["movie", "movie.summaries"], documents, (m: Movie) => m.summaries,
                       SameLanguage(), r.value.summaries, Lookup(r.provenance, "movie.summaries"))
  {
    var r := Merged(policy, unicode, documents).value;
    ProvenanceIsAligned(policy, unicode, documents);
    TitlesFrom(policy, "movie", TITLES, documents, r.value.titles, Lookup(r.provenance, TITLES));
    SummariesFrom(policy, "movie", SUMMARIES, documents, r.value.summaries, Lookup(r.provenance, SUMMARIES));
  }

  /** Releases are told apart by their identifiers, credits by person, or by name and role. */
  lemma WorksAreAnswered(policy: MergePolicy, unicode: Unicode, documents: seq<MovieDocument>)
    requires documents != []
    ensures var r := Merged(policy, unicode, documents).value;
            && Answers(policy, Movies, ["movie", "movie.releases"], documents, (m: Movie) => m.releases,
                       SameRelease(), r.value.releases, Lookup(r.provenance, "movie.releases"))
            && Answers(policy, Movies, ["movie", "movie.credits"], documents, (m: Movie) => m.credits,
                       SameContribution(unicode), r.value.credits, Lookup(r.provenance, "movie.credits"))
  {
    var r := Merged(policy, unicode, documents).value;
    ProvenanceIsAligned(policy, unicode, documents);
    ReleasesFrom(policy, "movie", RELEASES, documents, r.value.releases, Lookup(r.provenance, RELEASES));
    CreditsFrom(policy, unicode, "movie", CREDITS, documents, r.value.credits, Lookup(r.provenance, CREDITS));
  }

  /** Genres are told apart by their normalized names, artwork by identifier, or by kind and place. */
  lemma StylesAreAnswered(policy: MergePolicy, unicode: Unicode, documents: seq<MovieDocument>)
    requires documents != []
    ensures var r := Merged(policy, unicode, documents).value;
            && Answers(policy, Movies, ["movie", "movie.genres"], documents, (m: Movie) => m.genres,
                       SameGenre(unicode), r.value.genres, Lookup(r.provenance, "movie.genres"))
            && Answers(policy, Movies, ["movie", "movie.artwork"], documents, (m: Movie) => m.artwork,
                       SameArtwork(unicode), r.value.artwork, Lookup(r.provenance, "movie.artwork"))
  {
    var r := Merged(policy, unicode, documents).value;
    ProvenanceIsAligned(policy, unicode, documents);
    GenresFrom(policy, unicode, "movie", GENRES, documents, r.value.genres, Lookup(r.provenance, GENRES));
    ArtworkFrom(policy, unicode, "movie", ARTWORK, documents, r.value.artwork, Lookup(r.provenance, ARTWORK));
  }

  /** Ratings are told apart by their systems, content ratings by system and value. */
  lemma RatingsAreAnswered(policy: MergePolicy, unicode: Unicode, documents: seq<MovieDocument>)
    requires documents != []
    ensures var r := Merged(policy, unicode, documents).value;
            && Answers(policy, Movies, ["movie", "movie.ratings"], documents, (m: Movie) => m.ratings,
                       SameSystem(unicode), r.value.ratings, Lookup(r.provenance, "movie.ratings"))
            && Answers(policy, Movies, ["movie", "movie.content_ratings"], documents, (m: Movie) => m.contentRatings,
                       SamePrintedRating(unicode), r.value.contentRatings,
                       Lookup(r.provenance, "movie.content_ratings"))
  {
    var r := Merged(policy, unicode, documents).value;
    ProvenanceIsAligned(policy, unicode, documents);
    RatingsFrom(policy, unicode, "movie", RATINGS, documents, r.value.ratings, Lookup(r.provenance, RATINGS));
    ContentRatingsFrom(policy, unicode, "movie", CONTENT_RATINGS, documents, r.value.contentRatings,
                       Lookup(r.provenance, CONTENT_RATINGS));
  }

  // ----- what else a merge returns -----

  /** The movie itself, that is its identifier, comes from the document that speaks first. */
  lemma BaseSpeaksFirst(policy: MergePolicy, unicode: Unicode, documents: seq<MovieDocument>) returns (k: nat)
    requires documents != []
    ensures Merged(policy, unicode, documents).Ok?
    ensures SpeaksFirst(policy, Movies, ["movie"], documents, (m: Movie) => true, k)
    ensures Merged(policy, unicode, documents).value.value.id == documents[k].value.id
  {
    WholeParts(policy, Movies, documents, "movie", "movie");
    OrderedKeepsLength(policy, Movies, "movie", documents);
    k := HeadSpeaksFirst(policy, Movies, ["movie"], documents, Whole(), (m: Movie) => true);
  }

  /** Each title, and then each summary, that disagrees with the first of its language is reported, with both
      providers. */
  lemma ConflictsAreReported(policy: MergePolicy, unicode: Unicode, documents: seq<MovieDocument>)
    returns (inTitles: seq<MergeConflict>, inSummaries: seq<MergeConflict>)
    requires documents != []
    ensures Merged(policy, unicode, documents).value.conflicts == inTitles + inSummaries
    ensures Reports(policy, Movies, ["movie", "movie.titles"], documents, (m: Movie) => m.titles, Language(),
                    unicode.Normalize, "movie.titles", inTitles)
    ensures Reports(policy, Movies, ["movie", "movie.summaries"], documents, (m: Movie) => m.summaries, Language(),
                    unicode.Normalize, "movie.summaries", inSummaries)
  {
    inTitles, inSummaries := ConflictsAreDisagreements(policy, unicode, documents);
    LanguagesAreKeys();
    LosersOf(policy, unicode, "movie", TITLES, documents, Titles, (m: Movie) => m.titles, inTitles);
    LosersOf(policy, unicode, "movie", SUMMARIES, documents, Summaries, (m: Movie) => m.summaries, inSummaries);
  }

  lemma LosersOf(policy: MergePolicy, unicode: Unicode, first: string, path: string, documents: seq<MovieDocument>,
                 pick: Movie -> seq<LocalizedEntry>, select: Movie -> seq<LocalizedEntry>,
                 conflicts: seq<MergeConflict>)
    requires (forall m :: pick(m) == select(m)) && SameTexts(LanguageKey(UNTAGGED), Language())
    requires OnePerLoser(conflicts,
                         FieldObservations(policy, Movies, path, Ordered(policy, Movies, first, documents), pick),
                         LanguageKey(UNTAGGED), unicode.Normalize, path)
    ensures Reports(policy, Movies, [first, path], documents, select, Language(), unicode.Normalize, path, conflicts)
  {
    WholeParts(policy, Movies, documents, first, path);
    LosersAreReported(policy, Movies, [first, path], documents, Whole(), pick, LanguageKey(UNTAGGED), select,
                      Language(), unicode.Normalize, path, conflicts);
  }

  /** The completeness is the share of six fields that are not empty; anything missing is warned about. */
  lemma CompletenessCounts(policy: MergePolicy, unicode: Unicode, documents: seq<MovieDocument>)
    requires documents != []
    ensures var r := Merged(policy, unicode, documents).value;
            && r.completeness == (Count(r.value.titles != []) + Count(r.value.summaries != []) +
                                  Count(r.value.releases != []) + Count(r.value.credits != []) +
                                  Count(r.value.genres != []) + Count(r.value.artwork != [])) as real / 6.0
            && (r.warnings == [] <==>
                && r.value.titles != [] && r.value.summaries != [] && r.value.releases != []
                && r.value.credits != [] && r.value.genres != [] && r.value.artwork != [])
            && (r.warnings != [] ==> r.warnings == [IncompleteMetadata])
  {
    MergedIsRated(policy, unicode, documents);
    ChecklistCounts(Merged(policy, unicode, documents).value.value);
  }

  lemma MergedIsRated(policy: MergePolicy, unicode: Unicode, documents: seq<MovieDocument>)
    requires documents != []
    ensures var r := Merged(policy, unicode, documents).value;
            r.completeness == Share(Checklist(r.value)) && r.warnings == WarningsFor(r.completeness)
  {
  }

  lemma ChecklistCounts(m: Movie)
    ensures Share(Checklist(m)) ==
            (Count(m.titles != []) + Count(m.summaries != []) + Count(m.releases != []) + Count(m.credits != []) +
             Count(m.genres != []) + Count(m.artwork != [])) as real / 6.0
    ensures WarningsFor(Share(Checklist(m))) == [] <==>
            && m.titles != [] && m.summaries != [] && m.releases != []
            && m.credits != [] && m.genres != [] && m.artwork != []
  {
    var list := Checklist(m);
    WarnsIffIncomplete(list);
    PresentOfSix(list);
  }

  lemma PresentOfSix(list: seq<bool>)
    requires |list| == 6
    ensures Present(list) == Count(list[0]) + Count(list[1]) + Count(list[2]) + Count(list[3]) + Count(list[4]) +
                             Count(list[5])
  {
    assert list[0..] == list && list[6..] == [];
    PresentFrom(list, 0);
    PresentFrom(list, 1);
    PresentFrom(list, 2);
    PresentFrom(list, 3);
    PresentFrom(list, 4);
    PresentFrom(list, 5);
  }
}
