/** Exactly when the arrival order of movie documents does not matter. A tie on the base path need not show: every field
    is sorted again, and only the first document of all supplies the identity. */
module MovieOrder {
  import opened ArrivalOrder
  import opened Media
  import opened MergeLoops
  import opened MergePolicies
  import opened MovieMerge
  import opened Options
  import opened Retention
  import StableSort

  const FIELDS: seq<string> := [TITLES, SUMMARIES, RELEASES, CREDITS, GENRES, ARTWORK, RATINGS, CONTENT_RATINGS]

  function BaseRank(policy: MergePolicy, provider: ProviderId): nat { policy.Rank(Movies, "movie", provider) }

  // Some provider comes before this one.
  ghost predicate IsPreceded(policy: MergePolicy, providers: seq<ProviderId>, i: nat)
    requires i < |providers|
  {
    exists m :: 0 <= m < |providers| && BaseRank(policy, providers[m]) < BaseRank(policy, providers[i])
  }

  // Two providers share no rank in any field.
  ghost predicate FieldsDiffer(policy: MergePolicy, p: ProviderId, q: ProviderId) {
    forall f :: 0 <= f < |FIELDS| ==> policy.Rank(Movies, FIELDS[f], p) != policy.Rank(Movies, FIELDS[f], q)
  }

  // Providers that tie on the base path come after another one, and tie in no field.
  ghost predicate TiesAreHidden(policy: MergePolicy, providers: seq<ProviderId>) {
    forall i, j :: 0 <= i < j < |providers| && BaseRank(policy, providers[i]) == BaseRank(policy, providers[j]) ==>
      IsPreceded(policy, providers, i) && FieldsDiffer(policy, providers[i], providers[j])
  }

  // Whatever documents the providers send, every arrival order gives the same merge.
  ghost predicate OrderNeverMatters(policy: MergePolicy, unicode: Unicode, providers: seq<ProviderId>) {
    forall documents, arrived :: From(documents, providers) && multiset(arrived) == multiset(documents) ==>
      Merged(policy, unicode, arrived) == Merged(policy, unicode, documents)
  }

  // ----- hidden ties never show -----

  function Base(policy: MergePolicy, documents: seq<MovieDocument>): seq<MovieDocument> {
    Ordered(policy, Movies, "movie", documents)
  }

  lemma PlaceOf(documents: seq<MovieDocument>, providers: seq<ProviderId>, x: MovieDocument) returns (i: nat)
    requires From(documents, providers) && x in documents
    ensures i < |documents| && documents[i] == x && x.source.provider == providers[i]
  {
    i :| i < |documents| && documents[i] == x;
  }

  lemma TiesInBoth(policy: MergePolicy, providers: seq<ProviderId>, documents: seq<MovieDocument>, f: nat,
                   x: MovieDocument, y: MovieDocument)
    requires TiesAreHidden(policy, providers) && From(documents, providers) && f < |FIELDS|
    requires x in documents && y in documents
    requires RankOf(policy, Movies, "movie")(x) == RankOf(policy, Movies, "movie")(y)
    requires RankOf(policy, Movies, FIELDS[f])(x) == RankOf(policy, Movies, FIELDS[f])(y)
    ensures x == y
  {
    var i := PlaceOf(documents, providers, x);
    var j := PlaceOf(documents, providers, y);
    if i != j { assert false; }
  }

  lemma FieldOrderForgets(policy: MergePolicy, providers: seq<ProviderId>, documents: seq<MovieDocument>,
                          arrived: seq<MovieDocument>, f: nat)
    requires TiesAreHidden(policy, providers) && From(documents, providers) && f < |FIELDS|
    requires multiset(arrived) == multiset(documents)
    ensures Ordered(policy, Movies, FIELDS[f], Base(policy, arrived)) ==
            Ordered(policy, Movies, FIELDS[f], Base(policy, documents))
  {
    var first, second := RankOf<Movie>(policy, Movies, "movie"), RankOf<Movie>(policy, Movies, FIELDS[f]);
    forall x, y | x in documents && y in documents && first(x) == first(y) && second(x) == second(y) ensures x == y {
      TiesInBoth(policy, providers, documents, f, x, y);
    }
    StableSort.TwiceSorted(documents, arrived, first, second);
  }

  lemma BaseHeadIsLeast(policy: MergePolicy, documents: seq<MovieDocument>, x: MovieDocument)
    requires x in documents
    ensures Base(policy, documents) != [] && Base(policy, documents)[0] in documents
    ensures RankOf(policy, Movies, "movie")(Base(policy, documents)[0]) <= RankOf(policy, Movies, "movie")(x)
  {
    var rank := RankOf<Movie>(policy, Movies, "movie");
    StableSort.SortByKeyIsStable(documents, rank);
    SortedMembers(documents, rank, x);
    var n :| 0 <= n < |Base(policy, documents)| && Base(policy, documents)[n] == x;
    SortedMembers(documents, rank, Base(policy, documents)[0]);
  }

  lemma HeadForgets(policy: MergePolicy, providers: seq<ProviderId>, documents: seq<MovieDocument>,
                    arrived: seq<MovieDocument>)
    requires TiesAreHidden(policy, providers) && From(documents, providers) && documents != []
    requires multiset(arrived) == multiset(documents)
    ensures Base(policy, arrived) != [] && Base(policy, documents) != []
    ensures Base(policy, arrived)[0] == Base(policy, documents)[0]
  {
    forall d ensures d in arrived <==> d in documents { assert d in multiset(arrived) <==> d in multiset(documents); }
    BaseHeadIsLeast(policy, documents, documents[0]);
    BaseHeadIsLeast(policy, arrived, documents[0]);
    var x, y := Base(policy, documents)[0], Base(policy, arrived)[0];
    BaseHeadIsLeast(policy, documents, y);
    BaseHeadIsLeast(policy, arrived, x);
    var i := PlaceOf(documents, providers, x);
    var j := PlaceOf(documents, providers, y);
    if i != j {
      var a := if i < j then i else j;
      assert IsPreceded(policy, providers, a);
      var m :| 0 <= m < |providers| && BaseRank(policy, providers[m]) < BaseRank(policy, providers[a]);
      BaseHeadIsLeast(policy, documents, documents[m]);
    }
  }

  ghost predicate SameOrders(policy: MergePolicy, a: seq<MovieDocument>, b: seq<MovieDocument>) {
    forall f :: 0 <= f < |FIELDS| ==> Ordered(policy, Movies, FIELDS[f], a) == Ordered(policy, Movies, FIELDS[f], b)
  }

  lemma OrderOf(policy: MergePolicy, a: seq<MovieDocument>, b: seq<MovieDocument>, f: nat, path: string)
    requires SameOrders(policy, a, b) && f < |FIELDS| && FIELDS[f] == path
    ensures Ordered(policy, Movies, path, a) == Ordered(policy, Movies, path, b)
  {
  }

  lemma SameObservations<T>(policy: MergePolicy, a: seq<MovieDocument>, b: seq<MovieDocument>, f: nat, path: string,
                            select: Movie -> seq<T>)
    requires SameOrders(policy, a, b) && f < |FIELDS| && FIELDS[f] == path
    ensures FieldObservations(policy, Movies, path, a, select) == FieldObservations(policy, Movies, path, b, select)
  {
    OrderOf(policy, a, b, f, path);
  }

  lemma SameTexts(policy: MergePolicy, unicode: Unicode, a: seq<MovieDocument>, b: seq<MovieDocument>, f: nat,
                  path: string, select: Movie -> seq<LocalizedEntry>)
    requires SameOrders(policy, a, b) && f < |FIELDS| && FIELDS[f] == path
    ensures Localized(policy, unicode, a, path, select) == Localized(policy, unicode, b, path, select)
  {
    SameObservations(policy, a, b, f, path, select);
  }

  lemma SameUnique<T>(policy: MergePolicy, a: seq<MovieDocument>, b: seq<MovieDocument>, f: nat, path: string,
                      select: Movie -> seq<T>, clash: (T, T) -> bool)
    requires SameOrders(policy, a, b) && f < |FIELDS| && FIELDS[f] == path
    ensures Unique(policy, a, path, select, clash) == Unique(policy, b, path, select, clash)
  {
    SameObservations(policy, a, b, f, path, select);
  }

  lemma SameTextFields(policy: MergePolicy, unicode: Unicode, a: seq<MovieDocument>, b: seq<MovieDocument>)
    requires SameOrders(policy, a, b)
    ensures FieldsOf(policy, unicode, a).titles == FieldsOf(policy, unicode, b).titles
    ensures FieldsOf(policy, unicode, a).summaries == FieldsOf(policy, unicode, b).summaries
  {
    SameTexts(policy, unicode, a, b, 0, TITLES, Titles);
    SameTexts(policy, unicode, a, b, 1, SUMMARIES, Summaries);
  }

  lemma SameWorkFields(policy: MergePolicy, unicode: Unicode, a: seq<MovieDocument>, b: seq<MovieDocument>)
    requires SameOrders(policy, a, b)
    ensures FieldsOf(policy, unicode, a).releases == FieldsOf(policy, unicode, b).releases
    ensures FieldsOf(policy, unicode, a).credits == FieldsOf(policy, unicode, b).credits
  {
    SameUnique(policy, a, b, 2, RELEASES, Releases, SameKey(ReleaseKey()));
    SameUnique(policy, a, b, 3, CREDITS, Credits, SameCredit(unicode));
  }

  lemma SameLastFields(policy: MergePolicy, unicode: Unicode, a: seq<MovieDocument>, b: seq<MovieDocument>)
    requires SameOrders(policy, a, b)
    ensures var f, g := FieldsOf(policy, unicode, a), FieldsOf(policy, unicode, b);
            f.genres == g.genres && f.artwork == g.artwork && f.ratings == g.ratings &&
            f.contentRatings == g.contentRatings
  {
    SameUnique(policy, a, b, 4, GENRES, Genres, SameKey(GenreKey(unicode)));
    SameUnique(policy, a, b, 5, ARTWORK, Artwork, SameKey(ArtworkKey(unicode)));
    SameUnique(policy, a, b, 6, RATINGS, Ratings, SameKey(RatingKey(unicode)));
    SameUnique(policy, a, b, 7, CONTENT_RATINGS, ContentRatings, SameKey(ContentRatingKey(unicode)));
  }

  lemma SameFields(policy: MergePolicy, unicode: Unicode, a: seq<MovieDocument>, b: seq<MovieDocument>)
    requires SameOrders(policy, a, b)
    ensures FieldsOf(policy, unicode, a) == FieldsOf(policy, unicode, b)
  {
    SameTextFields(policy, unicode, a, b);
    SameWorkFields(policy, unicode, a, b);
    SameLastFields(policy, unicode, a, b);
  }

  lemma SameSection(policy: MergePolicy, unicode: Unicode, a: seq<MovieDocument>, b: seq<MovieDocument>, n: nat)
    requires SameOrders(policy, a, b) && n < |FIELDS|
    ensures SectionAt(policy, unicode, a, n) == SectionAt(policy, unicode, b, n)
  {
    match n {
      case 0 => SameObservations(policy, a, b, 0, TITLES, Titles);
      case 1 => SameObservations(policy, a, b, 1, SUMMARIES, Summaries);
      case 2 => SameObservations(policy, a, b, 2, RELEASES, Releases);
      case 3 => SameObservations(policy, a, b, 3, CREDITS, Credits);
      case 4 => SameObservations(policy, a, b, 4, GENRES, Genres);
      case 5 => SameObservations(policy, a, b, 5, ARTWORK, Artwork);
      case 6 => SameObservations(policy, a, b, 6, RATINGS, Ratings);
      case _ => SameObservations(policy, a, b, 7, CONTENT_RATINGS, ContentRatings);
    }
  }

  lemma SameSections(policy: MergePolicy, unicode: Unicode, a: seq<MovieDocument>, b: seq<MovieDocument>)
    requires SameOrders(policy, a, b)
    ensures Sections(policy, unicode, a) == Sections(policy, unicode, b)
  {
    forall n | 0 <= n < 8 ensures Sections(policy, unicode, a)[n] == Sections(policy, unicode, b)[n] {
      SameSection(policy, unicode, a, b, n);
    }
  }

  lemma BaseOrders(policy: MergePolicy, providers: seq<ProviderId>, documents: seq<MovieDocument>,
                   arrived: seq<MovieDocument>)
    requires TiesAreHidden(policy, providers) && From(documents, providers)
    requires multiset(arrived) == multiset(documents)
    ensures SameOrders(policy, Base(policy, arrived), Base(policy, documents))
  {
    forall f | 0 <= f < |FIELDS|
      ensures Ordered(policy, Movies, FIELDS[f], Base(policy, arrived)) ==
              Ordered(policy, Movies, FIELDS[f], Base(policy, documents))
    {
      FieldOrderForgets(policy, providers, documents, arrived, f);
    }
  }

  lemma HiddenTiesNeverShow(policy: MergePolicy, unicode: Unicode, providers: seq<ProviderId>,
                            documents: seq<MovieDocument>, arrived: seq<MovieDocument>)
    requires TiesAreHidden(policy, providers) && From(documents, providers)
    requires multiset(arrived) == multiset(documents)
    ensures Merged(policy, unicode, arrived) == Merged(policy, unicode, documents)
  {
    assert |multiset(arrived)| == |multiset(documents)|;
    if documents != [] {
      HeadForgets(policy, providers, documents, arrived);
      BaseOrders(policy, providers, documents, arrived);
      SameFields(policy, unicode, Base(policy, arrived), Base(policy, documents));
      SameSections(policy, unicode, Base(policy, arrived), Base(policy, documents));
    }
  }

  // ----- other ties show -----

  // A movie with an identity alone, and one that fills every field with its text.
  function Bare(id: string): Movie { Movie(id, [], [], [], [], [], [], [], []) }

  function Loud(text: string): Movie {
    Movie(text, [Untagged(text)], [Untagged(text)], [MovieRelease(text, ReleaseDate(1, None, None), None, None)],
          [Credit(Person(text, text), Director, None)], [text], [ArtworkReference(Poster, text, None)],
          [Rating(text, 0.0, 1.0)], [ContentRating(text, text)])
  }

  lemma NamesDiffer()
    ensures "x" != "y" && "x" != "" && "y" != ""
  {
    assert "x"[0] != "y"[0];
  }

  // The first of the providers with the rank of the i-th.
  lemma FirstOfRank(policy: MergePolicy, providers: seq<ProviderId>, i: nat) returns (m: nat)
    requires i < |providers|
    ensures m <= i && BaseRank(policy, providers[m]) == BaseRank(policy, providers[i])
    ensures forall n :: 0 <= n < m ==> BaseRank(policy, providers[n]) != BaseRank(policy, providers[i])
  {
    m := 0;
    while BaseRank(policy, providers[m]) != BaseRank(policy, providers[i])
      invariant m <= i
      invariant forall n :: 0 <= n < m ==> BaseRank(policy, providers[n]) != BaseRank(policy, providers[i])
      decreases i - m
    {
      m := m + 1;
    }
  }

  // The documents have the ranks of the providers, place by place.
  ghost predicate Ranked(policy: MergePolicy, documents: seq<MovieDocument>, providers: seq<ProviderId>) {
    |documents| == |providers| &&
    forall m :: 0 <= m < |documents| ==> RankOf(policy, Movies, "movie")(documents[m]) == BaseRank(policy, providers[m])
  }

  lemma SwapKeepsRanks(policy: MergePolicy, documents: seq<MovieDocument>, providers: seq<ProviderId>, i: nat, j: nat)
    requires From(documents, providers) && i < j < |providers|
    requires BaseRank(policy, providers[i]) == BaseRank(policy, providers[j])
    ensures Ranked(policy, documents, providers) && Ranked(policy, Swapped(documents, i, j), providers)
  {
  }

  lemma HeadIsMerged(policy: MergePolicy, unicode: Unicode, documents: seq<MovieDocument>,
                     providers: seq<ProviderId>, i: nat)
    requires Ranked(policy, documents, providers) && i < |providers| && !IsPreceded(policy, providers, i)
    requires forall n :: 0 <= n < i ==> BaseRank(policy, providers[n]) != BaseRank(policy, providers[i])
    ensures Merged(policy, unicode, documents).Ok?
    ensures Merged(policy, unicode, documents).value.value.id == documents[i].value.id
  {
    forall m | 0 <= m < |documents|
      ensures RankOf(policy, Movies, "movie")(documents[i]) <= RankOf(policy, Movies, "movie")(documents[m])
    {
      assert BaseRank(policy, providers[i]) <= BaseRank(policy, providers[m]);
    }
    HeadIsFirstLeast(documents, RankOf(policy, Movies, "movie"), i);
  }

  /** Two documents that tie in front of all others show which of them arrived first. */
  lemma TieInFrontShows(policy: MergePolicy, unicode: Unicode, providers: seq<ProviderId>, i: nat, j: nat)
    requires i < j < |providers| && BaseRank(policy, providers[i]) == BaseRank(policy, providers[j])
    requires !IsPreceded(policy, providers, i)
    requires forall n :: 0 <= n < i ==> BaseRank(policy, providers[n]) != BaseRank(policy, providers[i])
    ensures var documents := Speaking(providers, i, j, Bare("x"), Bare("y"), Bare(""));
            Merged(policy, unicode, Swapped(documents, i, j)) != Merged(policy, unicode, documents)
  {
    var documents := Speaking(providers, i, j, Bare("x"), Bare("y"), Bare(""));
    NamesDiffer();
    SpeakingIsFrom(providers, i, j, Bare("x"), Bare("y"), Bare(""));
    SwapKeepsRanks(policy, documents, providers, i, j);
    HeadIsMerged(policy, unicode, documents, providers, i);
    HeadIsMerged(policy, unicode, Swapped(documents, i, j), providers, i);
  }

  // ----- ties in a field -----

  predicate IsLoud(m: Movie) { m == Loud("x") || m == Loud("y") }

  function Speaks(): MovieDocument -> bool { (d: MovieDocument) => IsLoud(d.value) }

  // Everyone speaks or is silent, and all that speak have one rank.
  ghost predicate OneRankSpeaks(policy: MergePolicy, path: string, documents: seq<MovieDocument>, k: int) {
    forall d <- documents ::
      (IsLoud(d.value) || d.value == Bare("")) && (IsLoud(d.value) ==> RankOf(policy, Movies, path)(d) == k)
  }

  // What the merge takes from the first to speak, field by field.
  function Shown(f: nat, m: Movie): string {
    match f
    case 0 => if m.titles == [] then "" else m.titles[0].text
    case 1 => if m.summaries == [] then "" else m.summaries[0].text
    case 2 => if m.releases == [] then "" else m.releases[0].id
    case 3 => if m.credits == [] then "" else m.credits[0].person.id
    case 4 => if m.genres == [] then "" else m.genres[0]
    case 5 => if m.artwork == [] then "" else m.artwork[0].location
    case 6 => if m.ratings == [] then "" else m.ratings[0].system
    case _ => if m.contentRatings == [] then "" else m.contentRatings[0].system
  }

  lemma FirstLeadsField<T>(policy: MergePolicy, path: string, base: seq<MovieDocument>, select: Movie -> seq<T>,
                           clash: (T, T) -> bool, k: int, d: MovieDocument)
    requires OneRankSpeaks(policy, path, base, k) && First(base, Speaks()) == Some(d)
    requires select(Loud("x")) != [] && select(Loud("y")) != [] && select(Bare("")) == []
    ensures var values := Values(Kept(FieldObservations(policy, Movies, path, base, select), clash));
            select(d.value) != [] && values != [] && values[0] == select(d.value)[0]
  {
    SameFirst(base, Fills(select), Speaks());
    FirstLeads(policy, Movies, path, base, select, clash, k, d);
  }

  lemma TitlesLead(policy: MergePolicy, unicode: Unicode, base: seq<MovieDocument>, k: int, d: MovieDocument)
    requires OneRankSpeaks(policy, TITLES, base, k) && First(base, Speaks()) == Some(d)
    ensures var values := Localized(policy, unicode, base, TITLES, Titles).value;
            values != [] && d.value.titles != [] && values[0] == d.value.titles[0]
  {
    FirstLeadsField(policy, TITLES, base, Titles, SameKey(LanguageKey(UNTAGGED)), k, d);
  }

  lemma SummariesLead(policy: MergePolicy, unicode: Unicode, base: seq<MovieDocument>, k: int, d: MovieDocument)
    requires OneRankSpeaks(policy, SUMMARIES, base, k) && First(base, Speaks()) == Some(d)
    ensures var values := Localized(policy, unicode, base, SUMMARIES, Summaries).value;
            values != [] && d.value.summaries != [] && values[0] == d.value.summaries[0]
  {
    FirstLeadsField(policy, SUMMARIES, base, Summaries, SameKey(LanguageKey(UNTAGGED)), k, d);
  }

  lemma ReleasesLead(policy: MergePolicy, unicode: Unicode, base: seq<MovieDocument>, k: int, d: MovieDocument)
    requires OneRankSpeaks(policy, RELEASES, base, k) && First(base, Speaks()) == Some(d)
    ensures var values := Unique(policy, base, RELEASES, Releases, SameKey(ReleaseKey())).value;
            values != [] && d.value.releases != [] && values[0] == d.value.releases[0]
  {
    FirstLeadsField(policy, RELEASES, base, Releases, SameKey(ReleaseKey()), k, d);
  }

  lemma CreditsLead(policy: MergePolicy, unicode: Unicode, base: seq<MovieDocument>, k: int, d: MovieDocument)
    requires OneRankSpeaks(policy, CREDITS, base, k) && First(base, Speaks()) == Some(d)
    ensures var values := Unique(policy, base, CREDITS, Credits, SameCredit(unicode)).value;
            values != [] && d.value.credits != [] && values[0] == d.value.credits[0]
  {
    FirstLeadsField(policy, CREDITS, base, Credits, SameCredit(unicode), k, d);
  }

  lemma GenresLead(policy: MergePolicy, unicode: Unicode, base: seq<MovieDocument>, k: int, d: MovieDocument)
    requires OneRankSpeaks(policy, GENRES, base, k) && First(base, Speaks()) == Some(d)
    ensures var values := Unique(policy, base, GENRES, Genres, SameKey(GenreKey(unicode))).value;
            values != [] && d.value.genres != [] && values[0] == d.value.genres[0]
  {
    FirstLeadsField(policy, GENRES, base, Genres, SameKey(GenreKey(unicode)), k, d);
  }

  lemma ArtworkLeads(policy: MergePolicy, unicode: Unicode, base: seq<MovieDocument>, k: int, d: MovieDocument)
    requires OneRankSpeaks(policy, ARTWORK, base, k) && First(base, Speaks()) == Some(d)
    ensures var values := Unique(policy, base, ARTWORK, Artwork, SameKey(ArtworkKey(unicode))).value;
            values != [] && d.value.artwork != [] && values[0] == d.value.artwork[0]
  {
    FirstLeadsField(policy, ARTWORK, base, Artwork, SameKey(ArtworkKey(unicode)), k, d);
  }

  lemma RatingsLead(policy: MergePolicy, unicode: Unicode, base: seq<MovieDocument>, k: int, d: MovieDocument)
    requires OneRankSpeaks(policy, RATINGS, base, k) && First(base, Speaks()) == Some(d)
    ensures var values := Unique(policy, base, RATINGS, Ratings, SameKey(RatingKey(unicode))).value;
            values != [] && d.value.ratings != [] && values[0] == d.value.ratings[0]
  {
    FirstLeadsField(policy, RATINGS, base, Ratings, SameKey(RatingKey(unicode)), k, d);
  }

  lemma ContentRatingsLead(policy: MergePolicy, unicode: Unicode, base: seq<MovieDocument>, k: int, d: MovieDocument)
    requires OneRankSpeaks(policy, CONTENT_RATINGS, base, k) && First(base, Speaks()) == Some(d)
    ensures var values :=
              Unique(policy, base, CONTENT_RATINGS, ContentRatings, SameKey(ContentRatingKey(unicode))).value;
            values != [] && d.value.contentRatings != [] && values[0] == d.value.contentRatings[0]
  {
    FirstLeadsField(policy, CONTENT_RATINGS, base, ContentRatings, SameKey(ContentRatingKey(unicode)), k, d);
  }

  lemma FirstLeadsItsField(policy: MergePolicy, unicode: Unicode, base: seq<MovieDocument>, f: nat, k: int,
                           d: MovieDocument)
    requires f < |FIELDS| && OneRankSpeaks(policy, FIELDS[f], base, k) && First(base, Speaks()) == Some(d)
    ensures Shown(f, FieldsOf(policy, unicode, base).Apply(base[0].value)) == Shown(f, d.value)
  {
    match f {
      case 0 => TitlesLead(policy, unicode, base, k, d);
      case 1 => SummariesLead(policy, unicode, base, k, d);
      case 2 => ReleasesLead(policy, unicode, base, k, d);
      case 3 => CreditsLead(policy, unicode, base, k, d);
      case 4 => GenresLead(policy, unicode, base, k, d);
      case 5 => ArtworkLeads(policy, unicode, base, k, d);
      case 6 => RatingsLead(policy, unicode, base, k, d);
      case _ => ContentRatingsLead(policy, unicode, base, k, d);
    }
  }

  lemma LoudIsShown(f: nat, d: MovieDocument)
    requires f < |FIELDS| && IsLoud(d.value)
    ensures Shown(f, d.value) == d.value.id
  {
  }

  lemma FirstIsShown(policy: MergePolicy, unicode: Unicode, documents: seq<MovieDocument>, f: nat, k: int, n: int,
                     d: MovieDocument)
    requires f < |FIELDS| && OneRankSpeaks(policy, "movie", documents, k)
    requires OneRankSpeaks(policy, FIELDS[f], documents, n) && First(documents, Speaks()) == Some(d)
    ensures Merged(policy, unicode, documents).Ok?
    ensures Shown(f, Merged(policy, unicode, documents).value.value) == d.value.id
  {
    var rank, base := RankOf<Movie>(policy, Movies, "movie"), Base(policy, documents);
    SortKeepsFirst(documents, rank, Speaks(), k);
    forall x | x in base ensures x in documents { SortedMembers(documents, rank, x); }
    FirstLeadsItsField(policy, unicode, base, f, n, d);
    FirstIsOneOf(documents, Speaks(), d);
    LoudIsShown(f, d);
  }

  lemma LoudIsNotSilent()
    ensures Loud("x").id != Loud("y").id && !IsLoud(Bare(""))
  {
    NamesDiffer();
  }

  lemma WitnessSpeaks(policy: MergePolicy, path: string, providers: seq<ProviderId>, i: nat, j: nat)
    requires i < j < |providers| && policy.Rank(Movies, path, providers[i]) == policy.Rank(Movies, path, providers[j])
    ensures var documents := Speaking(providers, i, j, Loud("x"), Loud("y"), Bare(""));
            var k := policy.Rank(Movies, path, providers[i]);
            OneRankSpeaks(policy, path, documents, k) && OneRankSpeaks(policy, path, Swapped(documents, i, j), k)
  {
    LoudIsNotSilent();
  }

  /** Two documents that tie on the base path and in some field show which of them arrived first. */
  lemma TieInAFieldShows(policy: MergePolicy, unicode: Unicode, providers: seq<ProviderId>, f: nat, i: nat, j: nat)
    requires f < |FIELDS| && i < j < |providers| && BaseRank(policy, providers[i]) == BaseRank(policy, providers[j])
    requires policy.Rank(Movies, FIELDS[f], providers[i]) == policy.Rank(Movies, FIELDS[f], providers[j])
    ensures var documents := Speaking(providers, i, j, Loud("x"), Loud("y"), Bare(""));
            Merged(policy, unicode, Swapped(documents, i, j)) != Merged(policy, unicode, documents)
  {
    var documents := Speaking(providers, i, j, Loud("x"), Loud("y"), Bare(""));
    var k, n := BaseRank(policy, providers[i]), policy.Rank(Movies, FIELDS[f], providers[i]);
    LoudIsNotSilent();
    WitnessSpeaks(policy, "movie", providers, i, j);
    WitnessSpeaks(policy, FIELDS[f], providers, i, j);
    FirstSpeakers(providers, i, j, Loud("x"), Loud("y"), Bare(""), Speaks());
    FirstIsShown(policy, unicode, documents, f, k, n, documents[i]);
    FirstIsShown(policy, unicode, Swapped(documents, i, j), f, k, n, documents[j]);
  }

  // ----- the condition -----

  lemma Refutes(policy: MergePolicy, unicode: Unicode, providers: seq<ProviderId>, documents: seq<MovieDocument>,
                i: nat, j: nat)
    requires From(documents, providers) && i < j < |documents|
    requires Merged(policy, unicode, Swapped(documents, i, j)) != Merged(policy, unicode, documents)
    ensures !OrderNeverMatters(policy, unicode, providers)
  {
    SwapKeepsElements(documents, i, j);
  }

  lemma TiesMatter(policy: MergePolicy, unicode: Unicode, providers: seq<ProviderId>, i: nat, j: nat)
    requires i < j < |providers| && BaseRank(policy, providers[i]) == BaseRank(policy, providers[j])
    requires !IsPreceded(policy, providers, i) || !FieldsDiffer(policy, providers[i], providers[j])
    ensures !OrderNeverMatters(policy, unicode, providers)
  {
    if !IsPreceded(policy, providers, i) {
      var m := FirstOfRank(policy, providers, i);
      SpeakingIsFrom(providers, m, j, Bare("x"), Bare("y"), Bare(""));
      TieInFrontShows(policy, unicode, providers, m, j);
      Refutes(policy, unicode, providers, Speaking(providers, m, j, Bare("x"), Bare("y"), Bare("")), m, j);
    } else {
      var f: nat :| f < |FIELDS| &&
        policy.Rank(Movies, FIELDS[f], providers[i]) == policy.Rank(Movies, FIELDS[f], providers[j]);
      SpeakingIsFrom(providers, i, j, Loud("x"), Loud("y"), Bare(""));
      TieInAFieldShows(policy, unicode, providers, f, i, j);
      Refutes(policy, unicode, providers, Speaking(providers, i, j, Loud("x"), Loud("y"), Bare("")), i, j);
    }
  }

  /** The arrival order never matters, whatever documents the providers send, exactly when providers that tie on the
      base path come after another provider and tie in no field. */
  lemma OrderNeverMattersIff(policy: MergePolicy, unicode: Unicode, providers: seq<ProviderId>)
    ensures OrderNeverMatters(policy, unicode, providers) <==> TiesAreHidden(policy, providers)
  {
    if TiesAreHidden(policy, providers) {
      forall documents, arrived | From(documents, providers) && multiset(arrived) == multiset(documents)
        ensures Merged(policy, unicode, arrived) == Merged(policy, unicode, documents)
      {
        HiddenTiesNeverShow(policy, unicode, providers, documents, arrived);
      }
    } else {
      var i: nat, j: nat :| i < j < |providers| && BaseRank(policy, providers[i]) == BaseRank(policy, providers[j]) &&
        (!IsPreceded(policy, providers, i) || !FieldsDiffer(policy, providers[i], providers[j]));
      TiesMatter(policy, unicode, providers, i, j);
    }
  }
}
