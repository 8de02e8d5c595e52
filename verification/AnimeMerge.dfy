/** The anime merger (`merge/anime.rs`): values are identified by their text, and every field is ordered straight from
    the arrival order, without a base sort in between. So the arrival order shows wherever two documents tie;
    `AnimeOrder` says exactly when it never does. */
module AnimeMerge {
  import opened Completeness
  import opened Media
  import opened MergeLoops
  import opened MergePolicies
  import opened Options
  import opened Provenance
  import opened Results
  import opened Retention
  import StableSort

  datatype Cour = Cour(number: nat, episodes: seq<string>)

  datatype AnimeSeries = AnimeSeries(
    id: string,
    titles: seq<LocalizedEntry>,
    summaries: seq<LocalizedEntry>,
    artwork: seq<ArtworkReference>,
    relation: string,
    cours: seq<Cour>)

  type AnimeDocument = Sourced<AnimeSeries>

  const TITLES := "anime.titles"
  const SUMMARIES := "anime.summaries"
  const ARTWORK := "anime.artwork"
  const COURS := "anime.cours"
  const RELATION := "anime.relation"

  lemma TitlesPath() ensures ValidPath(TITLES) {}
  lemma SummariesPath() ensures ValidPath(SUMMARIES) {}
  lemma ArtworkPath() ensures ValidPath(ARTWORK) {}
  lemma CoursPath() ensures ValidPath(COURS) {}
  lemma RelationPath() ensures ValidPath(RELATION) {}

  function Titles(a: AnimeSeries): seq<LocalizedEntry> { a.titles }
  function Summaries(a: AnimeSeries): seq<LocalizedEntry> { a.summaries }
  function Artwork(a: AnimeSeries): seq<ArtworkReference> { a.artwork }

  // Alternatives with the same normalized text are one alternative, whatever their language.
  function TextKey(unicode: Unicode): LocalizedEntry -> string {
    (e: LocalizedEntry) => unicode.Normalize(e.text)
  }

  // The first document with cours, or else the first document.
  function BaseOf(documents: seq<AnimeDocument>): AnimeDocument
    requires documents != []
  {
    FirstWithCours(documents, documents[0])
  }

  function FirstWithCours(documents: seq<AnimeDocument>, otherwise: AnimeDocument): AnimeDocument {
    if documents == [] then otherwise
    else if documents[0].value.cours != [] then documents[0]
    else FirstWithCours(documents[1..], otherwise)
  }

  ghost function Text(policy: MergePolicy, unicode: Unicode, documents: seq<AnimeDocument>, path: string,
                      select: AnimeSeries -> seq<LocalizedEntry>): Outcome<seq<LocalizedEntry>>
  {
    KeptField(FieldObservations(policy, Anime, path, documents, select), SameKey(TextKey(unicode)), path)
  }

  ghost function ArtworkField(policy: MergePolicy, unicode: Unicode, documents: seq<AnimeDocument>)
    : Outcome<seq<ArtworkReference>>
  {
    KeptField(FieldObservations(policy, Anime, ARTWORK, documents, Artwork), SameKey(ArtworkKey(unicode)), ARTWORK)
  }

  ghost function AnimeOf(policy: MergePolicy, unicode: Unicode, base: AnimeDocument, documents: seq<AnimeDocument>)
    : Outcome<AnimeSeries>
  {
    var titles := Text(policy, unicode, documents, TITLES, Titles);
    var summaries := Text(policy, unicode, documents, SUMMARIES, Summaries);
    var artwork := ArtworkField(policy, unicode, documents);
    Outcome(
      base.value.(titles := titles.value, summaries := summaries.value, artwork := artwork.value),
      titles.log + summaries.log + artwork.log +
        (if base.value.cours != [] then [Entry(COURS, base.source)] else []) + [Entry(RELATION, base.source)],
      [])
  }

  // What a complete anime has; summaries are not on the list.
  function Checklist(a: AnimeSeries): seq<bool> {
    [a.titles != [], a.cours != [], a.artwork != []]
  }

  /** What a merge of sourced anime amounts to. */
  ghost function Merged(policy: MergePolicy, unicode: Unicode, documents: seq<AnimeDocument>)
    : MergeResult<Resolved<AnimeSeries>>
  {
    if documents == [] then Err(NoDocuments)
    else
      OrderedKeepsLength(policy, Anime, "anime", documents);
      var merged := AnimeOf(policy, unicode, BaseOf(Ordered(policy, Anime, "anime", documents)), documents);
      Ok(Rated(merged.value, Grouped(merged.log), [], Checklist(merged.value)))
  }

  method MergeText(policy: MergePolicy, unicode: Unicode, documents: seq<AnimeDocument>, path: string,
                   select: AnimeSeries -> seq<LocalizedEntry>, provenance: ProvenanceMap)
                     returns (result: seq<LocalizedEntry>)
    requires ValidPath(path) && provenance.Valid()
    modifies provenance
    ensures provenance.Valid()
    ensures var field := Text(policy, unicode, documents, path, select);
            result == field.value && provenance.log == old(provenance.log) + field.log
  {
    result := MergeUnique(Project(Ordered(policy, Anime, path, documents), select), TextKey(unicode), path, provenance);
  }

  // The three merged fields and the provenance of the base document.
  method MergeFields(policy: MergePolicy, unicode: Unicode, base: AnimeDocument, documents: seq<AnimeDocument>)
    returns (anime: AnimeSeries, sources: SourceMap)
    ensures var merged := AnimeOf(policy, unicode, base, documents);
            anime == merged.value && sources == Grouped(merged.log)
  {
    var provenance := new ProvenanceMap();
    ghost var merged := AnimeOf(policy, unicode, base, documents);
    TitlesPath();
    SummariesPath();
    ArtworkPath();
    CoursPath();
    RelationPath();
    var titles := MergeText(policy, unicode, documents, TITLES, Titles, provenance);
    ghost var t := Text(policy, unicode, documents, TITLES, Titles).log;
    assert [] + t == t;
    var summaries := MergeText(policy, unicode, documents, SUMMARIES, Summaries, provenance);
    var artwork := MergeUnique(
      Project(Ordered(policy, Anime, ARTWORK, documents), Artwork), ArtworkKey(unicode), ARTWORK, provenance);
    ghost var before := provenance.log;
    assert before + [] == before;
    if base.value.cours != [] {
      var added := provenance.Add(COURS, base.source);
    }
    var added := provenance.Add(RELATION, base.source);
    GroupsIsUnique(provenance.sources, Grouped(merged.log), merged.log);
    anime := base.value.(titles := titles, summaries := summaries, artwork := artwork);
    sources := provenance.sources;
  }

  /** Merges anime documents, keeping complementary alternatives. */
  method Merge(policy: MergePolicy, unicode: Unicode, documents: seq<AnimeDocument>)
    returns (r: MergeResult<Resolved<AnimeSeries>>)
    ensures r == Merged(policy, unicode, documents)
  {
    if documents == [] { return Err(NoDocuments); }
    OrderedKeepsLength(policy, Anime, "anime", documents);
    var base := BaseOf(Ordered(policy, Anime, "anime", documents));
    var anime, sources := MergeFields(policy, unicode, base, documents);
    var completeness := Share(Checklist(anime));
    var warnings := [];
    if completeness < 1.0 { warnings := [IncompleteMetadata]; }
    return Ok(Resolved(anime, sources, [], completeness, warnings));
  }

  // ----- arrival order -----

  // Documents that tie in any of the four orders the merge uses are equal.
  ghost predicate TiesAreEqualEverywhere(policy: MergePolicy, documents: seq<AnimeDocument>) {
    && StableSort.TiesAreEqual(documents, RankOf(policy, Anime, "anime"))
    && StableSort.TiesAreEqual(documents, RankOf(policy, Anime, TITLES))
    && StableSort.TiesAreEqual(documents, RankOf(policy, Anime, SUMMARIES))
    && StableSort.TiesAreEqual(documents, RankOf(policy, Anime, ARTWORK))
  }

  /** Arrival order does not matter when ties are equal in every order the merge uses. */
  lemma ArrivalOrderDoesNotMatter(policy: MergePolicy, unicode: Unicode, documents: seq<AnimeDocument>,
                                  arrived: seq<AnimeDocument>)
    requires multiset(arrived) == multiset(documents) && TiesAreEqualEverywhere(policy, documents)
    ensures Merged(policy, unicode, arrived) == Merged(policy, unicode, documents)
  {
    OrderedForgets(policy, Anime, "anime", documents, arrived);
    OrderedForgets(policy, Anime, TITLES, documents, arrived);
    OrderedForgets(policy, Anime, SUMMARIES, documents, arrived);
    OrderedForgets(policy, Anime, ARTWORK, documents, arrived);
    assert |multiset(arrived)| == |multiset(documents)|;
  }

  lemma ObservationsOfTwo<T>(a: Sourced<seq<T>>, b: Sourced<seq<T>>)
    ensures Observations([a, b]) == Observed(a) + Observed(b)
  {
    assert [a, b][..1] == [a] && [a][..0] == [];
    assert Observations([a]) == Observed(a);
  }

  lemma FirstTitle(policy: MergePolicy, unicode: Unicode, first: AnimeDocument, second: AnimeDocument)
    requires RankOf(policy, Anime, TITLES)(first) == RankOf(policy, Anime, TITLES)(second) && first.value.titles != []
    ensures var titles := Text(policy, unicode, [first, second], TITLES, Titles).value;
            titles != [] && titles[0] == first.value.titles[0]
  {
    StableSort.SortedIsFixed([first, second], RankOf(policy, Anime, TITLES));
    var x, y := Sourced(first.value.titles, first.source), Sourced(second.value.titles, second.source);
    assert Project([first, second], Titles) == [x, y];
    ObservationsOfTwo(x, y);
    FirstIsKept(Observed(x) + Observed(y), SameKey(TextKey(unicode)));
  }

  /** Two documents that tie in the title order follow the arrival order, whatever their base ranks. */
  lemma TiedTitlesFollowArrival(policy: MergePolicy, unicode: Unicode, a: AnimeDocument, b: AnimeDocument)
    requires RankOf(policy, Anime, TITLES)(a) == RankOf(policy, Anime, TITLES)(b)
    requires a.value.titles != [] && b.value.titles != [] && a.value.titles[0] != b.value.titles[0]
    ensures Merged(policy, unicode, [a, b]) != Merged(policy, unicode, [b, a])
  {
    FirstTitle(policy, unicode, a, b);
    FirstTitle(policy, unicode, b, a);
    assert Merged(policy, unicode, [a, b]).value.value.titles[0] == a.value.titles[0];
    assert Merged(policy, unicode, [b, a]).value.value.titles[0] == b.value.titles[0];
  }

  // Providers "a" and "b" in this order, except that no provider is ranked for titles.
  function UnrankedTitles(): MergePolicy {
    MergePolicy(["a", "b"], map[], map[TITLES := []])
  }

  function Titled(provider: ProviderId, title: string): AnimeDocument {
    Sourced(AnimeSeries("id", [Untagged(title)], [], [], "", []), SourceRef(provider, None, None, 0))
  }

  lemma BaseOrderOfExample()
    ensures UnrankedTitles().OrderFor(Anime, "anime") == ["a", "b"]
    ensures UnrankedTitles().OrderFor(Anime, TITLES) == []
  {
    assert |"anime"| != |TITLES|;
  }

  lemma PositionsOfExample()
    ensures Position(["a", "b"], "a") == 0 && Position(["a", "b"], "b") == 1
  {
    var order: seq<ProviderId> := ["a", "b"];
    assert order[1..] == ["b"];
    assert "a"[0] != "b"[0];
    assert Position(["b"], "b") == 0;
  }

  /** Unlike movies and series, distinct base ranks are not enough. */
  lemma BaseRanksAreNotEnough(unicode: Unicode)
    ensures var policy, a, b := UnrankedTitles(), Titled("a", "x"), Titled("b", "y");
            && StableSort.TiesAreEqual([a, b], RankOf(policy, Anime, "anime"))
            && Merged(policy, unicode, [a, b]) != Merged(policy, unicode, [b, a])
  {
    var policy, a, b := UnrankedTitles(), Titled("a", "x"), Titled("b", "y");
    BaseOrderOfExample();
    PositionsOfExample();
    assert RankOf(policy, Anime, "anime")(a) == 0 && RankOf(policy, Anime, "anime")(b) == 1;
    assert "x"[0] != "y"[0];
    TiedTitlesFollowArrival(policy, unicode, a, b);
  }

  // ----- normal form -----

  ghost predicate Normal(unicode: Unicode, a: AnimeSeries) {
    && NoClash(a.titles, SameKey(TextKey(unicode)))
    && NoClash(a.summaries, SameKey(TextKey(unicode)))
    && NoClash(a.artwork, SameKey(ArtworkKey(unicode)))
  }

  lemma MergedIsNormal(policy: MergePolicy, unicode: Unicode, base: AnimeDocument, documents: seq<AnimeDocument>)
    ensures Normal(unicode, AnimeOf(policy, unicode, base, documents).value)
  {
    KeptDoesNotClash(FieldObservations(policy, Anime, TITLES, documents, Titles), SameKey(TextKey(unicode)));
    KeptDoesNotClash(FieldObservations(policy, Anime, SUMMARIES, documents, Summaries), SameKey(TextKey(unicode)));
    KeptDoesNotClash(FieldObservations(policy, Anime, ARTWORK, documents, Artwork), SameKey(ArtworkKey(unicode)));
  }

  lemma NormalIsFixed(policy: MergePolicy, unicode: Unicode, document: AnimeDocument)
    requires Normal(unicode, document.value)
    ensures AnimeOf(policy, unicode, document, [document]).value == document.value
  {
    KeptFieldIsNormal(policy, Anime, TITLES, document, Titles, SameKey(TextKey(unicode)));
    KeptFieldIsNormal(policy, Anime, SUMMARIES, document, Summaries, SameKey(TextKey(unicode)));
    KeptFieldIsNormal(policy, Anime, ARTWORK, document, Artwork, SameKey(ArtworkKey(unicode)));
  }

  /** Merging a merged anime again returns it unchanged. */
  lemma MergeIsNormalForm(policy: MergePolicy, again: MergePolicy, unicode: Unicode, documents: seq<AnimeDocument>,
                          source: SourceRef)
    requires documents != []
    ensures var anime := Merged(policy, unicode, documents).value.value;
            var r := Merged(again, unicode, [Sourced(anime, source)]);
            r.Ok? && r.value.value == anime
  {
    OrderedKeepsLength(policy, Anime, "anime", documents);
    MergedIsNormal(policy, unicode, BaseOf(Ordered(policy, Anime, "anime", documents)), documents);
    var document: AnimeDocument := Sourced(Merged(policy, unicode, documents).value.value, source);
    OrderedSingle(again, Anime, "anime", document);
    assert [document][1..] == [];
    assert FirstWithCours([document][1..], document) == document;
    NormalIsFixed(again, unicode, document);
  }
}
