/** The anime merge, said of the documents as they arrive: every field straight in its own order. */
module AnimeAnswers {
  import opened AnimeMerge
  import opened Completeness
  import opened FieldAnswers
  import opened Media
  import opened MediaIdentities
  import opened MergeLoops
  import opened MergePolicies
  import opened Options
  import opened Precedence
  import opened Provenance
  import opened Results
  import opened Retention

  ghost function SameText(unicode: Unicode): (LocalizedEntry, LocalizedEntry) -> bool {
    (a: LocalizedEntry, b: LocalizedEntry) => unicode.Normalize(a.text) == unicode.Normalize(b.text)
  }

  // ----- the provenance of a merge -----

  ghost function SectionAt(policy: MergePolicy, unicode: Unicode, base: AnimeDocument, documents: seq<AnimeDocument>,
                           n: nat): Section
  {
    match n
    case 0 => SectionOf(policy, documents, TITLES, Titles, SameKey(TextKey(unicode)))
    case 1 => SectionOf(policy, documents, SUMMARIES, Summaries, SameKey(TextKey(unicode)))
    case 2 => SectionOf(policy, documents, ARTWORK, Artwork, SameKey(ArtworkKey(unicode)))
    case 3 => Section(COURS, if base.value.cours != [] then [base.source] else [])
    case _ => Section(RELATION, [base.source])
  }

  ghost function SectionOf<T>(policy: MergePolicy, documents: seq<AnimeDocument>, path: string,
                              select: AnimeSeries -> seq<T>, clash: (T, T) -> bool): Section
  {
    Section(path, Sources(Kept(FieldObservations(policy, Anime, path, documents, select), clash)))
  }

  ghost function Sections(policy: MergePolicy, unicode: Unicode, base: AnimeDocument, documents: seq<AnimeDocument>)
    : (r: seq<Section>)
    ensures |r| == 5
  {
    seq(5, n requires 0 <= n => SectionAt(policy, unicode, base, documents, n))
  }

  lemma PathsDiffer()
    ensures |TITLES| == 12 && |SUMMARIES| == 15 && |ARTWORK| == 13 && |COURS| == 11 && |RELATION| == 14
  {
  }

  lemma JournalOfFive(s: seq<Section>)
    requires |s| == 5
    ensures Journal(s) == [] + Under(s[0].path, s[0].sources) + Under(s[1].path, s[1].sources) +
            Under(s[2].path, s[2].sources) + Under(s[3].path, s[3].sources) + Under(s[4].path, s[4].sources)
  {
    PrefixStep(s, 0);
    PrefixStep(s, 1);
    PrefixStep(s, 2);
    PrefixStep(s, 3);
    PrefixStep(s, 4);
    assert s[..0] == [] && s[..5] == s;
  }

  lemma PrefixStep(s: seq<Section>, i: nat)
    requires i < |s|
    ensures Journal(s[..i + 1]) == Journal(s[..i]) + Under(s[i].path, s[i].sources)
  {
    JournalStep(s[..i], s[i]);
    assert s[..i + 1] == s[..i] + [s[i]];
  }

  lemma LogIsJournal(policy: MergePolicy, unicode: Unicode, base: AnimeDocument, documents: seq<AnimeDocument>)
    ensures AnimeOf(policy, unicode, base, documents).log == Journal(Sections(policy, unicode, base, documents))
  {
    var s := Sections(policy, unicode, base, documents);
    JournalOfFive(s);
    assert [] + Under(s[0].path, s[0].sources) == Under(s[0].path, s[0].sources);
    assert Under(s[3].path, s[3].sources) == if base.value.cours != [] then [Entry(COURS, base.source)] else [];
    assert Under(s[4].path, s[4].sources) == [Entry(RELATION, base.source)];
  }

  lemma SectionsDiffer(policy: MergePolicy, unicode: Unicode, base: AnimeDocument, documents: seq<AnimeDocument>)
    ensures var s := Sections(policy, unicode, base, documents);
            forall i, j :: 0 <= i < |s| && 0 <= j < |s| && i != j ==> |s[i].path| != |s[j].path|
  {
    PathsDiffer();
  }

  // What is recorded under the path of section n.
  lemma Recorded(policy: MergePolicy, unicode: Unicode, base: AnimeDocument, documents: seq<AnimeDocument>, n: nat)
    requires n < 5
    ensures Lookup(Grouped(AnimeOf(policy, unicode, base, documents).log),
                   SectionAt(policy, unicode, base, documents, n).path) ==
            SectionAt(policy, unicode, base, documents, n).sources
  {
    var s := Sections(policy, unicode, base, documents);
    LogIsJournal(policy, unicode, base, documents);
    SectionsDiffer(policy, unicode, base, documents);
    SourcesOfSection(s, n);
    LookupInGrouped(Journal(s), s[n].path);
  }

  // ----- the fields -----

  lemma TextsClash(unicode: Unicode)
    ensures SameRelation(SameKey(TextKey(unicode)), SameText(unicode))
  {
  }

  lemma ArtworkClashes(unicode: Unicode)
    ensures SameRelation(SameKey(ArtworkKey(unicode)), SameArtwork(unicode))
  {
    forall a, b ensures SameKey(ArtworkKey(unicode))(a, b) <==> SameArtwork(unicode)(a, b) {
      ArtworkClashesIff(unicode, a, b);
    }
  }

  lemma TextFrom(policy: MergePolicy, unicode: Unicode, path: string, documents: seq<AnimeDocument>,
                 pick: AnimeSeries -> seq<LocalizedEntry>, select: AnimeSeries -> seq<LocalizedEntry>)
    requires forall a :: pick(a) == select(a)
    ensures var kept := Kept(FieldObservations(policy, Anime, path, documents, pick), SameKey(TextKey(unicode)));
            Answers(policy, Anime, [path], documents, select, SameText(unicode), Values(kept), Sources(kept))
  {
    var obs := FieldObservations(policy, Anime, path, documents, pick);
    KeptIsAligned(obs, SameKey(TextKey(unicode)));
    TextsClash(unicode);
    AlignedAlone(policy, Anime, path, documents, pick, SameKey(TextKey(unicode)), select, SameText(unicode),
                 Values(Kept(obs, SameKey(TextKey(unicode)))), Sources(Kept(obs, SameKey(TextKey(unicode)))));
  }

  lemma ArtworkFrom(policy: MergePolicy, unicode: Unicode, path: string, documents: seq<AnimeDocument>)
    ensures var kept := Kept(FieldObservations(policy, Anime, path, documents, Artwork), SameKey(ArtworkKey(unicode)));
            Answers(policy, Anime, [path], documents, (a: AnimeSeries) => a.artwork, SameArtwork(unicode),
                    Values(kept), Sources(kept))
  {
    var obs := FieldObservations(policy, Anime, path, documents, Artwork);
    KeptIsAligned(obs, SameKey(ArtworkKey(unicode)));
    ArtworkClashes(unicode);
    AlignedAlone(policy, Anime, path, documents, Artwork, SameKey(ArtworkKey(unicode)),
                 (a: AnimeSeries) => a.artwork, SameArtwork(unicode),
                 Values(Kept(obs, SameKey(ArtworkKey(unicode)))), Sources(Kept(obs, SameKey(ArtworkKey(unicode)))));
  }

  ghost function BaseDocument(policy: MergePolicy, documents: seq<AnimeDocument>): AnimeDocument
    requires documents != []
  {
    OrderedKeepsLength(policy, Anime, "anime", documents);
    BaseOf(Ordered(policy, Anime, "anime", documents))
  }

  /** Titles and summaries hold the first of all texts that normalize alike, artwork the first of its identity, each
      from the documents in the order of its own path alone. */
  lemma FieldsAreAnswered(policy: MergePolicy, unicode: Unicode, documents: seq<AnimeDocument>)
    requires documents != []
    ensures var r := Merged(policy, unicode, documents).value;
            && Answers(policy, Anime, ["anime.titles"], documents, (a: AnimeSeries) => a.titles, SameText(unicode),
                       r.value.titles, Lookup(r.provenance, "anime.titles"))
            && Answers(policy, Anime, ["anime.summaries"], documents, (a: AnimeSeries) => a.summaries,
                       SameText(unicode), r.value.summaries, Lookup(r.provenance, "anime.summaries"))
            && Answers(policy, Anime, ["anime.artwork"], documents, (a: AnimeSeries) => a.artwork,
                       SameArtwork(unicode), r.value.artwork, Lookup(r.provenance, "anime.artwork"))
            && r.conflicts == []
  {
    var base := BaseDocument(policy, documents);
    TextFrom(policy, unicode, TITLES, documents, Titles, (a: AnimeSeries) => a.titles);
    TextFrom(policy, unicode, SUMMARIES, documents, Summaries, (a: AnimeSeries) => a.summaries);
    ArtworkFrom(policy, unicode, ARTWORK, documents);
    Recorded(policy, unicode, base, documents, 0);
    Recorded(policy, unicode, base, documents, 1);
    Recorded(policy, unicode, base, documents, 2);
  }

  // ----- the base document -----

  function WithCours(): AnimeSeries -> Option<AnimeSeries> {
    (a: AnimeSeries) => if a.cours != [] then Some(a) else None
  }

  lemma {:induction false} FirstWithCoursIsHead(documents: seq<AnimeDocument>, turns: seq<nat>,
                                                otherwise: AnimeDocument)
    requires forall i :: 0 <= i < |turns| ==> turns[i] < |documents|
    ensures var chosen := Chosen(turns, PartAt(documents, WithCours()));
            FirstWithCours(Chosen(turns, PartAt(documents, Whole())), otherwise) ==
            if chosen == [] then otherwise else chosen[0]
  {
    if turns != [] {
      FirstWithCoursIsHead(documents, turns[1..], otherwise);
      var d := documents[turns[0]];
      assert PartAt(documents, Whole())(turns[0]) == Some(d);
      ChosenStep(turns[0], turns[1..], PartAt(documents, Whole()));
      assert turns == [turns[0]] + turns[1..];
      assert ([d] + Chosen(turns[1..], PartAt(documents, Whole())))[1..] ==
             Chosen(turns[1..], PartAt(documents, Whole()));
    }
  }

  /** Everything else comes from one document: the first with cours, or, without any, the first of all. Its source is
      recorded for the relation, and for the cours if it has some. */
  lemma BaseSpeaksFirst(policy: MergePolicy, unicode: Unicode, documents: seq<AnimeDocument>) returns (k: nat)
    requires documents != []
    ensures Merged(policy, unicode, documents).Ok?
    ensures if exists d <- documents :: d.value.cours != []
            then SpeaksFirst(policy, Anime, ["anime"], documents, (a: AnimeSeries) => a.cours != [], k)
            else SpeaksFirst(policy, Anime, ["anime"], documents, (a: AnimeSeries) => true, k)
    ensures var r, base := Merged(policy, unicode, documents).value, documents[k].value;
            && r.value.id == base.id && r.value.relation == base.relation && r.value.cours == base.cours
            && Lookup(r.provenance, "anime.relation") == [documents[k].source]
            && Lookup(r.provenance, "anime.cours") == if base.cours != [] then [documents[k].source] else []
  {
    k := BaseIsFirst(policy, documents, "anime");
    Recorded(policy, unicode, BaseDocument(policy, documents), documents, 3);
    Recorded(policy, unicode, BaseDocument(policy, documents), documents, 4);
  }

  lemma SomethingWithCours(documents: seq<AnimeDocument>, turns: seq<nat>)
    requires forall k: nat :: k in turns <==> k < |documents|
    requires exists d <- documents :: d.value.cours != []
    ensures Chosen(turns, PartAt(documents, WithCours())) != []
  {
    var d :| d in documents && d.value.cours != [];
    var l :| 0 <= l < |documents| && documents[l] == d;
    ChosenComesFrom(turns, PartAt(documents, WithCours()), d);
    assert PartAt(documents, WithCours())(l) == Some(d);
  }

  lemma {:induction false} NothingWithCours(documents: seq<AnimeDocument>, turns: seq<nat>)
    requires forall d <- documents :: d.value.cours == []
    ensures Chosen(turns, PartAt(documents, WithCours())) == []
  {
    if turns != [] { NothingWithCours(documents, turns[1..]); }
  }

  lemma BaseIsFirst(policy: MergePolicy, documents: seq<AnimeDocument>, path: string) returns (k: nat)
    requires documents != []
    ensures Ordered(policy, Anime, path, documents) != []
    ensures k < |documents| && BaseOf(Ordered(policy, Anime, path, documents)) == documents[k]
    ensures if exists d <- documents :: d.value.cours != []
            then SpeaksFirst(policy, Anime, [path], documents, (a: AnimeSeries) => a.cours != [], k)
            else SpeaksFirst(policy, Anime, [path], documents, (a: AnimeSeries) => true, k)
  {
    var turns := Turns(policy, Anime, [path], documents);
    var ordered := Ordered(policy, Anime, path, documents);
    OrderedKeepsLength(policy, Anime, path, documents);
    WholeParts(policy, Anime, documents, path, path);
    TurnsAscend(policy, Anime, [path], documents);
    assert forall i :: 0 <= i < |turns| ==> turns[i] in turns;
    FirstWithCoursIsHead(documents, turns, ordered[0]);
    if exists d <- documents :: d.value.cours != [] {
      SomethingWithCours(documents, turns);
      k := HeadSpeaksFirst(policy, Anime, [path], documents, WithCours(), (a: AnimeSeries) => a.cours != []);
    } else {
      NothingWithCours(documents, turns);
      k := HeadSpeaksFirst(policy, Anime, [path], documents, Whole(), (a: AnimeSeries) => true);
    }
  }

  /** The completeness is the share of titles, cours and artwork that are there; summaries do not count. */
  lemma CompletenessCounts(policy: MergePolicy, unicode: Unicode, documents: seq<AnimeDocument>)
    requires documents != []
    ensures var r := Merged(policy, unicode, documents).value;
            && r.completeness ==
               (Count(r.value.titles != []) + Count(r.value.cours != []) + Count(r.value.artwork != [])) as real / 3.0
            && (r.warnings == [] <==> r.value.titles != [] && r.value.cours != [] && r.value.artwork != [])
            && (r.warnings != [] ==> r.warnings == [IncompleteMetadata])
  {
    MergedIsRated(policy, unicode, documents);
    ChecklistCounts(Merged(policy, unicode, documents).value.value);
  }

  lemma MergedIsRated(policy: MergePolicy, unicode: Unicode, documents: seq<AnimeDocument>)
    requires documents != []
    ensures var r := Merged(policy, unicode, documents).value;
            r.completeness == Share(Checklist(r.value)) && r.warnings == WarningsFor(r.completeness)
  {
  }

  lemma ChecklistCounts(a: AnimeSeries)
    ensures Share(Checklist(a)) == (Count(a.titles != []) + Count(a.cours != []) + Count(a.artwork != [])) as real / 3.0
    ensures WarningsFor(Share(Checklist(a))) == [] <==> a.titles != [] && a.cours != [] && a.artwork != []
  {
    var list := Checklist(a);
    WarnsIffIncomplete(list);
    assert list[0..] == list && list[3..] == [];
    PresentFrom(list, 0);
    PresentFrom(list, 1);
    PresentFrom(list, 2);
  }
}
