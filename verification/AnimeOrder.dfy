/** Exactly when the arrival order of anime documents does not matter. */
module AnimeOrder {
  import opened AnimeMerge
  import opened ArrivalOrder
  import opened Media
  import opened MergeLoops
  import opened MergePolicies
  import opened Options
  import opened Retention

  // The orders that a merge uses.
  const ORDERS: seq<string> := ["anime", TITLES, SUMMARIES, ARTWORK]

  // No two of the providers share a rank in any order.
  ghost predicate RanksDifferEverywhere(policy: MergePolicy, providers: seq<ProviderId>) {
    forall o :: 0 <= o < |ORDERS| ==> RanksDiffer(policy, Anime, ORDERS[o], providers)
  }

  // Whatever documents the providers send, every arrival order gives the same merge.
  ghost predicate OrderNeverMatters(policy: MergePolicy, unicode: Unicode, providers: seq<ProviderId>) {
    forall documents, arrived :: From(documents, providers) && multiset(arrived) == multiset(documents) ==>
      Merged(policy, unicode, arrived) == Merged(policy, unicode, documents)
  }

  lemma DistinctRanksAreEnough(policy: MergePolicy, unicode: Unicode, providers: seq<ProviderId>)
    requires RanksDifferEverywhere(policy, providers)
    ensures OrderNeverMatters(policy, unicode, providers)
  {
    forall documents, arrived | From(documents, providers) && multiset(arrived) == multiset(documents)
      ensures Merged(policy, unicode, arrived) == Merged(policy, unicode, documents)
    {
      TiesNeedOneRank(policy, Anime, ORDERS[0], documents, providers);
      TiesNeedOneRank(policy, Anime, ORDERS[1], documents, providers);
      TiesNeedOneRank(policy, Anime, ORDERS[2], documents, providers);
      TiesNeedOneRank(policy, Anime, ORDERS[3], documents, providers);
      ArrivalOrderDoesNotMatter(policy, unicode, documents, arrived);
    }
  }

  // ----- every tie shows -----

  // An anime that fills every field with its text, and one that says nothing.
  function Loud(text: string): AnimeSeries {
    AnimeSeries(text, [Untagged(text)], [Untagged(text)], [ArtworkReference(Poster, text, None)], "", [Cour(1, [])])
  }

  const SILENT := AnimeSeries("", [], [], [], "", [])

  // Providers i and j speak, the others are silent.
  function Witness(providers: seq<ProviderId>, i: nat, j: nat): seq<AnimeDocument> {
    Speaking(providers, i, j, Loud("x"), Loud("y"), SILENT)
  }

  predicate IsLoud(a: AnimeSeries) { a == Loud("x") || a == Loud("y") }

  function Speaks(): AnimeDocument -> bool { (d: AnimeDocument) => IsLoud(d.value) }

  // Everyone speaks or is silent, and all that speak have one rank.
  ghost predicate OneRankSpeaks(policy: MergePolicy, path: string, documents: seq<AnimeDocument>, k: int) {
    forall d <- documents ::
      (IsLoud(d.value) || d.value == SILENT) && (IsLoud(d.value) ==> RankOf(policy, Anime, path)(d) == k)
  }

  // What the merge takes from the first to speak, for each of the orders.
  function Shown(o: nat, a: AnimeSeries): string {
    match o
    case 0 => a.id
    case 1 => if a.titles == [] then "" else a.titles[0].text
    case 2 => if a.summaries == [] then "" else a.summaries[0].text
    case _ => if a.artwork == [] then "" else a.artwork[0].location
  }

  lemma {:induction false} BaseIsFirst(documents: seq<AnimeDocument>, otherwise: AnimeDocument, d: AnimeDocument)
    requires forall x <- documents :: IsLoud(x.value) || x.value == SILENT
    requires First(documents, Speaks()) == Some(d)
    ensures FirstWithCours(documents, otherwise) == d
  {
    if !IsLoud(documents[0].value) { BaseIsFirst(documents[1..], otherwise, d); }
  }

  lemma FirstIsBase(policy: MergePolicy, unicode: Unicode, documents: seq<AnimeDocument>, k: int, d: AnimeDocument)
    requires OneRankSpeaks(policy, "anime", documents, k) && First(documents, Speaks()) == Some(d)
    ensures Merged(policy, unicode, documents).Ok?
    ensures Merged(policy, unicode, documents).value.value.id == d.value.id
  {
    OrderedKeepsLength(policy, Anime, "anime", documents);
    SortKeepsFirst(documents, RankOf(policy, Anime, "anime"), Speaks(), k);
    var ordered := Ordered(policy, Anime, "anime", documents);
    forall x | x in ordered ensures x in documents { SortedMembers(documents, RankOf(policy, Anime, "anime"), x); }
    BaseIsFirst(ordered, ordered[0], d);
  }

  lemma FirstLeadsField<T>(policy: MergePolicy, path: string, documents: seq<AnimeDocument>,
                           select: AnimeSeries -> seq<T>, clash: (T, T) -> bool, k: int, d: AnimeDocument)
    requires OneRankSpeaks(policy, path, documents, k) && First(documents, Speaks()) == Some(d)
    requires select(Loud("x")) != [] && select(Loud("y")) != [] && select(SILENT) == []
    ensures var values := Values(Kept(FieldObservations(policy, Anime, path, documents, select), clash));
            select(d.value) != [] && values != [] && values[0] == select(d.value)[0]
  {
    SameFirst(documents, Fills(select), Speaks());
    FirstLeads(policy, Anime, path, documents, select, clash, k, d);
  }

  lemma FirstIsShown(policy: MergePolicy, unicode: Unicode, documents: seq<AnimeDocument>, o: nat, k: int,
                     d: AnimeDocument)
    requires o < |ORDERS| && OneRankSpeaks(policy, ORDERS[o], documents, k)
    requires First(documents, Speaks()) == Some(d)
    ensures Merged(policy, unicode, documents).Ok?
    ensures Shown(o, Merged(policy, unicode, documents).value.value) == d.value.id
  {
    FirstIsOneOf(documents, Speaks(), d);
    match o {
      case 0 => FirstIsBase(policy, unicode, documents, k, d);
      case 1 => FirstLeadsField(policy, TITLES, documents, Titles, SameKey(TextKey(unicode)), k, d);
      case 2 => FirstLeadsField(policy, SUMMARIES, documents, Summaries, SameKey(TextKey(unicode)), k, d);
      case _ => FirstLeadsField(policy, ARTWORK, documents, Artwork, SameKey(ArtworkKey(unicode)), k, d);
    }
  }

  lemma WitnessSpeaks(policy: MergePolicy, path: string, providers: seq<ProviderId>, i: nat, j: nat)
    requires i < j < |providers| && policy.Rank(Anime, path, providers[i]) == policy.Rank(Anime, path, providers[j])
    ensures var documents, k := Witness(providers, i, j), policy.Rank(Anime, path, providers[i]);
            OneRankSpeaks(policy, path, documents, k) && OneRankSpeaks(policy, path, Swapped(documents, i, j), k)
  {
    LoudIsNotSilent();
  }

  lemma LoudIsNotSilent()
    ensures Loud("x").id != Loud("y").id && !IsLoud(SILENT)
  {
    assert "x"[0] != "y"[0];
  }

  /** Two documents that tie in any one of the orders show which of them arrived first. */
  lemma EveryTieShows(policy: MergePolicy, unicode: Unicode, providers: seq<ProviderId>, o: nat, i: nat, j: nat)
    requires o < |ORDERS| && i < j < |providers|
    requires policy.Rank(Anime, ORDERS[o], providers[i]) == policy.Rank(Anime, ORDERS[o], providers[j])
    ensures var documents := Witness(providers, i, j);
            Merged(policy, unicode, Swapped(documents, i, j)) != Merged(policy, unicode, documents)
  {
    var documents, k := Witness(providers, i, j), policy.Rank(Anime, ORDERS[o], providers[i]);
    LoudIsNotSilent();
    WitnessSpeaks(policy, ORDERS[o], providers, i, j);
    FirstSpeakers(providers, i, j, Loud("x"), Loud("y"), SILENT, Speaks());
    FirstIsShown(policy, unicode, documents, o, k, documents[i]);
    FirstIsShown(policy, unicode, Swapped(documents, i, j), o, k, documents[j]);
  }

  lemma TiesMatter(policy: MergePolicy, unicode: Unicode, providers: seq<ProviderId>, o: nat, i: nat, j: nat)
    requires o < |ORDERS| && i < j < |providers|
    requires policy.Rank(Anime, ORDERS[o], providers[i]) == policy.Rank(Anime, ORDERS[o], providers[j])
    ensures !OrderNeverMatters(policy, unicode, providers)
  {
    var documents := Witness(providers, i, j);
    SpeakingIsFrom(providers, i, j, Loud("x"), Loud("y"), SILENT);
    SwapKeepsElements(documents, i, j);
    EveryTieShows(policy, unicode, providers, o, i, j);
    Refutes(policy, unicode, providers, documents, Swapped(documents, i, j));
  }

  lemma Refutes(policy: MergePolicy, unicode: Unicode, providers: seq<ProviderId>, documents: seq<AnimeDocument>,
                arrived: seq<AnimeDocument>)
    requires From(documents, providers) && multiset(arrived) == multiset(documents)
    requires Merged(policy, unicode, arrived) != Merged(policy, unicode, documents)
    ensures !OrderNeverMatters(policy, unicode, providers)
  {
  }

  /** The arrival order never matters, whatever documents the providers send, exactly when no two of the providers share
      a rank in the base order, or in the order of titles, summaries or artwork. */
  lemma OrderNeverMattersIff(policy: MergePolicy, unicode: Unicode, providers: seq<ProviderId>)
    ensures OrderNeverMatters(policy, unicode, providers) <==> RanksDifferEverywhere(policy, providers)
  {
    if RanksDifferEverywhere(policy, providers) {
      DistinctRanksAreEnough(policy, unicode, providers);
    } else {
      var o: nat, i: nat, j: nat :| o < |ORDERS| && i < j < |providers| &&
        policy.Rank(Anime, ORDERS[o], providers[i]) == policy.Rank(Anime, ORDERS[o], providers[j]);
      TiesMatter(policy, unicode, providers, o, i, j);
    }
  }
}
