/** Exactly when the arrival order of television documents does not matter. */
module SeriesOrder {
  import opened ArrivalOrder
  import opened Media
  import opened MergeLoops
  import opened MergePolicies
  import opened Options
  import opened SeriesMerge
  import SeriesTheorems

  // Whatever documents the providers send, every arrival order gives the same merge, or the same error.
  ghost predicate OrderNeverMatters(policy: MergePolicy, unicode: Unicode, providers: seq<ProviderId>) {
    forall documents, arrived :: From(documents, providers) && multiset(arrived) == multiset(documents) ==>
      Merged(policy, unicode, arrived) == Merged(policy, unicode, documents)
  }

  // A series without content in one ordering.
  function Bare(ordering: OrderingScheme): Series { Series("", [], [], ordering, [], []) }

  function Speaks(): SeriesDocument -> bool { (d: SeriesDocument) => d.value == Bare(Dvd) || d.value == Bare(Absolute) }

  function Witness(providers: seq<ProviderId>, i: nat, j: nat): seq<SeriesDocument> {
    Speaking(providers, i, j, Bare(Dvd), Bare(Absolute), Bare(Aired))
  }

  ghost predicate AllBare(documents: seq<SeriesDocument>) {
    forall d <- documents :: d.value == Bare(d.value.ordering)
  }

  // The ordering that a merge, or its error, shows besides the aired one.
  function Shown(r: MergeResult<Resolved<Series>>): OrderingScheme {
    match r
    case Ok(resolved) => resolved.value.ordering
    case Err(OrderingMismatch(expected, found)) => if expected == Aired then found else expected
    case Err(NoDocuments) => Aired
  }

  lemma {:induction false} MismatchIsFirst(documents: seq<SeriesDocument>, d: SeriesDocument)
    requires AllBare(documents) && First(documents, Speaks()) == Some(d)
    ensures FirstMismatch(documents, Aired) == Some(d.value.ordering)
  {
    if !Speaks()(documents[0]) { MismatchIsFirst(documents[1..], d); }
  }

  lemma FirstIsShown(policy: MergePolicy, unicode: Unicode, documents: seq<SeriesDocument>, k: int, d: SeriesDocument)
    requires AllBare(documents) && First(documents, Speaks()) == Some(d)
    requires forall x <- documents :: Speaks()(x) ==> RankOf(policy, Television, "series")(x) == k
    ensures Shown(Merged(policy, unicode, documents)) == d.value.ordering
  {
    var rank := RankOf<Series>(policy, Television, "series");
    var base := Ordered(policy, Television, "series", documents);
    SortKeepsFirst(documents, rank, Speaks(), k);
    forall x | x in base ensures x in documents { SortedMembers(documents, rank, x); }
    FirstIsOneOf(base, Speaks(), d);
    if base[0].value.ordering == Aired { MismatchIsFirst(base, d); }
  }

  lemma WitnessSpeaks(policy: MergePolicy, providers: seq<ProviderId>, i: nat, j: nat)
    requires i < j < |providers|
    requires policy.Rank(Television, "series", providers[i]) == policy.Rank(Television, "series", providers[j])
    ensures var documents, k := Witness(providers, i, j), policy.Rank(Television, "series", providers[i]);
            && AllBare(documents) && AllBare(Swapped(documents, i, j))
            && (forall x <- documents :: Speaks()(x) ==> RankOf(policy, Television, "series")(x) == k)
            && (forall x <- Swapped(documents, i, j) :: Speaks()(x) ==> RankOf(policy, Television, "series")(x) == k)
  {
  }

  /** Two documents that tie on the base path show which of them arrived first, if only in the error. */
  lemma EveryTieShows(policy: MergePolicy, unicode: Unicode, providers: seq<ProviderId>, i: nat, j: nat)
    requires i < j < |providers|
    requires policy.Rank(Television, "series", providers[i]) == policy.Rank(Television, "series", providers[j])
    ensures var documents := Witness(providers, i, j);
            Merged(policy, unicode, Swapped(documents, i, j)) != Merged(policy, unicode, documents)
  {
    var documents, k := Witness(providers, i, j), policy.Rank(Television, "series", providers[i]);
    WitnessSpeaks(policy, providers, i, j);
    FirstSpeakers(providers, i, j, Bare(Dvd), Bare(Absolute), Bare(Aired), Speaks());
    FirstIsShown(policy, unicode, documents, k, documents[i]);
    FirstIsShown(policy, unicode, Swapped(documents, i, j), k, documents[j]);
  }

  lemma TiesMatter(policy: MergePolicy, unicode: Unicode, providers: seq<ProviderId>, i: nat, j: nat)
    requires i < j < |providers|
    requires policy.Rank(Television, "series", providers[i]) == policy.Rank(Television, "series", providers[j])
    ensures !OrderNeverMatters(policy, unicode, providers)
  {
    var documents := Witness(providers, i, j);
    SpeakingIsFrom(providers, i, j, Bare(Dvd), Bare(Absolute), Bare(Aired));
    SwapKeepsElements(documents, i, j);
    EveryTieShows(policy, unicode, providers, i, j);
    Refutes(policy, unicode, providers, documents, Swapped(documents, i, j));
  }

  lemma Refutes(policy: MergePolicy, unicode: Unicode, providers: seq<ProviderId>, documents: seq<SeriesDocument>,
                arrived: seq<SeriesDocument>)
    requires From(documents, providers) && multiset(arrived) == multiset(documents)
    requires Merged(policy, unicode, arrived) != Merged(policy, unicode, documents)
    ensures !OrderNeverMatters(policy, unicode, providers)
  {
  }

  /** The arrival order never matters, whatever documents the providers send, exactly when no two of the providers share
      a rank on the base path. */
  lemma OrderNeverMattersIff(policy: MergePolicy, unicode: Unicode, providers: seq<ProviderId>)
    ensures OrderNeverMatters(policy, unicode, providers) <==> RanksDiffer(policy, Television, "series", providers)
  {
    if RanksDiffer(policy, Television, "series", providers) {
      forall documents, arrived | From(documents, providers) && multiset(arrived) == multiset(documents)
        ensures Merged(policy, unicode, arrived) == Merged(policy, unicode, documents)
      {
        TiesNeedOneRank(policy, Television, "series", documents, providers);
        SeriesTheorems.ArrivalOrderDoesNotMatter(policy, unicode, documents, arrived);
      }
    } else {
      var i: nat, j: nat :| i < j < |providers| &&
        policy.Rank(Television, "series", providers[i]) == policy.Rank(Television, "series", providers[j]);
      TiesMatter(policy, unicode, providers, i, j);
    }
  }
}
