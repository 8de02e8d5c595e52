/** What a merge can show of the order in which its documents arrived: sorting keeps the first of a tie first. */
module ArrivalOrder {
  import opened MergeLoops
  import opened MergePolicies
  import opened Options
  import opened Provenance
  import opened Retention
  import Sequences
  import StableSort

  // One document of each provider.
  ghost predicate From<D>(documents: seq<Sourced<D>>, providers: seq<ProviderId>) {
    |documents| == |providers| && forall i :: 0 <= i < |documents| ==> documents[i].source.provider == providers[i]
  }

  // No two of the providers share a rank.
  ghost predicate RanksDiffer(policy: MergePolicy, media: MediaKind, path: string, providers: seq<ProviderId>) {
    forall i, j :: 0 <= i < j < |providers| ==>
      policy.Rank(media, path, providers[i]) != policy.Rank(media, path, providers[j])
  }

  lemma TiesNeedOneRank<D>(policy: MergePolicy, media: MediaKind, path: string, documents: seq<Sourced<D>>,
                           providers: seq<ProviderId>)
    requires From(documents, providers) && RanksDiffer(policy, media, path, providers)
    ensures StableSort.TiesAreEqual(documents, RankOf(policy, media, path))
  {
    var rank := RankOf<D>(policy, media, path);
    forall x, y | x in documents && y in documents && rank(x) == rank(y) ensures x == y {
      var i :| 0 <= i < |documents| && documents[i] == x;
      var j :| 0 <= j < |documents| && documents[j] == y;
      assert policy.Rank(media, path, providers[i]) == policy.Rank(media, path, providers[j]);
    }
  }

  // ----- the first that speaks up -----

  function First<T>(s: seq<T>, loud: T -> bool): Option<T> {
    if s == [] then None else if loud(s[0]) then Some(s[0]) else First(s[1..], loud)
  }

  lemma {:induction false} FirstIs<T>(s: seq<T>, loud: T -> bool, i: nat)
    requires i < |s| && loud(s[i]) && forall m :: 0 <= m < i ==> !loud(s[m])
    ensures First(s, loud) == Some(s[i])
  {
    if i > 0 { FirstIs(s[1..], loud, i - 1); }
  }

  lemma {:induction false} FirstIsOneOf<T>(s: seq<T>, loud: T -> bool, d: T)
    requires First(s, loud) == Some(d)
    ensures d in s && loud(d)
  {
    if !loud(s[0]) { FirstIsOneOf(s[1..], loud, d); }
  }

  lemma {:induction false} SameFirst<T>(s: seq<T>, loud: T -> bool, speaks: T -> bool)
    requires forall x <- s :: loud(x) <==> speaks(x)
    ensures First(s, loud) == First(s, speaks)
  {
    if s != [] { SameFirst(s[1..], loud, speaks); }
  }

  lemma {:induction false} InsertKeepsFirst<T>(x: T, s: seq<T>, key: T -> int, loud: T -> bool, k: int)
    requires loud(x) ==> key(x) == k
    requires forall y :: y in s && loud(y) ==> key(y) == k
    ensures First(StableSort.Insert(x, s, key), loud) == First([x] + s, loud)
  {
    assert ([x] + s)[1..] == s;
    if !(s == [] || key(x) <= key(s[0])) {
      InsertKeepsFirst(x, s[1..], key, loud, k);
      assert ([x] + s[1..])[1..] == s[1..];
      assert s[0] in s;
    }
  }

  lemma SortedMembers<T>(s: seq<T>, key: T -> int, x: T)
    ensures x in StableSort.SortByKey(s, key) <==> x in s
  {
    StableSort.SortByKeyIsStable(s, key);
    assert x in multiset(StableSort.SortByKey(s, key)) <==> x in multiset(s);
  }

  // When all that speak up tie, sorting keeps the first of them first.
  lemma {:induction false} SortKeepsFirst<T>(s: seq<T>, key: T -> int, loud: T -> bool, k: int)
    requires forall y :: y in s && loud(y) ==> key(y) == k
    ensures First(StableSort.SortByKey(s, key), loud) == First(s, loud)
  {
    if s != [] {
      var t := StableSort.SortByKey(s[1..], key);
      SortKeepsFirst(s[1..], key, loud, k);
      forall y | y in t ensures y in s { SortedMembers(s[1..], key, y); }
      InsertKeepsFirst(s[0], t, key, loud, k);
      assert ([s[0]] + t)[1..] == t;
    }
  }

  // The head of a sorted list is the first of the least.
  lemma HeadIsFirstLeast<T>(s: seq<T>, key: T -> int, i: nat)
    requires i < |s|
    requires forall m :: 0 <= m < |s| ==> key(s[i]) <= key(s[m])
    requires forall m :: 0 <= m < i ==> key(s[m]) != key(s[i])
    ensures StableSort.SortByKey(s, key) != [] && StableSort.SortByKey(s, key)[0] == s[i]
  {
    var r, least := StableSort.SortByKey(s, key), (x: T) => key(x) == key(s[i]);
    FirstIs(s, least, i);
    SortKeepsFirst(s, key, least, key(s[i]));
    SortedMembers(s, key, s[i]);
    StableSort.SortByKeyIsStable(s, key);
    var n :| 0 <= n < |r| && r[n] == s[i];
    SortedMembers(s, key, r[0]);
    var m :| 0 <= m < |s| && s[m] == r[0];
    assert key(r[0]) <= key(r[n]);
  }

  lemma {:induction false} ObservationsFromFront<T>(documents: seq<Sourced<seq<T>>>)
    requires documents != []
    ensures Observations(documents) == Observed(documents[0]) + Observations(documents[1..])
  {
    var n := |documents| - 1;
    if n == 0 {
      assert documents[..0] == [] && Observations(documents[1..]) == [];
      assert Observations(documents) == [] + Observed(documents[0]);
    } else {
      var rest := documents[1..];
      ObservationsFromFront(documents[..n]);
      assert documents[..n][1..] == rest[..n - 1];
      assert Observations(rest) == Observations(rest[..n - 1]) + Observed(documents[n]);
      Sequences.Associative(Observed(documents[0]), Observations(rest[..n - 1]), Observed(documents[n]));
    }
  }

  // The documents that have something in a field.
  function Fills<D, T>(select: D -> seq<T>): Sourced<D> -> bool {
    (x: Sourced<D>) => select(x.value) != []
  }

  lemma {:induction false} FirstIsObserved<D, T>(documents: seq<Sourced<D>>, select: D -> seq<T>, d: Sourced<D>)
    requires First(documents, Fills(select)) == Some(d)
    ensures var obs := Observations(Project(documents, select));
            select(d.value) != [] && obs != [] && obs[0].value == select(d.value)[0]
  {
    var projected := Project(documents, select);
    ObservationsFromFront(projected);
    assert projected[1..] == Project(documents[1..], select);
    if select(documents[0].value) == [] { FirstIsObserved(documents[1..], select, d); }
  }

  /** When all documents that fill a field tie in its order, the first of them to arrive leads the field. */
  lemma FirstLeads<D, T>(policy: MergePolicy, media: MediaKind, path: string, documents: seq<Sourced<D>>,
                         select: D -> seq<T>, clash: (T, T) -> bool, k: int, d: Sourced<D>)
    requires forall x <- documents :: select(x.value) != [] ==> RankOf(policy, media, path)(x) == k
    requires First(documents, Fills(select)) == Some(d)
    ensures var values := Values(Kept(FieldObservations(policy, media, path, documents, select), clash));
            select(d.value) != [] && values != [] && values[0] == select(d.value)[0]
  {
    SortKeepsFirst(documents, RankOf(policy, media, path), Fills(select), k);
    FirstIsObserved(Ordered(policy, media, path, documents), select, d);
    FirstIsKept(FieldObservations(policy, media, path, documents, select), clash);
  }

  // ----- two that change places -----

  function Swapped<T>(s: seq<T>, i: nat, j: nat): seq<T>
    requires i < j < |s|
  {
    s[i := s[j]][j := s[i]]
  }

  lemma SwapKeepsElements<T>(s: seq<T>, i: nat, j: nat)
    requires i < j < |s|
    ensures multiset(Swapped(s, i, j)) == multiset(s)
  {
    assert s == s[..i] + [s[i]] + s[i + 1..j] + [s[j]] + s[j + 1..];
    assert Swapped(s, i, j) == s[..i] + [s[j]] + s[i + 1..j] + [s[i]] + s[j + 1..];
  }

  // Providers i and j speak, the others are silent.
  function Speaking<D>(providers: seq<ProviderId>, i: nat, j: nat, x: D, y: D, silent: D): seq<Sourced<D>> {
    seq(|providers|, m requires 0 <= m < |providers| =>
      Sourced(if m == i then x else if m == j then y else silent, SourceRef(providers[m], None, None, 0)))
  }

  lemma SpeakingIsFrom<D>(providers: seq<ProviderId>, i: nat, j: nat, x: D, y: D, silent: D)
    ensures From(Speaking(providers, i, j, x, y, silent), providers)
  {
  }

  // The first to speak is the one in the first place, before and after the swap.
  lemma FirstSpeakers<D>(providers: seq<ProviderId>, i: nat, j: nat, x: D, y: D, silent: D, loud: Sourced<D> -> bool)
    requires i < j < |providers|
    requires forall d: Sourced<D> :: loud(d) <==> d.value == x || d.value == y
    requires silent != x && silent != y
    ensures var documents := Speaking(providers, i, j, x, y, silent);
            First(documents, loud) == Some(documents[i]) && First(Swapped(documents, i, j), loud) == Some(documents[j])
  {
    var documents := Speaking(providers, i, j, x, y, silent);
    FirstIs(documents, loud, i);
    FirstIs(Swapped(documents, i, j), loud, i);
  }
}
