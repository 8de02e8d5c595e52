/** Which document a merge listens to first, read off the policy's own maps. */
module Precedence {
  import opened MergeLoops
  import opened MergePolicies
  import opened Options
  import opened OrderedSets
  import opened Provenance
  import opened Retention
  import opened Sequences
  import StableSort

  // ----- two providers -----

  // The order names p, and not q before it.
  ghost predicate Before(order: seq<ProviderId>, p: ProviderId, q: ProviderId) {
    exists i :: 0 <= i < |order| && i < UNRANKED && order[i] == p && q !in order[..i + 1]
  }

  // The order of the field decides; without one, that of the media; without either, the global one.
  ghost predicate Prefers(policy: MergePolicy, media: MediaKind, path: string, p: ProviderId, q: ProviderId) {
    && (path in policy.fieldOrder ==> Before(policy.fieldOrder[path], p, q))
    && (path !in policy.fieldOrder && media in policy.mediaOrder ==> Before(policy.mediaOrder[media], p, q))
    && (path !in policy.fieldOrder && media !in policy.mediaOrder ==> Before(policy.globalOrder, p, q))
  }

  lemma {:induction false} FirstNamed(order: seq<ProviderId>, p: ProviderId)
    ensures Position(order, p) <= UNRANKED
    ensures Position(order, p) < UNRANKED ==>
              Position(order, p) < |order| && order[Position(order, p)] == p
  {
    if order != [] { FirstNamed(order[1..], p); }
  }

  lemma {:induction false} NamedAt(order: seq<ProviderId>, p: ProviderId, k: nat)
    requires k < |order| && order[k] == p
    ensures Position(order, p) <= k
  {
    if k > 0 { NamedAt(order[1..], p, k - 1); }
  }

  lemma {:induction false} NotNamedUpTo(order: seq<ProviderId>, q: ProviderId, i: nat)
    requires i < |order| && i < UNRANKED && q !in order[..i + 1]
    ensures i < Position(order, q)
  {
    assert order[0] == order[..i + 1][0];
    if i > 0 {
      assert order[1..][..i] == order[..i + 1][1..];
      NotNamedUpTo(order[1..], q, i - 1);
    }
  }

  lemma BeforeIff(order: seq<ProviderId>, p: ProviderId, q: ProviderId)
    ensures Position(order, p) < Position(order, q) <==> Before(order, p, q)
  {
    var m, n := Position(order, p), Position(order, q);
    FirstNamed(order, p);
    FirstNamed(order, q);
    if m < n {
      forall k | 0 <= k <= m ensures order[k] != q {
        if order[k] == q { NamedAt(order, q, k); }
      }
      assert q !in order[..m + 1];
    }
    if Before(order, p, q) {
      var i :| 0 <= i < |order| && i < UNRANKED && order[i] == p && q !in order[..i + 1];
      NamedAt(order, p, i);
      NotNamedUpTo(order, q, i);
    }
  }

  /** The ranks of two providers follow the policy: field before media before global, and a provider that the order
      does not name behind every one that it names. */
  lemma RanksFollowThePolicy(policy: MergePolicy, media: MediaKind, path: string, p: ProviderId, q: ProviderId)
    ensures policy.Rank(media, path, p) < policy.Rank(media, path, q) <==> Prefers(policy, media, path, p, q)
  {
    BeforeIff(policy.OrderFor(media, path), p, q);
  }

  // ----- two documents -----

  // Documents are sorted by one path after another, so the last one decides first; ties keep the order of arrival.
  ghost predicate Ahead<T>(policy: MergePolicy, media: MediaKind, paths: seq<string>, documents: seq<Sourced<T>>,
                           k: nat, l: nat)
    decreases |paths|
  {
    && k < |documents| && l < |documents|
    && if paths == [] then k < l
       else
         var path, p, q := paths[|paths| - 1], documents[k].source.provider, documents[l].source.provider;
         || Prefers(policy, media, path, p, q)
         || (!Prefers(policy, media, path, q, p) &&
             Ahead(policy, media, paths[..|paths| - 1], documents, k, l))
  }

  lemma {:induction false} NobodyIsAheadOfHimself<T>(policy: MergePolicy, media: MediaKind, paths: seq<string>,
                                                     documents: seq<Sourced<T>>, k: nat)
    ensures !Ahead(policy, media, paths, documents, k, k)
  {
    if paths != [] && k < |documents| {
      var path, p := paths[|paths| - 1], documents[k].source.provider;
      RanksFollowThePolicy(policy, media, path, p, p);
      NobodyIsAheadOfHimself(policy, media, paths[..|paths| - 1], documents, k);
    }
  }

  lemma {:induction false} OneGoesFirst<T>(policy: MergePolicy, media: MediaKind, paths: seq<string>,
                                           documents: seq<Sourced<T>>, k: nat, l: nat)
    requires Ahead(policy, media, paths, documents, k, l)
    ensures !Ahead(policy, media, paths, documents, l, k)
  {
    if paths != [] {
      var path, p, q := paths[|paths| - 1], documents[k].source.provider, documents[l].source.provider;
      RanksFollowThePolicy(policy, media, path, p, q);
      RanksFollowThePolicy(policy, media, path, q, p);
      if !Prefers(policy, media, path, p, q) {
        OneGoesFirst(policy, media, paths[..|paths| - 1], documents, k, l);
      }
    }
  }

  // The positions of the documents in the order in which they speak.
  function RankAt<T>(policy: MergePolicy, media: MediaKind, path: string, documents: seq<Sourced<T>>): nat -> int {
    (k: nat) => if k < |documents| then policy.Rank(media, path, documents[k].source.provider) else 0
  }

  function Upto(n: nat): (r: seq<nat>)
    ensures |r| == n && forall i :: 0 <= i < n ==> r[i] == i
  {
    if n == 0 then [] else Upto(n - 1) + [n - 1]
  }

  function Turns<T>(policy: MergePolicy, media: MediaKind, paths: seq<string>, documents: seq<Sourced<T>>): seq<nat> {
    if paths == [] then Upto(|documents|)
    else
      var path := paths[|paths| - 1];
      StableSort.SortByKey(Turns(policy, media, paths[..|paths| - 1], documents),
                           RankAt(policy, media, path, documents))
  }

  // What the elements of a list stand for, those that stand for nothing left out.
  function Chosen<S, T>(s: seq<S>, choose: S -> Option<T>): seq<T> {
    if s == [] then []
    else (if choose(s[0]).Some? then [choose(s[0]).value] else []) + Chosen(s[1..], choose)
  }

  ghost predicate SameKeys<S(!new), T>(choose: S -> Option<T>, key: S -> int, other: T -> int) {
    forall x :: choose(x).Some? ==> other(choose(x).value) == key(x)
  }

  lemma {:induction false} ChosenComesFrom<S, T>(s: seq<S>, choose: S -> Option<T>, y: T)
    ensures y in Chosen(s, choose) <==> exists x <- s :: choose(x) == Some(y)
  {
    if s != [] {
      ChosenComesFrom(s[1..], choose, y);
      assert s == [s[0]] + s[1..];
    }
  }

  lemma ChosenStep<S, T>(x: S, s: seq<S>, choose: S -> Option<T>)
    ensures Chosen([x] + s, choose) ==
            if choose(x).Some? then [choose(x).value] + Chosen(s, choose) else Chosen(s, choose)
  {
    assert ([x] + s)[1..] == s;
  }

  lemma InsertAtFront<S(!new), T>(x: S, s: seq<S>, choose: S -> Option<T>, key: S -> int, other: T -> int)
    requires SameKeys(choose, key, other) && StableSort.Sorted(s, key) && choose(x).Some?
    requires s == [] || key(x) <= key(s[0])
    ensures StableSort.Insert(choose(x).value, Chosen(s, choose), other) == [choose(x).value] + Chosen(s, choose)
  {
    if Chosen(s, choose) != [] {
      var first := Chosen(s, choose)[0];
      ChosenComesFrom(s, choose, first);
      var y :| y in s && choose(y) == Some(first);
    }
  }

  lemma InsertBehind<T>(y: T, head: T, tail: seq<T>, other: T -> int)
    requires other(y) > other(head)
    ensures StableSort.Insert(y, [head] + tail, other) == [head] + StableSort.Insert(y, tail, other)
  {
    assert ([head] + tail)[1..] == tail;
  }

  lemma {:induction false} InsertCommutes<S(!new), T>(x: S, s: seq<S>, choose: S -> Option<T>, key: S -> int,
                                                     other: T -> int)
    requires SameKeys(choose, key, other) && StableSort.Sorted(s, key)
    ensures Chosen(StableSort.Insert(x, s, key), choose) ==
            if choose(x).Some? then StableSort.Insert(choose(x).value, Chosen(s, choose), other) else Chosen(s, choose)
  {
    if s == [] || key(x) <= key(s[0]) {
      ChosenStep(x, s, choose);
      if choose(x).Some? { InsertAtFront(x, s, choose, key, other); }
    } else {
      InsertCommutes(x, s[1..], choose, key, other);
      ChosenStep(s[0], StableSort.Insert(x, s[1..], key), choose);
      ChosenStep(s[0], s[1..], choose);
      assert s == [s[0]] + s[1..];
      if choose(x).Some? && choose(s[0]).Some? {
        assert other(choose(x).value) == key(x) && other(choose(s[0]).value) == key(s[0]);
        InsertBehind(choose(x).value, choose(s[0]).value, Chosen(s[1..], choose), other);
      }
    }
  }

  // Sorting and leaving out commute.
  lemma {:induction false} SortCommutes<S(!new), T>(s: seq<S>, choose: S -> Option<T>, key: S -> int, other: T -> int)
    requires SameKeys(choose, key, other)
    ensures Chosen(StableSort.SortByKey(s, key), choose) == StableSort.SortByKey(Chosen(s, choose), other)
  {
    if s != [] {
      SortCommutes(s[1..], choose, key, other);
      SortStep(s[0], s[1..], choose, key, other);
      assert s == [s[0]] + s[1..];
    }
  }

  lemma SortStep<S(!new), T>(x: S, s: seq<S>, choose: S -> Option<T>, key: S -> int, other: T -> int)
    requires SameKeys(choose, key, other)
    requires Chosen(StableSort.SortByKey(s, key), choose) == StableSort.SortByKey(Chosen(s, choose), other)
    ensures Chosen(StableSort.SortByKey([x] + s, key), choose) ==
            StableSort.SortByKey(Chosen([x] + s, choose), other)
  {
    StableSort.SortByKeyIsStable(s, key);
    InsertCommutes(x, StableSort.SortByKey(s, key), choose, key, other);
    ChosenStep(x, s, choose);
    assert ([x] + s)[1..] == s;
    if choose(x).Some? {
      var rest := Chosen(s, choose);
      assert ([choose(x).value] + rest)[1..] == rest;
    }
  }

  lemma {:induction false} ChosenMore<S, T>(s: seq<S>, x: S, choose: S -> Option<T>)
    ensures Chosen(s + [x], choose) == Chosen(s, choose) + Chosen([x], choose)
  {
    if s == [] {
      assert [] + [x] == [x];
      assert [] + Chosen([x], choose) == Chosen([x], choose);
    } else {
      ChosenMore(s[1..], x, choose);
      assert (s + [x])[1..] == s[1..] + [x];
      var head := if choose(s[0]).Some? then [choose(s[0]).value] else [];
      Associative(head, Chosen(s[1..], choose), Chosen([x], choose));
    }
  }

  // ----- the turns -----

  // Sorting refines the order that a list already has.
  ghost predicate Refines<T(!new)>(after: (T, T) -> bool, key: T -> int, before: (T, T) -> bool) {
    forall x, y :: key(x) < key(y) || (key(x) == key(y) && before(x, y)) ==> after(x, y)
  }

  lemma {:induction false} InsertAscends<T(!new)>(x: T, s: seq<T>, key: T -> int, before: (T, T) -> bool,
                                                  after: (T, T) -> bool)
    requires Refines(after, key, before) && StrictlyAscending(s, after) && StableSort.Sorted(s, key)
    requires forall y :: y in s ==> before(x, y)
    ensures StrictlyAscending(StableSort.Insert(x, s, key), after)
  {
    if s == [] || key(x) <= key(s[0]) {
      forall j | 0 <= j < |s| ensures after(x, s[j]) { assert s[j] in s && key(s[0]) <= key(s[j]); }
    } else {
      var rest := StableSort.Insert(x, s[1..], key);
      InsertAscends(x, s[1..], key, before, after);
      forall j | 0 <= j < |rest| ensures after(s[0], rest[j]) {
        StableSort.InsertAdds(x, s[1..], key, rest[j]);
      }
    }
  }

  lemma {:induction false} SortAscends<T(!new)>(s: seq<T>, key: T -> int, before: (T, T) -> bool,
                                                after: (T, T) -> bool)
    requires Refines(after, key, before) && StrictlyAscending(s, before)
    ensures StrictlyAscending(StableSort.SortByKey(s, key), after)
  {
    if s != [] {
      SortAscends(s[1..], key, before, after);
      StableSort.SortByKeyIsStable(s[1..], key);
      forall y | y in StableSort.SortByKey(s[1..], key) ensures before(s[0], y) {
        SameMembers(StableSort.SortByKey(s[1..], key), s[1..], y);
        assert y in s[1..];
      }
      InsertAscends(s[0], StableSort.SortByKey(s[1..], key), key, before, after);
    }
  }

  ghost function InTurn<T>(policy: MergePolicy, media: MediaKind, paths: seq<string>, documents: seq<Sourced<T>>)
    : (nat, nat) -> bool
  {
    (k: nat, l: nat) => k < |documents| && l < |documents| ==> Ahead(policy, media, paths, documents, k, l)
  }

  lemma InTurnRefines<T>(policy: MergePolicy, media: MediaKind, paths: seq<string>, documents: seq<Sourced<T>>)
    requires paths != []
    ensures var path, others := paths[|paths| - 1], paths[..|paths| - 1];
            Refines(InTurn(policy, media, paths, documents), RankAt(policy, media, path, documents),
                    InTurn(policy, media, others, documents))
  {
    var path, others := paths[|paths| - 1], paths[..|paths| - 1];
    var key, before := RankAt(policy, media, path, documents), InTurn(policy, media, others, documents);
    forall k: nat, l: nat | key(k) < key(l) || (key(k) == key(l) && before(k, l))
      ensures InTurn(policy, media, paths, documents)(k, l)
    {
      if k < |documents| && l < |documents| {
        var p, q := documents[k].source.provider, documents[l].source.provider;
        RanksFollowThePolicy(policy, media, path, p, q);
        RanksFollowThePolicy(policy, media, path, q, p);
      }
    }
  }

  lemma {:induction false} TurnsAscend<T>(policy: MergePolicy, media: MediaKind, paths: seq<string>,
                                          documents: seq<Sourced<T>>)
    ensures StrictlyAscending(Turns(policy, media, paths, documents), InTurn(policy, media, paths, documents))
    ensures forall k: nat :: k in Turns(policy, media, paths, documents) <==> k < |documents|
  {
    if paths == [] {
      forall k: nat ensures k in Upto(|documents|) <==> k < |documents| {
        if k < |documents| { assert Upto(|documents|)[k] == k; }
      }
    } else {
      var path, others := paths[|paths| - 1], paths[..|paths| - 1];
      var turns, key := Turns(policy, media, others, documents), RankAt(policy, media, path, documents);
      TurnsAscend(policy, media, others, documents);
      InTurnRefines(policy, media, paths, documents);
      SortAscends(turns, key, InTurn(policy, media, others, documents), InTurn(policy, media, paths, documents));
      StableSort.SortByKeyIsStable(turns, key);
      forall k ensures k in StableSort.SortByKey(turns, key) <==> k in turns {
        SameMembers(StableSort.SortByKey(turns, key), turns, k);
      }
    }
  }
}
