/** The stable sort by key behind every merge and the candidate ranking (`slice::sort_by_key`). */
module StableSort {

  // The earlier element goes in front of later elements with the same key.
  function Insert<T>(x: T, s: seq<T>, key: T -> int): seq<T> {
    if s == [] || key(x) <= key(s[0]) then [x] + s else [s[0]] + Insert(x, s[1..], key)
  }

  function SortByKey<T>(s: seq<T>, key: T -> int): seq<T> {
    if s == [] then [] else Insert(s[0], SortByKey(s[1..], key), key)
  }

  ghost predicate Sorted<T>(s: seq<T>, key: T -> int) {
    forall i, j :: 0 <= i < j < |s| ==> key(s[i]) <= key(s[j])
  }

  // The elements with key k, in order.
  function WithKey<T>(s: seq<T>, key: T -> int, k: int): seq<T> {
    if s == [] then []
    else (if key(s[0]) == k then [s[0]] else []) + WithKey(s[1..], key, k)
  }

  // What the standard library promises of a stable sort.
  ghost predicate StablySorts<T>(s: seq<T>, r: seq<T>, key: T -> int) {
    && Sorted(r, key)
    && multiset(r) == multiset(s)
    && forall k :: WithKey(r, key, k) == WithKey(s, key, k)
  }

  lemma {:induction false} InsertKeepsElements<T>(x: T, s: seq<T>, key: T -> int)
    ensures multiset(Insert(x, s, key)) == multiset([x] + s)
  {
    if !(s == [] || key(x) <= key(s[0])) {
      InsertKeepsElements(x, s[1..], key);
      assert s == [s[0]] + s[1..];
      assert multiset([s[0]] + Insert(x, s[1..], key)) == multiset([s[0]]) + multiset([x] + s[1..]);
    }
  }

  lemma {:induction false} InsertAdds<T>(x: T, s: seq<T>, key: T -> int, y: T)
    requires y in Insert(x, s, key)
    ensures y == x || y in s
  {
    if !(s == [] || key(x) <= key(s[0])) && y != s[0] {
      InsertAdds(x, s[1..], key, y);
    }
  }

  lemma {:induction false} InsertSorts<T>(x: T, s: seq<T>, key: T -> int)
    requires Sorted(s, key)
    ensures Sorted(Insert(x, s, key), key)
  {
    if !(s == [] || key(x) <= key(s[0])) {
      var t := Insert(x, s[1..], key);
      InsertSorts(x, s[1..], key);
      forall i | 0 <= i < |t| ensures key(s[0]) <= key(t[i]) {
        InsertAdds(x, s[1..], key, t[i]);
      }
    }
  }

  lemma {:induction false} InsertIsStable<T>(x: T, s: seq<T>, key: T -> int, k: int)
    ensures WithKey(Insert(x, s, key), key, k) == WithKey([x] + s, key, k)
  {
    assert ([x] + s)[1..] == s;
    if !(s == [] || key(x) <= key(s[0])) {
      InsertIsStable(x, s[1..], key, k);
      assert ([x] + s[1..])[1..] == s[1..];
      assert ([s[0]] + Insert(x, s[1..], key))[1..] == Insert(x, s[1..], key);
    }
  }

  lemma {:induction false} SortByKeyIsStable<T>(s: seq<T>, key: T -> int)
    ensures StablySorts(s, SortByKey(s, key), key)
  {
    if s != [] {
      var t := SortByKey(s[1..], key);
      SortByKeyIsStable(s[1..], key);
      InsertSorts(s[0], t, key);
      InsertKeepsElements(s[0], t, key);
      assert s == [s[0]] + s[1..];
      forall k ensures WithKey(SortByKey(s, key), key, k) == WithKey(s, key, k) {
        InsertIsStable(s[0], t, key, k);
        assert ([s[0]] + t)[1..] == t;
      }
    }
  }

  lemma {:induction false} WithKeyHead<T>(s: seq<T>, key: T -> int)
    requires s != [] && Sorted(s, key)
    ensures WithKey(s, key, key(s[0])) != [] && WithKey(s, key, key(s[0]))[0] == s[0]
  {
  }

  lemma {:induction false} WithKeyBounds<T>(s: seq<T>, key: T -> int, k: int)
    ensures forall x :: x in WithKey(s, key, k) <==> x in s && key(x) == k
  {
    if s != [] {
      WithKeyBounds(s[1..], key, k);
      assert s == [s[0]] + s[1..];
    }
  }

  lemma HeadIsLeast<T>(s: seq<T>, r: seq<T>, key: T -> int)
    requires s != [] && r != [] && Sorted(s, key) && Sorted(r, key)
    requires WithKey(s, key, key(s[0])) == WithKey(r, key, key(s[0]))
    ensures key(r[0]) <= key(s[0])
  {
    WithKeyHead(s, key);
    WithKeyBounds(r, key, key(s[0]));
    assert s[0] in WithKey(r, key, key(s[0]));
    var i :| 0 <= i < |r| && r[i] == s[0];
  }

  lemma StableHeadsAgree<T>(s: seq<T>, r: seq<T>, key: T -> int)
    requires Sorted(s, key) && Sorted(r, key) && s != [] && r != []
    requires forall k :: WithKey(s, key, k) == WithKey(r, key, k)
    ensures s[0] == r[0]
  {
    HeadIsLeast(s, r, key);
    HeadIsLeast(r, s, key);
    WithKeyHead(s, key);
    WithKeyHead(r, key);
  }

  lemma WithKeyTail<T>(s: seq<T>, r: seq<T>, key: T -> int, k: int)
    requires s != [] && r != [] && s[0] == r[0] && WithKey(s, key, k) == WithKey(r, key, k)
    ensures WithKey(s[1..], key, k) == WithKey(r[1..], key, k)
  {
    var h := if key(s[0]) == k then [s[0]] else [];
    assert (h + WithKey(s[1..], key, k))[|h|..] == WithKey(s[1..], key, k);
    assert (h + WithKey(r[1..], key, k))[|h|..] == WithKey(r[1..], key, k);
  }

  /** Stability pins the result down: no other list is a stable sort of the input. */
  lemma {:induction false} StableSortIsUnique<T>(s: seq<T>, r: seq<T>, key: T -> int)
    requires Sorted(s, key) && Sorted(r, key)
    requires forall k :: WithKey(s, key, k) == WithKey(r, key, k)
    ensures s == r
  {
    if s == [] {
      if r != [] { WithKeyHead(r, key); assert false; }
    } else if r == [] {
      WithKeyHead(s, key);
      assert false;
    } else {
      StableHeadsAgree(s, r, key);
      forall k ensures WithKey(s[1..], key, k) == WithKey(r[1..], key, k) {
        WithKeyTail(s, r, key, k);
      }
      StableSortIsUnique(s[1..], r[1..], key);
      assert s == [s[0]] + s[1..] && r == [r[0]] + r[1..];
    }
  }

  /** A list that is already sorted is left alone. */
  lemma SortedIsFixed<T>(s: seq<T>, key: T -> int)
    requires Sorted(s, key)
    ensures SortByKey(s, key) == s
  {
    SortByKeyIsStable(s, key);
    StableSortIsUnique(s, SortByKey(s, key), key);
  }

  // Elements that tie are one and the same.
  ghost predicate TiesAreEqual<T>(s: seq<T>, key: T -> int) {
    forall x, y :: x in s && y in s && key(x) == key(y) ==> x == y
  }

  lemma PermutationTail<T>(s: seq<T>, r: seq<T>)
    requires multiset(s) == multiset(r) && s != [] && r != [] && s[0] == r[0]
    ensures multiset(s[1..]) == multiset(r[1..])
  {
    assert s == [s[0]] + s[1..] && r == [r[0]] + r[1..];
    assert multiset(s[1..]) == multiset(s) - multiset{s[0]};
    assert multiset(r[1..]) == multiset(r) - multiset{r[0]};
  }

  lemma SortedHeadsAgree<T>(s: seq<T>, r: seq<T>, key: T -> int)
    requires Sorted(s, key) && Sorted(r, key) && multiset(s) == multiset(r) && s != []
    requires TiesAreEqual(s, key)
    ensures r != [] && s[0] == r[0]
  {
    assert |multiset(s)| == |multiset(r)|;
    assert s[0] in multiset(r) && r[0] in multiset(s);
    assert s[0] in r && r[0] in s;
    assert key(s[0]) == key(r[0]);
  }

  lemma TailKeeps<T>(s: seq<T>, key: T -> int)
    requires s != []
    ensures Sorted(s, key) ==> Sorted(s[1..], key)
    ensures TiesAreEqual(s, key) ==> TiesAreEqual(s[1..], key)
  {
    forall x | x in s[1..] ensures x in s {}
  }

  lemma {:induction false} SortedPermutationsAgree<T>(s: seq<T>, r: seq<T>, key: T -> int)
    requires Sorted(s, key) && Sorted(r, key) && multiset(s) == multiset(r)
    requires TiesAreEqual(s, key)
    ensures s == r
  {
    if s == [] {
      assert |multiset(r)| == 0;
    } else {
      SortedHeadsAgree(s, r, key);
      PermutationTail(s, r);
      TailKeeps(s, key);
      TailKeeps(r, key);
      SortedPermutationsAgree(s[1..], r[1..], key);
      assert s == [s[0]] + s[1..] && r == [r[0]] + r[1..];
    }
  }

  function Without<T(==)>(s: seq<T>, x: T): (r: seq<T>)
    requires x in s
    ensures multiset([x] + r) == multiset(s)
  {
    if s[0] == x then
      assert s == [s[0]] + s[1..];
      s[1..]
    else
      assert s == [s[0]] + s[1..];
      var r := Without(s[1..], x);
      assert [x] + ([s[0]] + r) == [x, s[0]] + r;
      assert multiset([x] + r) == multiset(s[1..]);
      [s[0]] + r
  }

  lemma {:induction false} WithKeyOfPermutation<T>(x: T, s: seq<T>, key: T -> int)
    ensures WithKey([x] + s, key, key(x)) == [x] + WithKey(s, key, key(x))
  {
    assert ([x] + s)[1..] == s;
  }

  lemma OrderForgotten<T>(s: seq<T>, p: seq<T>, key: T -> int)
    requires TiesAreEqual(s, key) && multiset(p) == multiset(s)
    ensures SortByKey(p, key) == SortByKey(s, key)
  {
    var r := SortByKey(s, key);
    SortByKeyIsStable(s, key);
    SortByKeyIsStable(p, key);
    forall x | x in r ensures x in s {
      assert x in multiset(r);
    }
    SortedPermutationsAgree(r, SortByKey(p, key), key);
  }

  lemma TieDecidesHead<T>(s: seq<T>, x: T, y: T, key: T -> int)
    requires x in s && y in s && key(x) == key(y)
    requires SortByKey([x] + Without(s, x), key) == SortByKey([y] + Without(s, y), key)
    ensures x == y
  {
    var px, py := [x] + Without(s, x), [y] + Without(s, y);
    SortByKeyIsStable(px, key);
    SortByKeyIsStable(py, key);
    var k := key(x);
    assert WithKey(px, key, k) == WithKey(py, key, k);
    WithKeyOfPermutation(x, Without(s, x), key);
    WithKeyOfPermutation(y, Without(s, y), key);
    assert WithKey(px, key, k)[0] == x && WithKey(py, key, k)[0] == y;
  }

  ghost predicate Permutation<T>(p: seq<T>, s: seq<T>) {
    multiset(p) == multiset(s)
  }

  ghost predicate ArrivalOrderForgotten<T(!new)>(s: seq<T>, key: T -> int) {
    forall p: seq<T> :: Permutation(p, s) ==> SortByKey(p, key) == SortByKey(s, key)
  }

  lemma ForgottenTie<T(!new)>(s: seq<T>, x: T, y: T, key: T -> int)
    requires ArrivalOrderForgotten(s, key) && x in s && y in s && key(x) == key(y)
    ensures x == y
  {
    assert Permutation([x] + Without(s, x), s);
    assert Permutation([y] + Without(s, y), s);
    TieDecidesHead(s, x, y, key);
  }

  /** Sorting forgets the arrival order exactly when elements that tie are equal. */
  lemma OrderForgottenIff<T(!new)>(s: seq<T>, key: T -> int)
    ensures TiesAreEqual(s, key) <==> ArrivalOrderForgotten(s, key)
  {
    if TiesAreEqual(s, key) {
      forall p: seq<T> | Permutation(p, s) ensures SortByKey(p, key) == SortByKey(s, key) {
        OrderForgotten(s, p, key);
      }
    }
    if ArrivalOrderForgotten(s, key) {
      forall x, y | x in s && y in s && key(x) == key(y) ensures x == y { ForgottenTie(s, x, y, key); }
    }
  }

  // ----- sorting twice -----

  lemma {:induction false} WithKeyMembers<T>(s: seq<T>, key: T -> int, k: int, x: T)
    requires x in WithKey(s, key, k)
    ensures x in s && key(x) == k
  {
    if !(key(s[0]) == k && s[0] == x) { WithKeyMembers(s[1..], key, k, x); }
  }

  lemma {:induction false} WithKeyKeepsOrder<T>(s: seq<T>, first: T -> int, second: T -> int, k: int)
    requires Sorted(s, first)
    ensures Sorted(WithKey(s, second, k), first)
  {
    if s != [] {
      WithKeyKeepsOrder(s[1..], first, second, k);
      var rest := WithKey(s[1..], second, k);
      forall i | 0 <= i < |rest| ensures first(s[0]) <= first(rest[i]) {
        WithKeyMembers(s[1..], second, k, rest[i]);
      }
    }
  }

  lemma {:induction false} WithKeyCounts<T>(s: seq<T>, key: T -> int, k: int, x: T)
    ensures multiset(WithKey(s, key, k))[x] == if key(x) == k then multiset(s)[x] else 0
  {
    if s != [] {
      WithKeyCounts(s[1..], key, k, x);
      assert s == [s[0]] + s[1..];
    }
  }

  /** Sorting by one key and then by another forgets the arrival order when elements that tie in both are equal. */
  lemma TwiceSorted<T(!new)>(s: seq<T>, p: seq<T>, first: T -> int, second: T -> int)
    requires multiset(p) == multiset(s)
    requires forall x, y :: x in s && y in s && first(x) == first(y) && second(x) == second(y) ==> x == y
    ensures SortByKey(SortByKey(p, first), second) == SortByKey(SortByKey(s, first), second)
  {
    var a, b := SortByKey(s, first), SortByKey(p, first);
    SortByKeyIsStable(s, first);
    SortByKeyIsStable(p, first);
    SortByKeyIsStable(a, second);
    SortByKeyIsStable(b, second);
    forall k ensures WithKey(a, second, k) == WithKey(b, second, k) { TiedLikewise(s, a, b, first, second, k); }
    StableSortIsUnique(SortByKey(b, second), SortByKey(a, second), second);
  }

  lemma TiedLikewise<T(!new)>(s: seq<T>, a: seq<T>, b: seq<T>, first: T -> int, second: T -> int, k: int)
    requires Sorted(a, first) && Sorted(b, first) && multiset(a) == multiset(s) == multiset(b)
    requires forall x, y :: x in s && y in s && first(x) == first(y) && second(x) == second(y) ==> x == y
    ensures WithKey(a, second, k) == WithKey(b, second, k)
  {
    var r, t := WithKey(a, second, k), WithKey(b, second, k);
    WithKeyKeepsOrder(a, first, second, k);
    WithKeyKeepsOrder(b, first, second, k);
    forall x ensures multiset(r)[x] == multiset(t)[x] {
      WithKeyCounts(a, second, k, x);
      WithKeyCounts(b, second, k, x);
    }
    forall x | x in r ensures x in s && second(x) == k {
      WithKeyMembers(a, second, k, x);
      assert x in multiset(a);
    }
    SortedPermutationsAgree(r, t, first);
  }
}
