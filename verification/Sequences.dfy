/** Sequence facts the verifier needs to be reminded of. */
module Sequences {
  lemma Associative<T>(a: seq<T>, b: seq<T>, c: seq<T>)
    ensures a + (b + c) == (a + b) + c
  {
  }

  lemma SameMembers<T>(a: seq<T>, b: seq<T>, x: T)
    requires multiset(a) == multiset(b)
    ensures x in a <==> x in b
  {
    assert x in a <==> x in multiset(a);
    assert x in b <==> x in multiset(b);
  }

  lemma SplitLast<T>(s: seq<T>, n: nat)
    requires |s| == n + 1
    ensures s == s[..n] + [s[n]]
  {
  }

  // One value per element.
  function Each<T, U>(s: seq<T>, value: T -> U): seq<U> {
    seq(|s|, i requires 0 <= i < |s| => value(s[i]))
  }

  lemma EachStep<T, U>(s: seq<T>, value: T -> U, j: nat)
    requires j < |s|
    ensures Each(s[..j + 1], value) == Each(s[..j], value) + [value(s[j])]
  {
  }

  // One list per key, one after another.
  function Chain<K, T>(keys: seq<K>, list: K -> seq<T>): seq<T> {
    if keys == [] then [] else Chain(keys[..|keys| - 1], list) + list(keys[|keys| - 1])
  }

  // The elements to keep, in order.
  function Filtered<T>(s: seq<T>, keep: T -> bool): (r: seq<T>)
    ensures forall i :: 0 <= i < |r| ==> keep(r[i]) && r[i] in s
  {
    if s == [] then [] else Filtered(s[..|s| - 1], keep) + if keep(s[|s| - 1]) then [s[|s| - 1]] else []
  }

  lemma {:induction false} FilteredIff<T>(s: seq<T>, keep: T -> bool, x: T)
    ensures x in Filtered(s, keep) <==> x in s && keep(x)
  {
    if s != [] {
      SplitLast(s, |s| - 1);
      FilteredIff(s[..|s| - 1], keep, x);
    }
  }

  lemma {:induction false} FilteredOne<T>(s: seq<T>, keep: T -> bool, v: nat)
    requires v < |s| && keep(s[v]) && forall u :: 0 <= u < |s| && u != v ==> !keep(s[u])
    ensures Filtered(s, keep) == [s[v]]
  {
    var n := |s| - 1;
    if v < n {
      FilteredOne(s[..n], keep, v);
    } else {
      FilteredNone(s[..n], keep);
    }
  }

  lemma {:induction false} FilteredNone<T>(s: seq<T>, keep: T -> bool)
    requires forall u :: 0 <= u < |s| ==> !keep(s[u])
    ensures Filtered(s, keep) == []
  {
    if s != [] { FilteredNone(s[..|s| - 1], keep); }
  }

  lemma {:induction false} FilteredAll<T>(s: seq<T>, keep: T -> bool)
    requires forall i :: 0 <= i < |s| ==> keep(s[i])
    ensures Filtered(s, keep) == s
  {
    if s != [] {
      SplitLast(s, |s| - 1);
      FilteredAll(s[..|s| - 1], keep);
    }
  }

  lemma {:induction false} FilteredCounts<T>(s: seq<T>, keep: T -> bool, x: T)
    ensures multiset(Filtered(s, keep))[x] == if keep(x) then multiset(s)[x] else 0
  {
    if s != [] {
      SplitLast(s, |s| - 1);
      FilteredCounts(s[..|s| - 1], keep, x);
    }
  }

  lemma FilteredOfPermutation<T(!new)>(s: seq<T>, t: seq<T>, keep: T -> bool)
    requires multiset(s) == multiset(t)
    ensures multiset(Filtered(s, keep)) == multiset(Filtered(t, keep))
    ensures |Filtered(s, keep)| == |Filtered(t, keep)|
  {
    forall x ensures multiset(Filtered(s, keep))[x] == multiset(Filtered(t, keep))[x] {
      FilteredCounts(s, keep, x);
      FilteredCounts(t, keep, x);
    }
    assert |Filtered(s, keep)| == |multiset(Filtered(s, keep))|;
    assert multiset(Filtered(s, keep)) == multiset(Filtered(t, keep));
  }

  lemma {:induction false} FilteredShrinks<T>(s: seq<T>, keep: T -> bool, also: T -> bool)
    ensures |Filtered(Filtered(s, keep), also)| <= |Filtered(s, also)|
  {
    if s != [] {
      var n := |s| - 1;
      FilteredShrinks(s[..n], keep, also);
      var front := Filtered(s[..n], keep);
      assert (front + [s[n]])[..|front|] == front && front + [] == front;
    }
  }

  lemma {:induction false} FilteredOfConcatenation<T>(a: seq<T>, b: seq<T>, keep: T -> bool)
    ensures Filtered(a + b, keep) == Filtered(a, keep) + Filtered(b, keep)
  {
    if b == [] {
      assert a + b == a;
    } else {
      var n := |b| - 1;
      FilteredOfConcatenation(a, b[..n], keep);
      assert (a + b)[..|a + b| - 1] == a + b[..n];
    }
  }

  lemma FilteredStep<T>(s: seq<T>, i: nat, keep: T -> bool)
    requires i < |s|
    ensures Filtered(s[..i + 1], keep) == Filtered(s[..i], keep) + if keep(s[i]) then [s[i]] else []
  {
    assert s[..i + 1][..i] == s[..i];
  }

  lemma {:induction false} SomeKept<T>(s: seq<T>, keep: T -> bool, i: nat)
    requires i < |s| && keep(s[i])
    ensures Filtered(s, keep) != []
  {
    if i < |s| - 1 { SomeKept(s[..|s| - 1], keep, i); }
  }

  lemma {:induction false} TwoKept<T>(s: seq<T>, keep: T -> bool, i: nat, j: nat)
    requires i < j < |s| && keep(s[i]) && keep(s[j])
    ensures |Filtered(s, keep)| >= 2
  {
    var n := |s| - 1;
    if j < n {
      TwoKept(s[..n], keep, i, j);
    } else {
      SomeKept(s[..n], keep, i);
    }
  }

  lemma {:induction false} KeptAt<T>(s: seq<T>, keep: T -> bool) returns (i: nat)
    requires Filtered(s, keep) != []
    ensures i < |s| && keep(s[i])
  {
    if keep(s[|s| - 1]) { i := |s| - 1; } else { i := KeptAt(s[..|s| - 1], keep); }
  }

  lemma {:induction false} KeptTwice<T>(s: seq<T>, keep: T -> bool) returns (i: nat, j: nat)
    requires |Filtered(s, keep)| >= 2
    ensures i < j < |s| && keep(s[i]) && keep(s[j])
  {
    var n := |s| - 1;
    if keep(s[n]) {
      j := n;
      i := KeptAt(s[..n], keep);
    } else {
      i, j := KeptTwice(s[..n], keep);
    }
  }

  lemma {:induction false} FilteredTwice<T(!new)>(s: seq<T>, first: T -> bool, second: T -> bool, both: T -> bool)
    requires forall x :: both(x) <==> first(x) && second(x)
    ensures Filtered(Filtered(s, first), second) == Filtered(s, both)
  {
    if s != [] {
      var n := |s| - 1;
      FilteredTwice(s[..n], first, second, both);
      var front := Filtered(s[..n], first);
      if first(s[n]) { assert (front + [s[n]])[..|front|] == front; } else { assert front + [] == front; }
    }
  }

  lemma {:induction false} SameOnMembers<T>(s: seq<T>, p: T -> bool, q: T -> bool)
    requires forall x :: x in s ==> (p(x) <==> q(x))
    ensures Filtered(s, p) == Filtered(s, q)
  {
    if s != [] {
      SplitLast(s, |s| - 1);
      SameOnMembers(s[..|s| - 1], p, q);
    }
  }

  lemma {:induction false} OneKept<T>(s: seq<T>, keep: T -> bool) returns (v: nat)
    requires |Filtered(s, keep)| == 1
    ensures v < |s| && keep(s[v]) && Filtered(s, keep) == [s[v]]
    ensures forall u :: 0 <= u < |s| && u != v ==> !keep(s[u])
  {
    v := KeptAt(s, keep);
    forall u | 0 <= u < |s| && u != v ensures !keep(s[u]) {
      if keep(s[u]) { TwoKept(s, keep, if u < v then u else v, if u < v then v else u); }
    }
    FilteredOne(s, keep, v);
  }
}
