/** Ordered sets (`BTreeSet`): the ascending listing of a finite set. */
module OrderedSets {

  ghost predicate StrictTotal<T(!new)>(less: (T, T) -> bool) {
    && (forall x :: !less(x, x))
    && (forall x, y, z :: less(x, y) && less(y, z) ==> less(x, z))
    && (forall x, y :: x == y || less(x, y) || less(y, x))
  }

  ghost predicate Least<T>(s: set<T>, m: T, less: (T, T) -> bool) {
    m in s && forall x :: x in s ==> x == m || less(m, x)
  }

  ghost predicate StrictlyAscending<T>(s: seq<T>, less: (T, T) -> bool) {
    forall i, j :: 0 <= i < j < |s| ==> less(s[i], s[j])
  }

  lemma LeastExists<T(!new)>(s: set<T>, less: (T, T) -> bool)
    requires StrictTotal(less) && s != {}
    ensures exists m :: Least(s, m, less)
  {
    var a :| a in s;
    if s == {a} {
      assert Least(s, a, less);
    } else {
      LeastExists(s - {a}, less);
      var m :| Least(s - {a}, m, less);
      var n := if less(a, m) then a else m;
      forall x | x in s ensures x == n || less(n, x) {
        if x != a { assert x in s - {a}; }
      }
      assert Least(s, n, less);
    }
  }

  /** The elements of a set in the order an ordered set iterates over them. */
  ghost function Ascending<T(!new)>(s: set<T>, less: (T, T) -> bool): (r: seq<T>)
    requires StrictTotal(less)
    ensures StrictlyAscending(r, less)
    ensures forall x :: x in r <==> x in s
  {
    if s == {} then []
    else
      LeastExists(s, less);
      var m :| Least(s, m, less);
      [m] + Ascending(s - {m}, less)
  }

  lemma HasElement<T>(s: seq<T>)
    requires s != []
    ensures exists x :: x in s
  {
    assert s[0] in s;
  }

  lemma {:induction false} ListingsAgree<T(!new)>(r: seq<T>, t: seq<T>, less: (T, T) -> bool)
    requires StrictTotal(less)
    requires StrictlyAscending(r, less) && StrictlyAscending(t, less)
    requires forall x :: x in r <==> x in t
    ensures r == t
  {
    if r == [] {
      if t != [] { HasElement(t); }
    } else {
      assert r[0] in t;
      assert t[0] in r;
      assert r[0] == t[0];
      assert r == [r[0]] + r[1..] && t == [t[0]] + t[1..];
      assert r[0] !in r[1..] && t[0] !in t[1..];
      forall x ensures x in r[1..] <==> x in t[1..] {
        assert x in r <==> x == r[0] || x in r[1..];
        assert x in t <==> x == t[0] || x in t[1..];
      }
      ListingsAgree(r[1..], t[1..], less);
    }
  }

  /** Taking the least element first is how the listing starts. */
  lemma AscendingStep<T(!new)>(s: set<T>, m: T, less: (T, T) -> bool)
    requires StrictTotal(less) && Least(s, m, less)
    ensures Ascending(s, less) == [m] + Ascending(s - {m}, less)
  {
    var t := Ascending(s - {m}, less);
    forall x ensures x in [m] + t <==> x in s {
    }
    assert forall i :: 0 <= i < |t| ==> t[i] in s - {m};
    ListingsAgree(Ascending(s, less), [m] + t, less);
  }

  /** The next element an iteration over an ordered set yields. */
  method TakeFirst<T(!new, ==)>(s: set<T>, less: (T, T) -> bool) returns (m: T)
    requires StrictTotal(less) && s != {}
    ensures Least(s, m, less)
    ensures Ascending(s, less) == [m] + Ascending(s - {m}, less)
  {
    LeastExists(s, less);
    m :| m in s && forall x :: x in s ==> x == m || less(m, x);
    AscendingStep(s, m, less);
  }

  predicate NumberLess(a: nat, b: nat) { a < b }

  lemma NumbersAreOrdered()
    ensures StrictTotal(NumberLess)
  {}
}
