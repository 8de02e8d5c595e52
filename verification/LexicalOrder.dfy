/** The byte-wise order of names, the component-wise order of paths, and sorting by such an order. */
module LexicalOrder {
  import opened OrderedSets

  predicate CharBefore(a: char, b: char) { a < b }

  // The order of the first difference; a proper prefix comes first.
  predicate Before<T(==)>(a: seq<T>, b: seq<T>, less: (T, T) -> bool) {
    b != [] && (a == [] || less(a[0], b[0]) || (a[0] == b[0] && Before(a[1..], b[1..], less)))
  }

  predicate NameBefore(a: string, b: string) { Before(a, b, CharBefore) }

  predicate PathBefore(a: seq<string>, b: seq<string>) { Before(a, b, NameBefore) }

  lemma {:induction false} BeforeIsIrreflexive<T(!new)>(a: seq<T>, less: (T, T) -> bool)
    requires StrictTotal(less)
    ensures !Before(a, a, less)
  {
    if a != [] { BeforeIsIrreflexive(a[1..], less); }
  }

  lemma {:induction false} BeforeIsTransitive<T(!new)>(a: seq<T>, b: seq<T>, c: seq<T>, less: (T, T) -> bool)
    requires StrictTotal(less) && Before(a, b, less) && Before(b, c, less)
    ensures Before(a, c, less)
  {
    if a != [] && a[0] == b[0] == c[0] && Before(a[1..], b[1..], less) && Before(b[1..], c[1..], less) {
      BeforeIsTransitive(a[1..], b[1..], c[1..], less);
    }
  }

  lemma {:induction false} BeforeIsTotal<T(!new)>(a: seq<T>, b: seq<T>, less: (T, T) -> bool)
    requires StrictTotal(less)
    ensures a == b || Before(a, b, less) || Before(b, a, less)
  {
    if a != [] && b != [] && a[0] == b[0] {
      BeforeIsTotal(a[1..], b[1..], less);
      assert a == [a[0]] + a[1..] && b == [b[0]] + b[1..];
    }
  }

  lemma NameOrder()
    ensures StrictTotal(NameBefore)
  {
    forall a: string ensures !NameBefore(a, a) { BeforeIsIrreflexive(a, CharBefore); }
    forall a: string, b: string, c: string | NameBefore(a, b) && NameBefore(b, c) ensures NameBefore(a, c) {
      BeforeIsTransitive(a, b, c, CharBefore);
    }
    forall a: string, b: string ensures a == b || NameBefore(a, b) || NameBefore(b, a) {
      BeforeIsTotal(a, b, CharBefore);
    }
  }

  lemma PathOrder()
    ensures StrictTotal(PathBefore)
  {
    NameOrder();
    forall a: seq<string> ensures !PathBefore(a, a) { BeforeIsIrreflexive(a, NameBefore); }
    forall a: seq<string>, b: seq<string>, c: seq<string> | PathBefore(a, b) && PathBefore(b, c)
      ensures PathBefore(a, c)
    {
      BeforeIsTransitive(a, b, c, NameBefore);
    }
    forall a: seq<string>, b: seq<string> ensures a == b || PathBefore(a, b) || PathBefore(b, a) {
      BeforeIsTotal(a, b, NameBefore);
    }
  }

  // ----- sorting -----

  function InsertInOrder<T>(x: T, s: seq<T>, less: (T, T) -> bool): seq<T> {
    if s == [] || !less(s[0], x) then [x] + s else [s[0]] + InsertInOrder(x, s[1..], less)
  }

  function Sort<T>(s: seq<T>, less: (T, T) -> bool): seq<T> {
    if s == [] then [] else InsertInOrder(s[0], Sort(s[1..], less), less)
  }

  ghost predicate InOrder<T>(s: seq<T>, less: (T, T) -> bool) {
    forall i, j :: 0 <= i < j < |s| ==> !less(s[j], s[i])
  }

  lemma {:induction false} InsertKeepsElements<T>(x: T, s: seq<T>, less: (T, T) -> bool)
    ensures multiset(InsertInOrder(x, s, less)) == multiset{x} + multiset(s)
  {
    if !(s == [] || !less(s[0], x)) {
      InsertKeepsElements(x, s[1..], less);
      assert s == [s[0]] + s[1..];
    }
  }

  lemma {:induction false} SortKeepsElements<T>(s: seq<T>, less: (T, T) -> bool)
    ensures multiset(Sort(s, less)) == multiset(s)
  {
    if s != [] {
      SortKeepsElements(s[1..], less);
      InsertKeepsElements(s[0], Sort(s[1..], less), less);
      assert s == [s[0]] + s[1..];
    }
  }

  // An order in which elements may tie.
  ghost predicate WeakOrder<T(!new)>(less: (T, T) -> bool) {
    && (forall x, y :: less(x, y) ==> !less(y, x))
    && (forall x, y, z :: !less(x, y) && !less(y, z) ==> !less(x, z))
  }

  lemma TotalIsWeak<T(!new)>(less: (T, T) -> bool)
    requires StrictTotal(less)
    ensures WeakOrder(less)
  {
  }

  lemma {:induction false} InsertKeepsOrder<T(!new)>(x: T, s: seq<T>, less: (T, T) -> bool)
    requires WeakOrder(less) && InOrder(s, less)
    ensures InOrder(InsertInOrder(x, s, less), less)
  {
    if s == [] {
    } else if !less(s[0], x) {
      forall j | 0 <= j < |s| ensures !less(s[j], x) {
        assert j == 0 || !less(s[j], s[0]);
      }
    } else {
      var t := InsertInOrder(x, s[1..], less);
      InsertKeepsOrder(x, s[1..], less);
      InsertKeepsElements(x, s[1..], less);
      forall j | 0 <= j < |t| ensures !less(t[j], s[0]) {
        assert t[j] in multiset(t);
        assert t[j] == x || t[j] in s[1..];
      }
    }
  }

  lemma {:induction false} SortOrders<T(!new)>(s: seq<T>, less: (T, T) -> bool)
    requires WeakOrder(less)
    ensures InOrder(Sort(s, less), less)
  {
    if s != [] {
      SortOrders(s[1..], less);
      InsertKeepsOrder(s[0], Sort(s[1..], less), less);
    }
  }
}
