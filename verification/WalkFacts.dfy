/** The order in which a source tree is read and its files are listed, character by character. */
module WalkFacts {
  import opened FileTrees
  import opened LexicalOrder
  import opened SourceFiles

  // Equal up to position k, where the first ends or has the lesser character.
  ghost predicate NameFirstAt(a: string, b: string, k: nat) {
    k <= |a| && k < |b| && a[..k] == b[..k] && (k < |a| ==> a[k] as int < b[k] as int)
  }

  ghost predicate NameFirst(a: string, b: string) {
    exists k: nat :: NameFirstAt(a, b, k)
  }

  // Equal up to position k, where the first ends or has the lesser name.
  ghost predicate PathFirst(a: seq<string>, b: seq<string>) {
    exists k: nat :: k <= |a| && k < |b| && a[..k] == b[..k] && (k < |a| ==> NameFirst(a[k], b[k]))
  }

  lemma {:induction false} FirstDifference<T>(a: seq<T>, b: seq<T>, less: (T, T) -> bool) returns (k: nat)
    requires Before(a, b, less)
    ensures k <= |a| && k < |b| && a[..k] == b[..k] && (k < |a| ==> less(a[k], b[k]))
  {
    k := 0;
    if a != [] && !less(a[0], b[0]) {
      k := FirstDifference(a[1..], b[1..], less);
      k := k + 1;
      assert a[..k] == [a[0]] + a[1..][..k - 1] && b[..k] == [b[0]] + b[1..][..k - 1];
    }
  }

  lemma {:induction false} DifferenceDecides<T>(a: seq<T>, b: seq<T>, less: (T, T) -> bool, k: nat)
    requires k <= |a| && k < |b| && a[..k] == b[..k] && (k < |a| ==> less(a[k], b[k]))
    ensures Before(a, b, less)
  {
    if k > 0 {
      assert a[0] == a[..k][0] == b[..k][0] == b[0];
      assert a[1..][..k - 1] == a[..k][1..] && b[1..][..k - 1] == b[..k][1..];
      DifferenceDecides(a[1..], b[1..], less, k - 1);
    }
  }

  lemma NameFirstIff(a: string, b: string)
    ensures NameBefore(a, b) <==> NameFirst(a, b)
  {
    if NameBefore(a, b) {
      var k := FirstDifference(a, b, CharBefore);
      assert NameFirstAt(a, b, k);
    }
    if k: nat :| NameFirstAt(a, b, k) { DifferenceDecides(a, b, CharBefore, k); }
  }

  lemma PathFirstIff(a: seq<string>, b: seq<string>)
    ensures PathBefore(a, b) <==> PathFirst(a, b)
  {
    if PathBefore(a, b) {
      var k := FirstDifference(a, b, NameBefore);
      if k < |a| { NameFirstIff(a[k], b[k]); }
    }
    if k: nat :| k <= |a| && k < |b| && a[..k] == b[..k] && (k < |a| ==> NameFirst(a[k], b[k])) {
      if k < |a| { NameFirstIff(a[k], b[k]); }
      DifferenceDecides(a, b, NameBefore, k);
    }
  }

  /** The collected files are listed name by name, in the order of their first different characters. */
  lemma FilesAscend(root: Node, i: nat, j: nat)
    requires root.Dir? && Inspectable(root) && DistinctNames(root)
    requires SortedFiles(Walk([Start(root)])).Files? && i < j < |SortedFiles(Walk([Start(root)])).paths|
    ensures PathFirst(SortedFiles(Walk([Start(root)])).paths[i], SortedFiles(Walk([Start(root)])).paths[j])
  {
    EachFileIsCollectedOnce(root);
    PathFirstIff(SortedFiles(Walk([Start(root)])).paths[i], SortedFiles(Walk([Start(root)])).paths[j]);
  }

  lemma {:induction false} ReversedAt<T>(s: seq<T>, i: nat)
    requires i < |s|
    ensures |Reversed(s)| == |s| && Reversed(s)[i] == s[|s| - 1 - i]
  {
    if |s| > 1 { ReversedAt(s[1..], if i < |s| - 1 then i else 0); }
  }

  lemma EntriesAreOrdered()
    ensures WeakOrder(EntryBefore)
  {
    NameOrder();
    TotalIsWeak(NameBefore);
    forall a: Entry, b: Entry, c: Entry | !EntryBefore(a, b) && !EntryBefore(b, c) ensures !EntryBefore(a, c) {
      assert !NameBefore(a.name, b.name) && !NameBefore(b.name, c.name);
    }
  }

  /** A directory is read from its last name to its first. */
  lemma DirectoriesAreReadBackwards(node: Node, i: nat, j: nat)
    requires i < j < |Listed(node)|
    ensures multiset(Listed(node)) == multiset(if node.Dir? && node.readable then node.entries else [])
    ensures !NameFirst(Listed(node)[i].name, Listed(node)[j].name)
  {
    ListedKeepsEntries(node);
    EntriesAreOrdered();
    var sorted := Sort(Listing(node), EntryBefore);
    SortOrders(Listing(node), EntryBefore);
    SortKeepsElements(Listing(node), EntryBefore);
    assert |multiset(sorted)| == |multiset(Listed(node))|;
    ReversedAt(sorted, i);
    ReversedAt(sorted, j);
    NameFirstIff(Listed(node)[i].name, Listed(node)[j].name);
    assert !EntryBefore(sorted[|sorted| - 1 - i], sorted[|sorted| - 1 - j]);
  }
}
