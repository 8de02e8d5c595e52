/** The walk that collects the media files of a source directory (`source_files`). */
module SourceFiles {
  import opened FileTrees
  import opened LexicalOrder
  import opened OrderedSets
  import opened Sequences

  // The files, or the first path that could not be inspected.
  datatype Collected = Files(paths: seq<seq<string>>) | CannotInspect(path: seq<string>)

  predicate EntryBefore(a: Entry, b: Entry) { NameBefore(a.name, b.name) }

  function Reversed<T>(s: seq<T>): seq<T> {
    if s == [] then [] else Reversed(s[1..]) + [s[0]]
  }

  // The entries as the walk visits them: sorted by name, last one first.
  function Listed(node: Node): seq<Entry> {
    Reversed(Sort(Listing(node), EntryBefore))
  }

  // The regular files among the visits.
  function FilesAmong(visits: seq<Visit>): seq<seq<string>> {
    if visits == [] then []
    else
      var last := visits[|visits| - 1];
      FilesAmong(visits[..|visits| - 1]) + if last.node.File? then [last.path] else []
  }

  // The first entry whose kind cannot be read.
  function FirstUnknown(entries: seq<Entry>): (n: nat)
    ensures n <= |entries|
    ensures forall i :: 0 <= i < n ==> !entries[i].node.Unknown?
    ensures n < |entries| ==> entries[n].node.Unknown?
  {
    if entries == [] || entries[0].node.Unknown? then 0 else 1 + FirstUnknown(entries[1..])
  }

  function Prepend(files: seq<seq<string>>, others: Collected): Collected {
    if others.Files? then Files(files + others.paths) else others
  }

  // ----- the order of the entries does not change what they hold -----

  lemma {:induction false} ReversedKeepsElements<T>(s: seq<T>)
    ensures multiset(Reversed(s)) == multiset(s)
  {
    if s != [] {
      ReversedKeepsElements(s[1..]);
      assert s == [s[0]] + s[1..];
    }
  }

  lemma ListedKeepsEntries(node: Node)
    ensures multiset(Listed(node)) == multiset(Listing(node))
  {
    SortKeepsElements(Listing(node), EntryBefore);
    ReversedKeepsElements(Sort(Listing(node), EntryBefore));
  }

  // Taking the last element of `a` out of a permutation of it.
  lemma TakeOut<T>(a: seq<T>, b: seq<T>) returns (i: nat)
    requires a != [] && multiset(a) == multiset(b)
    ensures i < |b| && b[i] == a[|a| - 1]
    ensures multiset(a[..|a| - 1]) == multiset(b[..i] + b[i + 1..])
    ensures b == b[..i] + [b[i]] + b[i + 1..]
  {
    var n := |a| - 1;
    assert a == a[..n] + [a[n]];
    assert a[n] in multiset(b);
    i :| 0 <= i < |b| && b[i] == a[n];
    assert b == b[..i] + [b[i]] + b[i + 1..];
    assert multiset(b) == multiset(b[..i]) + multiset{b[i]} + multiset(b[i + 1..]);
    assert multiset(a[..n]) == multiset(a) - multiset{a[n]};
    assert multiset(b[..i] + b[i + 1..]) == multiset(b) - multiset{b[i]};
  }

  lemma {:induction false} EntriesSizeOfConcatenation(a: seq<Entry>, b: seq<Entry>)
    ensures EntriesSize(a + b) == EntriesSize(a) + EntriesSize(b)
  {
    if b == [] {
      assert a + b == a;
    } else {
      var n := |b| - 1;
      EntriesSizeOfConcatenation(a, b[..n]);
      assert (a + b)[..|a + b| - 1] == a + b[..n];
    }
  }

  lemma {:induction false} EntriesSizeOfPermutation(a: seq<Entry>, b: seq<Entry>)
    requires multiset(a) == multiset(b)
    ensures EntriesSize(a) == EntriesSize(b)
  {
    if a == [] {
      assert |multiset(b)| == 0;
    } else {
      var i := TakeOut(a, b);
      EntriesSizeOfPermutation(a[..|a| - 1], b[..i] + b[i + 1..]);
      EntriesSizeOfConcatenation(b[..i], b[i + 1..]);
      EntriesSizeOfConcatenation(b[..i] + [b[i]], b[i + 1..]);
      assert (b[..i] + [b[i]])[..i] == b[..i];
    }
  }

  lemma {:induction false} DepthFirstOfConcatenation(place: Place, a: seq<Entry>, b: seq<Entry>)
    ensures DepthFirst(place, a + b) == DepthFirst(place, a) + DepthFirst(place, b)
  {
    if b == [] {
      assert a + b == a;
    } else {
      var n := |b| - 1;
      DepthFirstOfConcatenation(place, a, b[..n]);
      assert (a + b)[..|a + b| - 1] == a + b[..n] && (a + b)[|a + b| - 1] == b[n];
      WalkStep(place, b, n);
      WalkStep(place, a + b, |a + b| - 1);
      var tail := Walks(Child(place, b[n]));
      Associative(DepthFirst(place, a), DepthFirst(place, b[..n]), [VisitAt(place, b[n])]);
      Associative(DepthFirst(place, a), DepthFirst(place, b[..n]) + [VisitAt(place, b[n])], tail);
    }
  }

  lemma DepthFirstAround(place: Place, before: seq<Entry>, entry: Entry, after: seq<Entry>)
    ensures multiset(DepthFirst(place, before + [entry] + after)) ==
            multiset(DepthFirst(place, before + after)) + multiset(DepthFirst(place, [entry]))
  {
    DepthFirstOfConcatenation(place, before, after);
    DepthFirstOfConcatenation(place, before, [entry]);
    DepthFirstOfConcatenation(place, before + [entry], after);
  }

  lemma {:induction false} DepthFirstOfPermutation(place: Place, a: seq<Entry>, b: seq<Entry>)
    requires multiset(a) == multiset(b)
    ensures multiset(DepthFirst(place, a)) == multiset(DepthFirst(place, b))
  {
    if a == [] {
      assert |multiset(b)| == 0;
    } else {
      var n := |a| - 1;
      var i := TakeOut(a, b);
      DepthFirstOfPermutation(place, a[..n], b[..i] + b[i + 1..]);
      DepthFirstAround(place, b[..i], b[i], b[i + 1..]);
      DepthFirstOfConcatenation(place, a[..n], [a[n]]);
      assert a == a[..n] + [a[n]];
    }
  }

  // ----- the walk -----

  lemma TopShrinks(top: Place)
    ensures QueueSize(Subdirectories(top, Listed(top.node))) < QueueSize([top])
  {
    SubdirectoriesSize(top, Listed(top.node));
    ListedKeepsEntries(top.node);
    EntriesSizeOfPermutation(Listed(top.node), Listing(top.node));
    assert [top][1..] == [];
  }

  lemma SmallerOnTop(front: seq<Place>, a: seq<Place>, b: seq<Place>)
    requires QueueSize(a) < QueueSize(b)
    ensures QueueSize(front + a) < QueueSize(front + b)
  {
    QueueSizeOfConcatenation(front, a);
    QueueSizeOfConcatenation(front, b);
  }

  lemma StackShrinks(pending: seq<Place>)
    requires pending != []
    ensures var top := pending[|pending| - 1];
            QueueSize(pending[..|pending| - 1] + Subdirectories(top, Listed(top.node))) < QueueSize(pending)
  {
    var n := |pending| - 1;
    var top := pending[n];
    TopShrinks(top);
    SmallerOnTop(pending[..n], Subdirectories(top, Listed(top.node)), [top]);
    assert pending == pending[..n] + [top];
  }

  predicate Readable(node: Node) { node.Dir? && node.readable }

  // The last pending directory is read next.
  function Walk(pending: seq<Place>): Collected
    decreases QueueSize(pending)
  {
    if pending == [] then Files([])
    else
      var top := pending[|pending| - 1];
      var listed := Listed(top.node);
      var unknown := FirstUnknown(listed);
      StackShrinks(pending);
      if !Readable(top.node) then CannotInspect(top.path)
      else if unknown < |listed| then CannotInspect(top.path + [listed[unknown].name])
      else Prepend(FilesAmong(Visits(top, listed)), Walk(pending[..|pending| - 1] + Subdirectories(top, listed)))
  }

  function Start(root: Node): Place { Place([], root) }

  function SortedFiles(walked: Collected): Collected {
    if walked.Files? then Files(Sort(walked.paths, PathBefore)) else walked
  }

  lemma FilesAmongStep(visits: seq<Visit>, next: Visit)
    ensures FilesAmong(visits + [next]) == FilesAmong(visits) + if next.node.File? then [next.path] else []
  {
    assert (visits + [next])[..|visits|] == visits;
  }

  lemma ReadStep(directory: Place, entries: seq<Entry>, j: nat)
    requires j < |entries|
    ensures FilesAmong(Visits(directory, entries[..j + 1])) ==
            FilesAmong(Visits(directory, entries[..j])) +
            if entries[j].node.File? then [directory.path + [entries[j].name]] else []
    ensures Subdirectories(directory, entries[..j + 1]) ==
            Subdirectories(directory, entries[..j]) + Child(directory, entries[j])
  {
    assert entries[..j + 1][..j] == entries[..j];
    SubdirectoriesStep(directory, entries[..j + 1], j);
    FilesAmongStep(Visits(directory, entries[..j]), VisitAt(directory, entries[j]));
  }

  /** One directory of the walk, with its entries listed: files are collected, subdirectories are pushed. */
  method ReadDirectory(directory: Place, entries: seq<Entry>, files: seq<seq<string>>, pending: seq<Place>)
    returns (unknown: bool, path: seq<string>, files': seq<seq<string>>, pending': seq<Place>)
    ensures unknown <==> FirstUnknown(entries) < |entries|
    ensures unknown ==> path == directory.path + [entries[FirstUnknown(entries)].name]
    ensures !unknown ==> files' == files + FilesAmong(Visits(directory, entries))
    ensures !unknown ==> pending' == pending + Subdirectories(directory, entries)
  {
    unknown, path, files', pending' := false, [], files, pending;
    for j := 0 to |entries|
      invariant !unknown && forall i :: 0 <= i < j ==> !entries[i].node.Unknown?
      invariant files' == files + FilesAmong(Visits(directory, entries[..j]))
      invariant pending' == pending + Subdirectories(directory, entries[..j])
    {
      var entry := entries[j];
      path := directory.path + [entry.name];
      if entry.node.Unknown? {
        unknown := true;
        return;
      }
      ReadStep(directory, entries, j);
      if entry.node.Dir? {
        pending' := pending' + [Place(path, entry.node)];
      } else if entry.node.File? {
        files' := files' + [path];
      }
    }
    assert entries[..|entries|] == entries;
  }

  lemma PrependTwice(a: seq<seq<string>>, b: seq<seq<string>>, others: Collected)
    ensures Prepend(a, Prepend(b, others)) == Prepend(a + b, others)
  {
    if others.Files? { Associative(a, b, others.paths); }
  }

  /** The walk with its stack of pending directories, and the final sort. */
  method Collect(root: Node) returns (r: Collected)
    ensures r == SortedFiles(Walk([Start(root)]))
  {
    var files: seq<seq<string>> := [];
    var pending := [Start(root)];
    while pending != []
      invariant Prepend(files, Walk(pending)) == Walk([Start(root)])
      decreases QueueSize(pending)
    {
      var directory := pending[|pending| - 1];
      StackShrinks(pending);
      if !Readable(directory.node) { return CannotInspect(directory.path); }
      ghost var rest := pending[..|pending| - 1] + Subdirectories(directory, Listed(directory.node));
      PrependTwice(files, FilesAmong(Visits(directory, Listed(directory.node))), Walk(rest));
      var unknown, path;
      unknown, path, files, pending := ReadDirectory(directory, Listed(directory.node), files,
                                                     pending[..|pending| - 1]);
      if unknown { return CannotInspect(path); }
    }
    assert files + [] == files;
    return Files(Sort(files, PathBefore));
  }

  // ----- when the walk succeeds -----

  // Every directory can be read, and so can the kind of every entry.
  predicate Inspectable(node: Node) {
    node.Dir? ==>
      && node.readable
      && forall i :: 0 <= i < |node.entries| ==> !node.entries[i].node.Unknown? && Inspectable(node.entries[i].node)
  }

  predicate AllInspectable(pending: seq<Place>) {
    forall place <- pending :: Inspectable(place.node)
  }

  lemma {:induction false} SubdirectoriesIff(place: Place, entries: seq<Entry>, p: Place)
    ensures p in Subdirectories(place, entries) <==>
            exists entry <- entries :: entry.node.Dir? && p == ChildPlace(place, entry)
  {
    if entries != [] {
      var n := |entries| - 1;
      SubdirectoriesIff(place, entries[..n], p);
      SubdirectoriesStep(place, entries, n);
      assert entries == entries[..n] + [entries[n]];
    }
  }

  lemma SubdirectoriesInspectable(place: Place, entries: seq<Entry>)
    ensures AllInspectable(Subdirectories(place, entries)) <==> forall entry <- entries :: Inspectable(entry.node)
    ensures forall p <- Subdirectories(place, entries) :: p.node.Dir?
  {
    forall p ensures p in Subdirectories(place, entries) <==>
                     exists entry <- entries :: entry.node.Dir? && p == ChildPlace(place, entry)
    {
      SubdirectoriesIff(place, entries, p);
    }
    forall entry <- entries | AllInspectable(Subdirectories(place, entries)) && entry.node.Dir?
      ensures Inspectable(entry.node)
    {
      assert ChildPlace(place, entry) in Subdirectories(place, entries);
    }
  }

  lemma InspectableIff(node: Node)
    requires node.Dir?
    ensures Inspectable(node) <==>
            && node.readable && FirstUnknown(Listed(node)) == |Listed(node)|
            && forall entry <- Listed(node) :: Inspectable(entry.node)
  {
    ListedKeepsEntries(node);
    if node.readable {
      forall e ensures e in Listed(node) <==> e in node.entries { SameMembers(Listed(node), node.entries, e); }
      if Inspectable(node) && FirstUnknown(Listed(node)) < |Listed(node)| {
        assert Listed(node)[FirstUnknown(Listed(node))] in node.entries;
      }
      if FirstUnknown(Listed(node)) == |Listed(node)| && forall entry <- Listed(node) :: Inspectable(entry.node) {
        forall i | 0 <= i < |node.entries| ensures !node.entries[i].node.Unknown? && Inspectable(node.entries[i].node) {
          assert node.entries[i] in Listed(node);
        }
      }
    }
  }

  lemma AllInspectableOfConcatenation(a: seq<Place>, b: seq<Place>)
    ensures AllInspectable(a + b) <==> AllInspectable(a) && AllInspectable(b)
  {
    assert forall p :: p in a + b <==> p in a || p in b;
  }

  // The walk succeeds exactly when every directory it meets can be read, and the kind of every entry.
  lemma {:induction false} WalkSucceedsIff(pending: seq<Place>)
    requires forall place <- pending :: place.node.Dir?
    ensures Walk(pending).Files? <==> AllInspectable(pending)
    decreases QueueSize(pending)
  {
    if pending != [] {
      var n := |pending| - 1;
      var top := pending[n];
      var below := Subdirectories(top, Listed(top.node));
      SplitLast(pending, n);
      AllInspectableOfConcatenation(pending[..n], [top]);
      AllInspectableOfConcatenation(pending[..n], below);
      StackShrinks(pending);
      SubdirectoriesInspectable(top, Listed(top.node));
      WalkSucceedsIff(pending[..n] + below);
      InspectableIff(top.node);
    }
  }

  // ----- what the walk collects -----

  lemma {:induction false} FilesCount(visits: seq<Visit>, path: seq<string>)
    ensures multiset(FilesAmong(visits))[path] == multiset(visits)[Visit(path, File)]
  {
    if visits != [] {
      var n := |visits| - 1;
      FilesCount(visits[..n], path);
      assert visits == visits[..n] + [visits[n]];
      assert multiset([visits[n]])[Visit(path, File)] == if visits[n] == Visit(path, File) then 1 else 0;
      assert multiset([visits[n].path])[path] == if visits[n].path == path then 1 else 0;
    }
  }

  lemma FilesOfPermutation(a: seq<Visit>, b: seq<Visit>)
    requires multiset(a) == multiset(b)
    ensures multiset(FilesAmong(a)) == multiset(FilesAmong(b))
  {
    forall path ensures multiset(FilesAmong(a))[path] == multiset(FilesAmong(b))[path] {
      FilesCount(a, path);
      FilesCount(b, path);
    }
  }

  lemma {:induction false} FilesOfConcatenation(a: seq<Visit>, b: seq<Visit>)
    ensures FilesAmong(a + b) == FilesAmong(a) + FilesAmong(b)
  {
    if b == [] {
      assert a + b == a;
    } else {
      var n := |b| - 1;
      FilesOfConcatenation(a, b[..n]);
      assert (a + b)[..|a + b| - 1] == a + b[..n];
    }
  }

  ghost function Held(pending: seq<Place>): multiset<seq<string>> {
    multiset(FilesAmong(Walks(pending)))
  }

  lemma HeldOfConcatenation(a: seq<Place>, b: seq<Place>)
    ensures Held(a + b) == Held(a) + Held(b)
  {
    WalksOfConcatenation(a, b);
    FilesOfConcatenation(Walks(a), Walks(b));
  }

  // What one directory holds: its files, and what its subdirectories hold.
  lemma HeldOfDirectory(top: Place)
    ensures Held([top]) ==
            multiset(FilesAmong(Visits(top, Listed(top.node)))) + Held(Subdirectories(top, Listed(top.node)))
  {
    var visits, below := Visits(top, Listed(top.node)), Walks(Subdirectories(top, Listed(top.node)));
    OneWalk(top);
    ListedKeepsEntries(top.node);
    DepthFirstOfPermutation(top, Listed(top.node), Listing(top.node));
    WalkSplits(top, Listed(top.node));
    FilesOfPermutation(Walks([top]), visits + below);
    FilesOfConcatenation(visits, below);
  }

  lemma WalkStepCollects(pending: seq<Place>, n: nat, top: Place)
    requires |pending| == n + 1 && pending[n] == top && Walk(pending).Files?
    ensures var rest := pending[..n] + Subdirectories(top, Listed(top.node));
            && Walk(rest).Files?
            && multiset(Walk(pending).paths) ==
               multiset(FilesAmong(Visits(top, Listed(top.node)))) + multiset(Walk(rest).paths)
  {
  }

  lemma {:induction false} WalkCollects(pending: seq<Place>)
    requires Walk(pending).Files?
    ensures multiset(Walk(pending).paths) == Held(pending)
    decreases QueueSize(pending)
  {
    if pending != [] {
      var n := |pending| - 1;
      var top := pending[n];
      var below := Subdirectories(top, Listed(top.node));
      SplitLast(pending, n);
      StackShrinks(pending);
      WalkStepCollects(pending, n, top);
      WalkCollects(pending[..n] + below);
      HeldOfDirectory(top);
      HeldOfConcatenation(pending[..n], below);
      HeldOfConcatenation(pending[..n], [top]);
    }
  }

  /** The collected paths are exactly those that lead to a regular file without a symlink, in order. */
  lemma CollectsTheRegularFiles(root: Node, path: seq<string>)
    requires root.Dir?
    ensures SortedFiles(Walk([Start(root)])).Files? <==> Inspectable(root)
    ensures Inspectable(root) ==> InOrder(SortedFiles(Walk([Start(root)])).paths, PathBefore)
    ensures Inspectable(root) ==> (path in SortedFiles(Walk([Start(root)])).paths <==> Reaches(root, path, File))
  {
    var start := Start(root);
    WalkSucceedsIff([start]);
    if Inspectable(root) {
      var walked := Walk([start]).paths;
      PathOrder();
      TotalIsWeak(PathBefore);
      SortOrders(walked, PathBefore);
      SortKeepsElements(walked, PathBefore);
      WalkCollects([start]);
      SameMembers(Sort(walked, PathBefore), FilesAmong(Walks([start])), path);
      FilesListedIff(root, path);
    }
  }

  lemma FilesListedIff(root: Node, path: seq<string>)
    ensures path in FilesAmong(Walks([Start(root)])) <==> Reaches(root, path, File)
  {
    var start := Start(root);
    var visits := DepthFirst(start, Listing(root));
    OneWalk(start);
    FilesCount(visits, path);
    assert path in FilesAmong(visits) <==> path in multiset(FilesAmong(visits));
    assert Visit(path, File) in visits <==> Visit(path, File) in multiset(visits);
    if path == [] {
      if Visit(path, File) in visits { ListedBelow(start, Listing(root), Visit(path, File)); }
    } else {
      WalkListsIff(start, Listing(root), path, File);
      assert [] + path == path;
    }
  }

  // ----- each file once -----

  predicate DistinctNames(node: Node) {
    node.Dir? ==>
      && (forall i, j :: 0 <= i < j < |node.entries| ==> node.entries[i].name != node.entries[j].name)
      && forall i :: 0 <= i < |node.entries| ==> DistinctNames(node.entries[i].node)
  }

  // The first name below the place is the name of one of the entries.
  lemma {:induction false} ListedUnder(place: Place, entries: seq<Entry>, v: Visit)
    requires v in DepthFirst(place, entries)
    ensures place.path < v.path && exists entry <- entries :: entry.name == v.path[|place.path|]
  {
    ListedBelow(place, entries, v);
    var n := |entries| - 1;
    var child := ChildPlace(place, entries[n]);
    WalkStep(place, entries, n);
    if v in DepthFirst(place, entries[..n]) {
      ListedUnder(place, entries[..n], v);
      assert forall entry :: entry in entries[..n] ==> entry in entries;
    } else {
      assert entries[n] in entries;
      if v != VisitAt(place, entries[n]) {
        OneWalk(child);
        ListedBelow(child, Listing(child.node), v);
        assert v.path[|place.path|] == child.path[|place.path|];
      }
    }
  }

  // An entry's visit and what lies below it are not listed for the entries before.
  lemma LastIsApart(place: Place, entries: seq<Entry>, n: nat, v: Visit)
    requires |entries| == n + 1
    requires forall i, j :: 0 <= i < j < |entries| ==> entries[i].name != entries[j].name
    requires v == VisitAt(place, entries[n]) || v in Walks(Child(place, entries[n]))
    ensures v !in DepthFirst(place, entries[..n])
  {
    var child := ChildPlace(place, entries[n]);
    if v != VisitAt(place, entries[n]) {
      OneWalk(child);
      ListedBelow(child, Listing(child.node), v);
      assert v.path[|place.path|] == child.path[|place.path|];
    }
    assert v.path[|place.path|] == entries[n].name;
    if v in DepthFirst(place, entries[..n]) {
      ListedUnder(place, entries[..n], v);
    }
  }

  lemma BelowIsApart(place: Place, entry: Entry)
    ensures VisitAt(place, entry) !in Walks(Child(place, entry))
  {
    var child := ChildPlace(place, entry);
    OneWalk(child);
    if VisitAt(place, entry) in Walks(Child(place, entry)) {
      ListedBelow(child, Listing(child.node), VisitAt(place, entry));
    }
  }

  lemma CountAround<T>(before: seq<T>, x: T, after: seq<T>, y: T)
    ensures multiset(before + [x] + after)[y] == multiset(before)[y] + (if x == y then 1 else 0) + multiset(after)[y]
  {
  }

  lemma EachEntryOnceStep(place: Place, entries: seq<Entry>, n: nat, v: Visit)
    requires |entries| == n + 1
    requires forall i, j :: 0 <= i < j < |entries| ==> entries[i].name != entries[j].name
    requires multiset(DepthFirst(place, entries[..n]))[v] <= 1
    requires multiset(Walks(Child(place, entries[n])))[v] <= 1
    ensures multiset(DepthFirst(place, entries))[v] <= 1
  {
    var own, below := VisitAt(place, entries[n]), Walks(Child(place, entries[n]));
    if v == own || v in below { LastIsApart(place, entries, n, v); }
    BelowIsApart(place, entries[n]);
    WalkStep(place, entries, n);
    CountAround(DepthFirst(place, entries[..n]), own, below, v);
  }

  lemma {:induction false} EachEntryOnce(place: Place, entries: seq<Entry>, v: Visit)
    requires forall i, j :: 0 <= i < j < |entries| ==> entries[i].name != entries[j].name
    requires forall i :: 0 <= i < |entries| ==> DistinctNames(entries[i].node)
    ensures multiset(DepthFirst(place, entries))[v] <= 1
    decreases EntriesSize(entries)
  {
    if entries != [] {
      var n := |entries| - 1;
      var child := ChildPlace(place, entries[n]);
      EachEntryOnce(place, entries[..n], v);
      OneWalk(child);
      EntriesSizeOfListing(entries[n].node);
      EachEntryOnce(child, Listing(child.node), v);
      EachEntryOnceStep(place, entries, n, v);
    }
  }

  lemma FileCountIsAtMostOne(root: Node, path: seq<string>)
    requires root.Dir? && DistinctNames(root)
    ensures Held([Start(root)])[path] <= 1
  {
    var start := Start(root);
    OneWalk(start);
    FilesCount(Walks([start]), path);
    EachEntryOnce(start, Listing(root), Visit(path, File));
  }

  lemma Repeated<T>(s: seq<T>, i: nat, j: nat)
    requires i < j < |s| && s[i] == s[j]
    ensures multiset(s)[s[i]] >= 2
  {
    assert s == s[..j] + [s[j]] + s[j + 1..];
    assert s[..j][i] in multiset(s[..j]);
  }

  /** Where names are distinct in every directory, each file is collected once: the list is strictly ascending. */
  lemma EachFileIsCollectedOnce(root: Node)
    requires root.Dir? && Inspectable(root) && DistinctNames(root)
    ensures SortedFiles(Walk([Start(root)])).Files?
    ensures StrictlyAscending(SortedFiles(Walk([Start(root)])).paths, PathBefore)
  {
    var start := Start(root);
    CollectsTheRegularFiles(root, []);
    var walked := Walk([start]).paths;
    var files := Sort(walked, PathBefore);
    SortKeepsElements(walked, PathBefore);
    WalkCollects([start]);
    PathOrder();
    forall i, j | 0 <= i < j < |files| ensures PathBefore(files[i], files[j]) {
      FileCountIsAtMostOne(root, files[i]);
      if files[i] == files[j] { Repeated(files, i, j); }
      assert !PathBefore(files[j], files[i]);
    }
  }
}
