/** Finite directory trees: what the file walks read, and the entries a tree holds. */
module FileTrees {
  import opened Sequences

  // What one directory entry is. `Unknown` is an entry whose type cannot be read.
  datatype Node = File | Symlink | Other | Unknown | Dir(readable: bool, entries: seq<Entry>)

  datatype Entry = Entry(name: string, node: Node)

  // An entry met on a walk, with the names that lead to it.
  datatype Visit = Visit(path: seq<string>, node: Node) {
    function Name(): string {
      if path == [] then "" else path[|path| - 1]
    }
  }

  // A directory still to be read.
  datatype Place = Place(path: seq<string>, node: Node)

  // What reading a readable directory gives; reading anything else fails.
  function Listing(node: Node): seq<Entry> {
    if node.Dir? && node.readable then node.entries else []
  }

  function Visits(place: Place, entries: seq<Entry>): seq<Visit> {
    seq(|entries|, i requires 0 <= i < |entries| =>
      VisitAt(place, entries[i]))
  }

  function VisitAt(place: Place, entry: Entry): Visit {
    Visit(place.path + [entry.name], entry.node)
  }

  // The directories among the entries; symlinks are not followed.
  function Subdirectories(place: Place, entries: seq<Entry>): seq<Place> {
    if entries == [] then []
    else
      var last := entries[|entries| - 1];
      Subdirectories(place, entries[..|entries| - 1]) +
      if last.node.Dir? then [ChildPlace(place, last)] else []
  }

  // ----- sizes, for termination -----

  function Size(node: Node): (size: nat)
    ensures size > 0
  {
    if node.Dir? then 1 + EntriesSize(node.entries) else 1
  }

  function EntriesSize(entries: seq<Entry>): nat {
    if entries == [] then 0
    else EntriesSize(entries[..|entries| - 1]) + Size(entries[|entries| - 1].node)
  }

  function QueueSize(queue: seq<Place>): nat {
    if queue == [] then 0 else Size(queue[0].node) + QueueSize(queue[1..])
  }

  lemma {:induction false} QueueSizeOfConcatenation(a: seq<Place>, b: seq<Place>)
    ensures QueueSize(a + b) == QueueSize(a) + QueueSize(b)
  {
    if a == [] {
      assert a + b == b;
    } else {
      QueueSizeOfConcatenation(a[1..], b);
      assert (a + b)[1..] == a[1..] + b;
    }
  }

  lemma {:induction false} SubdirectoriesSize(place: Place, entries: seq<Entry>)
    ensures QueueSize(Subdirectories(place, entries)) <= EntriesSize(entries)
  {
    if entries != [] {
      var n := |entries| - 1;
      SubdirectoriesSize(place, entries[..n]);
      var last := ChildPlace(place, entries[n]);
      if entries[n].node.Dir? {
        QueueSizeOfConcatenation(Subdirectories(place, entries[..n]), [last]);
        assert [last][1..] == [];
      } else {
        assert Subdirectories(place, entries) == Subdirectories(place, entries[..n]);
      }
    }
  }

  lemma QueueShrinks(queue: seq<Place>)
    requires queue != []
    ensures QueueSize(queue[1..] + Subdirectories(queue[0], Listing(queue[0].node))) < QueueSize(queue)
  {
    QueueSizeOfConcatenation(queue[1..], Subdirectories(queue[0], Listing(queue[0].node)));
    SubdirectoriesSize(queue[0], Listing(queue[0].node));
  }

  function ChildPlace(place: Place, entry: Entry): Place {
    Place(place.path + [entry.name], entry.node)
  }

  lemma {:induction false} EntriesSizeOfListing(node: Node)
    ensures node.Dir? ==> EntriesSize(Listing(node)) < Size(node)
  {
  }

  // The reference: the entries in the order of a depth-first walk.
  function DepthFirst(place: Place, entries: seq<Entry>): seq<Visit>
    decreases EntriesSize(entries)
  {
    if entries == [] then []
    else
      var rest, last := entries[..|entries| - 1], entries[|entries| - 1];
      EntriesSizeOfListing(last.node);
      DepthFirst(place, rest) + [VisitAt(place, last)] +
      if last.node.Dir? then DepthFirst(ChildPlace(place, last), Listing(last.node)) else []
  }

  function Walks(queue: seq<Place>): seq<Visit> {
    if queue == [] then [] else DepthFirst(queue[0], Listing(queue[0].node)) + Walks(queue[1..])
  }

  lemma {:induction false} WalksOfConcatenation(a: seq<Place>, b: seq<Place>)
    ensures Walks(a + b) == Walks(a) + Walks(b)
  {
    if a == [] {
      assert a + b == b;
    } else {
      WalksOfConcatenation(a[1..], b);
      assert (a + b)[1..] == a[1..] + b && (a + b)[0] == a[0];
      Associative(DepthFirst(a[0], Listing(a[0].node)), Walks(a[1..]), Walks(b));
    }
  }

  lemma OneWalk(place: Place)
    ensures Walks([place]) == DepthFirst(place, Listing(place.node))
  {
    assert [place][1..] == [];
  }

  function Child(place: Place, entry: Entry): seq<Place> {
    if entry.node.Dir? then [ChildPlace(place, entry)] else []
  }

  lemma WalkStep(place: Place, entries: seq<Entry>, n: nat)
    requires |entries| == n + 1
    ensures DepthFirst(place, entries) ==
            DepthFirst(place, entries[..n]) + [VisitAt(place, entries[n])] + Walks(Child(place, entries[n]))
  {
    OneWalk(ChildPlace(place, entries[n]));
  }

  lemma SubdirectoriesStep(place: Place, entries: seq<Entry>, n: nat)
    requires |entries| == n + 1
    ensures Visits(place, entries) == Visits(place, entries[..n]) + [VisitAt(place, entries[n])]
    ensures Subdirectories(place, entries) == Subdirectories(place, entries[..n]) + Child(place, entries[n])
  {
  }

  lemma {:induction false} WalkSplits(place: Place, entries: seq<Entry>)
    ensures multiset(DepthFirst(place, entries)) ==
            multiset(Visits(place, entries)) + multiset(Walks(Subdirectories(place, entries)))
  {
    if entries != [] {
      var n := |entries| - 1;
      WalkSplits(place, entries[..n]);
      WalkStep(place, entries, n);
      SubdirectoriesStep(place, entries, n);
      WalksOfConcatenation(Subdirectories(place, entries[..n]), Child(place, entries[n]));
    }
  }

  // Walking `path` down from `node` through readable directories, never through a symlink, ends at `target`.
  predicate Reaches(node: Node, path: seq<string>, target: Node)
    decreases |path|
  {
    path != [] && node.Dir? && node.readable &&
    exists entry <- node.entries :: Leads(entry, path, target)
  }

  predicate Leads(entry: Entry, path: seq<string>, target: Node)
    requires path != []
    decreases |path|, 0
  {
    && entry.name == path[0]
    && if |path| == 1 then entry.node == target else entry.node.Dir? && Reaches(entry.node, path[1..], target)
  }

  // What a walk lists lies strictly below the place it starts from.
  lemma {:induction false} ListedBelow(place: Place, entries: seq<Entry>, v: Visit)
    requires v in DepthFirst(place, entries)
    ensures place.path < v.path
    decreases EntriesSize(entries)
  {
    var n := |entries| - 1;
    var child := ChildPlace(place, entries[n]);
    if v in DepthFirst(place, entries[..n]) {
      ListedBelow(place, entries[..n], v);
    } else if v != VisitAt(place, entries[n]) {
      EntriesSizeOfListing(entries[n].node);
      ListedBelow(child, Listing(child.node), v);
      assert place.path == child.path[..|place.path|];
    }
  }

  function VisitOf(place: Place, path: seq<string>, target: Node): Visit
    requires path != []
  {
    Visit(place.path + path, target)
  }

  lemma VisitOfChild(place: Place, entry: Entry, path: seq<string>, target: Node)
    requires |path| > 1 && path[0] == entry.name
    ensures VisitOf(place, path, target) == VisitOf(ChildPlace(place, entry), path[1..], target)
  {
    assert path == [entry.name] + path[1..];
    Associative(place.path, [entry.name], path[1..]);
  }

  lemma BelowAnother(place: Place, entry: Entry, path: seq<string>, target: Node)
    requires path != []
    requires VisitOf(place, path, target) in DepthFirst(ChildPlace(place, entry), Listing(entry.node))
    ensures |path| > 1 && path[0] == entry.name
  {
    var child := ChildPlace(place, entry);
    ListedBelow(child, Listing(entry.node), VisitOf(place, path, target));
    assert child.path[|place.path|] == entry.name == (place.path + path)[|place.path|];
  }

  // The last of the entries leads to the target by itself or through what it holds.
  lemma {:induction false} LastLeadsIff(place: Place, entry: Entry, path: seq<string>, target: Node)
    requires path != []
    ensures Leads(entry, path, target) <==>
            || VisitOf(place, path, target) == VisitAt(place, entry)
            || (entry.node.Dir? &&
                VisitOf(place, path, target) in DepthFirst(ChildPlace(place, entry), Listing(entry.node)))
    decreases Size(entry.node), 0
  {
    var wanted, child := VisitOf(place, path, target), ChildPlace(place, entry);
    assert (place.path + path)[|place.path|] == path[0];
    if |path| == 1 {
      assert path == [path[0]];
      if entry.node.Dir? && wanted in DepthFirst(child, Listing(entry.node)) {
        BelowAnother(place, entry, path, target);
      }
    } else if path[0] == entry.name && entry.node.Dir? {
      VisitOfChild(place, entry, path, target);
      EntriesSizeOfListing(entry.node);
      WalkListsIff(child, Listing(entry.node), path[1..], target);
    } else if entry.node.Dir? && wanted in DepthFirst(child, Listing(entry.node)) {
      BelowAnother(place, entry, path, target);
    }
  }

  // The walk lists a path and a node exactly when some entry leads to that node along that path.
  lemma {:induction false} WalkListsIff(place: Place, entries: seq<Entry>, path: seq<string>, target: Node)
    requires path != []
    ensures VisitOf(place, path, target) in DepthFirst(place, entries) <==>
            exists entry <- entries :: Leads(entry, path, target)
    decreases EntriesSize(entries), 1
  {
    if entries != [] {
      var n := |entries| - 1;
      WalkListsIff(place, entries[..n], path, target);
      LastLeadsIff(place, entries[n], path, target);
      assert entries == entries[..n] + [entries[n]];
    }
  }
}
