/** What a library search reports, said of the names in the trees and of the request. */
module SearchFacts {
  import opened FileTrees
  import opened LibrarySearch
  import opened Sequences

  // ----- which names match -----

  // The text holds the needle from position k on.
  ghost predicate HoldsAt(value: string, needle: string, k: nat) {
    k + |needle| <= |value| && value[k..k + |needle|] == needle
  }

  /** A name is wanted exactly when its lower-cased form holds the trimmed and lower-cased query. */
  lemma WantedIff(query: string, text: Text, name: string)
    ensures Wanted(query, text)(name) <==>
            exists k: nat :: HoldsAt(text.lower(name), text.lower(text.trim(query)), k)
  {
    var value, needle := text.lower(name), text.lower(text.trim(query));
    ContainsIff(value, needle, 0);
    if k :| 0 <= k <= |value| - |needle| && value[k..][..|needle|] == needle {
      assert value[k..k + |needle|] == value[k..][..|needle|];
      assert HoldsAt(value, needle, k);
    }
    if k: nat :| HoldsAt(value, needle, k) { assert value[k..][..|needle|] == value[k..k + |needle|]; }
  }

  // ----- which of the visits are reported -----

  // A regular file whose own name is wanted.
  ghost function IsMatch(wanted: string -> bool): Visit -> bool {
    (v: Visit) => v.node.File? && v.path != [] && wanted(v.path[|v.path| - 1])
  }

  lemma {:induction false} MatchesAre(visits: seq<Visit>, wanted: string -> bool)
    requires forall i :: 0 <= i < |visits| ==> visits[i].path != []
    ensures Matches(visits, wanted) == Filtered(visits, IsMatch(wanted))
  {
    if visits != [] { MatchesAre(visits[..|visits| - 1], wanted); }
  }

  lemma DrainHasPaths(root: Root, i: nat)
    requires i < |Drain([Start(root)])|
    ensures Drain([Start(root)])[i].path != []
  {
    VisitsShowTheRoot(root, Drain([Start(root)])[i]);
  }

  lemma {:induction false} AllHavePaths(roots: seq<Root>, i: nat)
    requires i < |AllVisits(roots)|
    ensures AllVisits(roots)[i].path != []
  {
    var first := Drain([Start(roots[0])]);
    if i < |first| { DrainHasPaths(roots[0], i); } else { AllHavePaths(roots[1..], i - |first|); }
  }

  /** The search looks at the first 10000 entries and reports the first wanted files among them, up to the limit. It
      says that something may be missing exactly when there are more entries or more wanted files. */
  lemma BoundedIs(roots: seq<Root>, wanted: string -> bool, limit: nat)
    ensures var all, found := AllVisits(roots), Bounded(AllVisits(roots), wanted, limit);
            var files := Filtered(if |all| <= 10000 then all else all[..10000], IsMatch(wanted));
            && found.results == (if |files| <= limit then files else files[..limit])
            && (found.truncated <==> |all| > 10000 || |Filtered(all, IsMatch(wanted))| > limit)
  {
    var all := AllVisits(roots);
    var kept := Take(all, MAX_VISITS);
    forall i | 0 <= i < |all| ensures all[i].path != [] { AllHavePaths(roots, i); }
    MatchesAre(all, wanted);
    MatchesAre(kept, wanted);
    assert |all| <= 10000 ==> kept == all;
    assert |Matches(kept, wanted)| <= limit ==> Take(Matches(kept, wanted), limit) == Matches(kept, wanted);
  }

  // ----- how they are reported -----

  // The names with a slash between two.
  ghost function Slashed(names: seq<string>): string
    requires names != []
  {
    if |names| == 1 then names[0] else Slashed(names[..|names| - 1]) + "/" + names[|names| - 1]
  }

  lemma {:induction false} DisplayMore(names: seq<string>, last: string)
    requires names != []
    ensures Display(names + [last]) == Display(names) + "/" + last
  {
    var more := names + [last];
    assert more[1..] == names[1..] + [last];
    if |names| > 1 {
      DisplayMore(names[1..], last);
    } else {
      assert Display(more[1..]) == last;
    }
  }

  lemma {:induction false} DisplayIsSlashed(names: seq<string>)
    requires names != []
    ensures Display(names) == Slashed(names)
  {
    if |names| > 1 {
      var n := |names| - 1;
      DisplayIsSlashed(names[..n]);
      DisplayMore(names[..n], names[n]);
      SplitLast(names, n);
    }
  }

  /** A match is reported by the identifier of its root, the names below it with slashes between, and its own name. */
  lemma ReportIs(id: string, names: seq<string>, node: Node)
    requires names != []
    ensures Reported(Visit([id] + names, node)) == SearchMatch(id, Slashed(names), names[|names| - 1])
  {
    DisplayIsSlashed(names);
    assert ([id] + names)[1..] == names;
  }

  /** All matches are reported, each in its place, with the flag. */
  lemma ReportsAre(found: Found)
    ensures |ReportedAll(found).results| == |found.results| && ReportedAll(found).truncated == found.truncated
    ensures forall i :: 0 <= i < |found.results| ==> ReportedAll(found).results[i] == Reported(found.results[i])
  {
  }

  // ----- in which order the entries are visited -----

  lemma OneRoot(root: Root)
    ensures AllVisits([root]) == Drain([Start(root)])
  {
    assert [root][1..] == [];
    assert Drain([Start(root)]) + [] == Drain([Start(root)]);
  }

  /** Roots are searched one after another. */
  lemma {:induction false} RootsInTurn(roots: seq<Root>, root: Root)
    ensures AllVisits(roots + [root]) == AllVisits(roots) + Drain([Start(root)])
  {
    if roots == [] {
      assert roots + [root] == [root];
      OneRoot(root);
    } else {
      RootsInTurn(roots[1..], root);
      assert (roots + [root])[1..] == roots[1..] + [root];
      Associative(Drain([Start(roots[0])]), AllVisits(roots[1..]), Drain([Start(root)]));
    }
  }

  /** The entries of a directory are visited in the order in which they are listed, before anything below them. */
  lemma DirectoryFirst(root: Root, entries: seq<Entry>, i: nat)
    requires root.node == Dir(true, entries) && i < |entries|
    ensures i < |Drain([Start(root)])|
    ensures Drain([Start(root)])[i] == Visit([root.id, entries[i].name], entries[i].node)
  {
    assert [root.id] + [entries[i].name] == [root.id, entries[i].name];
    assert Visits(Start(root), entries)[i] == VisitAt(Start(root), entries[i]);
  }

  ghost predicate AtDepth(queue: seq<Place>, depth: nat) {
    forall i :: 0 <= i < |queue| ==> |queue[i].path| == depth
  }

  lemma {:induction false} SubdirectoriesDepth(place: Place, entries: seq<Entry>)
    ensures AtDepth(Subdirectories(place, entries), |place.path| + 1)
  {
    if entries != [] { SubdirectoriesDepth(place, entries[..|entries| - 1]); }
  }

  lemma {:induction false} LevelDepth(queue: seq<Place>, depth: nat)
    requires AtDepth(queue, depth)
    ensures forall i :: 0 <= i < |LevelVisits(queue)| ==> |LevelVisits(queue)[i].path| == depth + 1
    ensures AtDepth(NextLevel(queue), depth + 1)
  {
    if queue != [] {
      LevelDepth(queue[1..], depth);
      SubdirectoriesDepth(queue[0], Listing(queue[0].node));
    }
  }

  lemma {:induction false} LevelsDescend(queue: seq<Place>, depth: nat)
    requires AtDepth(queue, depth)
    ensures forall i :: 0 <= i < |LevelOrder(queue)| ==> |LevelOrder(queue)[i].path| > depth
    ensures forall i, j :: 0 <= i < j < |LevelOrder(queue)| ==>
              |LevelOrder(queue)[i].path| <= |LevelOrder(queue)[j].path|
    decreases QueueSize(queue)
  {
    if queue != [] {
      LevelsShrink(queue);
      LevelDepth(queue, depth);
      LevelsDescend(NextLevel(queue), depth + 1);
    }
  }

  /** No entry is visited before one that lies closer to the root. */
  lemma CloserComesFirst(root: Root, i: nat, j: nat)
    requires i < j < |Drain([Start(root)])|
    ensures |Drain([Start(root)])[i].path| <= |Drain([Start(root)])[j].path|
  {
    DrainDescends([Start(root)], 1, i, j);
  }

  lemma DrainDescends(queue: seq<Place>, depth: nat, i: nat, j: nat)
    requires AtDepth(queue, depth) && i < j < |Drain(queue)|
    ensures |Drain(queue)[i].path| <= |Drain(queue)[j].path|
  {
    SearchIsBreadthFirst(queue);
    LevelsDescend(queue, depth);
  }
}
