/** The bounded breadth-first library search (`WorkspaceState::search`) over finite directory trees. */
module LibrarySearch {
  import opened FileTrees
  import opened Results
  import opened Sequences

  datatype Root = Root(id: string, node: Node)

  const MAX_LIMIT: nat := 100
  const MAX_VISITS: nat := 10_000
  const MAX_QUERY: nat := 200

  // ----- the unbounded search -----

  // Everything a queue of directories leads to.
  function Drain(queue: seq<Place>): seq<Visit>
    decreases QueueSize(queue)
  {
    if queue == [] then []
    else
      var entries := Listing(queue[0].node);
      QueueShrinks(queue);
      Visits(queue[0], entries) + Drain(queue[1..] + Subdirectories(queue[0], entries))
  }

  // Below a root, paths start with its identifier.
  function Start(root: Root): Place {
    Place([root.id], root.node)
  }

  // Everything below the roots, one root after another.
  function AllVisits(roots: seq<Root>): seq<Visit> {
    if roots == [] then [] else Drain([Start(roots[0])]) + AllVisits(roots[1..])
  }

  // The regular files with a matching name.
  function Matches(visits: seq<Visit>, wanted: string -> bool): seq<Visit> {
    if visits == [] then []
    else
      var last := visits[|visits| - 1];
      Matches(visits[..|visits| - 1], wanted) + if last.node.File? && wanted(last.Name()) then [last] else []
  }

  lemma MatchesStep(visits: seq<Visit>, next: Visit, wanted: string -> bool)
    ensures Matches(visits + [next], wanted) ==
            Matches(visits, wanted) + if next.node.File? && wanted(next.Name()) then [next] else []
  {
    assert (visits + [next])[..|visits|] == visits;
  }

  lemma {:induction false} MatchesOfConcatenation(a: seq<Visit>, b: seq<Visit>, wanted: string -> bool)
    ensures Matches(a + b, wanted) == Matches(a, wanted) + Matches(b, wanted)
  {
    if b == [] {
      assert a + b == a;
    } else {
      var n := |b| - 1;
      MatchesOfConcatenation(a, b[..n], wanted);
      assert (a + b)[..|a + b| - 1] == a + b[..n];
    }
  }

  // ----- the bounded search -----

  datatype Found = Found(results: seq<Visit>, truncated: bool)

  function Min(a: nat, b: nat): nat { if a < b then a else b }

  function Take<T>(s: seq<T>, n: nat): seq<T> {
    s[..Min(n, |s|)]
  }

  // The matches among the visits that the budget allows, cut at the limit.
  function Bounded(visits: seq<Visit>, wanted: string -> bool, limit: nat): Found {
    Found(Take(Matches(Take(visits, MAX_VISITS), wanted), limit),
          |visits| > MAX_VISITS || |Matches(visits, wanted)| > limit)
  }

  // The search ran out of visits or of results after `seen`.
  lemma Exhausted(visits: seq<Visit>, seen: seq<Visit>, wanted: string -> bool, limit: nat)
    requires seen <= visits && |seen| == MAX_VISITS < |visits| && |Matches(seen, wanted)| <= limit
    ensures Bounded(visits, wanted, limit) == Found(Matches(seen, wanted), true)
  {
    assert Take(visits, MAX_VISITS) == seen;
  }

  lemma Overflowed(visits: seq<Visit>, seen: seq<Visit>, wanted: string -> bool, limit: nat)
    requires seen <= visits && |seen| <= MAX_VISITS && |Matches(seen, wanted)| > limit
    ensures Bounded(visits, wanted, limit) == Found(Matches(seen, wanted)[..limit], true)
  {
    var kept := Take(visits, MAX_VISITS);
    assert kept == seen + kept[|seen|..] && visits == seen + visits[|seen|..];
    MatchesOfConcatenation(seen, kept[|seen|..], wanted);
    MatchesOfConcatenation(seen, visits[|seen|..], wanted);
  }

  /** One directory of the search: `seen` are the visits before it, out of `all`. */
  method ScanDirectory(directory: Place, wanted: string -> bool, limit: nat, visits: nat, matches: seq<Visit>,
                       queue: seq<Place>, ghost seen: seq<Visit>, ghost all: seq<Visit>)
    returns (stop: bool, visits': nat, matches': seq<Visit>, queue': seq<Place>)
    requires seen + Visits(directory, Listing(directory.node)) <= all
    requires visits == |seen| <= MAX_VISITS && matches == Matches(seen, wanted) && |matches| <= limit
    ensures stop ==> Found(matches', true) == Bounded(all, wanted, limit)
    ensures !stop ==> visits' == |seen| + |Listing(directory.node)| <= MAX_VISITS && |matches'| <= limit
    ensures !stop ==> matches' == Matches(seen + Visits(directory, Listing(directory.node)), wanted)
    ensures !stop ==> queue' == queue + Subdirectories(directory, Listing(directory.node))
  {
    stop, visits', matches', queue' := false, visits, matches, queue;
    var entries := Listing(directory.node);
    ghost var now := seen;
    assert seen + Visits(directory, entries[..0]) == seen;
    for j := 0 to |entries|
      invariant !stop && now == seen + Visits(directory, entries[..j])
      invariant visits' == |now| <= MAX_VISITS
      invariant matches' == Matches(now, wanted) && |matches'| <= limit
      invariant queue' == queue + Subdirectories(directory, entries[..j])
    {
      ghost var next := VisitAt(directory, entries[j]);
      SeenSoFar(directory, entries, j, seen, all, queue);
      visits' := visits' + 1;
      if visits' > MAX_VISITS {
        Exhausted(all, now, wanted, limit);
        stop := true;
        return;
      }
      MatchesStep(now, next, wanted);
      now := now + [next];
      var node := entries[j].node;
      if node.Unknown? || node.Symlink? { continue; }
      if node.Dir? {
        queue' := queue' + [ChildPlace(directory, entries[j])];
        continue;
      }
      if !node.File? || !wanted(entries[j].name) { continue; }
      matches' := matches' + [VisitAt(directory, entries[j])];
      if |matches'| > limit {
        Overflowed(all, now, wanted, limit);
        stop, matches' := true, matches'[..limit];
        return;
      }
    }
    assert entries[..|entries|] == entries;
  }

  // The visits up to the entry at `j` are a prefix of all of them.
  lemma SeenSoFar(directory: Place, entries: seq<Entry>, j: nat, seen: seq<Visit>, all: seq<Visit>, queue: seq<Place>)
    requires j < |entries| && seen + Visits(directory, entries) <= all
    ensures seen + Visits(directory, entries[..j + 1]) ==
            seen + Visits(directory, entries[..j]) + [VisitAt(directory, entries[j])] <= all
    ensures queue + Subdirectories(directory, entries[..j + 1]) ==
            queue + Subdirectories(directory, entries[..j]) +
            if entries[j].node.Dir? then [ChildPlace(directory, entries[j])]
            else []
  {
    var part := Visits(directory, entries[..j]) + [VisitAt(directory, entries[j])];
    assert Visits(directory, entries[..j + 1]) == part == Visits(directory, entries)[..j + 1];
    assert seen + part == (seen + Visits(directory, entries))[..|seen| + j + 1];
    Associative(seen, Visits(directory, entries[..j]), [VisitAt(directory, entries[j])]);
    assert entries[..j + 1][..j] == entries[..j];
  }

  /** The queue loop below one root: `seen` are the visits before it, out of `all`. */
  method SearchRoot(root: Root, wanted: string -> bool, limit: nat, visits: nat, matches: seq<Visit>,
                    ghost seen: seq<Visit>, ghost all: seq<Visit>)
    returns (stop: bool, visits': nat, matches': seq<Visit>)
    requires seen + Drain([Start(root)]) <= all
    requires visits == |seen| <= MAX_VISITS && matches == Matches(seen, wanted) && |matches| <= limit
    ensures stop ==> Found(matches', true) == Bounded(all, wanted, limit)
    ensures !stop ==> visits' == |seen + Drain([Start(root)])| <= MAX_VISITS && |matches'| <= limit
    ensures !stop ==> matches' == Matches(seen + Drain([Start(root)]), wanted)
  {
    stop, visits', matches' := false, visits, matches;
    var queue := [Start(root)];
    ghost var now := seen;
    while queue != []
      invariant !stop && now + Drain(queue) == seen + Drain([Start(root)])
      invariant visits' == |now| <= MAX_VISITS && matches' == Matches(now, wanted) && |matches'| <= limit
      decreases QueueSize(queue)
    {
      var directory := queue[0];
      QueueShrinks(queue);
      ghost var here := Visits(directory, Listing(directory.node));
      Associative(now, here, Drain(queue[1..] + Subdirectories(directory, Listing(directory.node))));
      stop, visits', matches', queue :=
        ScanDirectory(directory, wanted, limit, visits', matches', queue[1..], now, all);
      if stop { return; }
      now := now + here;
    }
    assert now + [] == now;
  }

  /** The search over all roots, with its visit budget and its result limit. */
  method SearchRoots(roots: seq<Root>, wanted: string -> bool, limit: nat) returns (found: Found)
    ensures found == Bounded(AllVisits(roots), wanted, limit)
  {
    var matches: seq<Visit> := [];
    var visits := 0;
    ghost var all, seen := AllVisits(roots), [];
    for i := 0 to |roots|
      invariant all == seen + AllVisits(roots[i..])
      invariant visits == |seen| <= MAX_VISITS && matches == Matches(seen, wanted) && |matches| <= limit
    {
      assert roots[i..][1..] == roots[i + 1..];
      Associative(seen, Drain([Start(roots[i])]), AllVisits(roots[i + 1..]));
      var stop;
      stop, visits, matches := SearchRoot(roots[i], wanted, limit, visits, matches, seen, all);
      if stop { return Found(matches, true); }
      seen := seen + Drain([Start(roots[i])]);
    }
    assert all == seen;
    return Found(matches, false);
  }

  // ----- the search is truthful -----

  // The results are a prefix of the full list, complete unless a bound cut the search, and complete exactly when
  // nothing was cut off.
  lemma SearchIsTruthful(roots: seq<Root>, wanted: string -> bool, limit: nat)
    ensures var found, full := Bounded(AllVisits(roots), wanted, limit), Matches(AllVisits(roots), wanted);
            && |found.results| <= limit && found.results <= full
            && (!found.truncated ==> found.results == full)
    ensures var all := AllVisits(roots);
            Bounded(all, wanted, limit).results == Matches(all, wanted) <==>
            |Matches(all, wanted)| <= limit && Matches(all[Min(MAX_VISITS, |all|)..], wanted) == []
  {
    var all := AllVisits(roots);
    var kept, cut := Take(all, MAX_VISITS), all[Min(MAX_VISITS, |all|)..];
    assert all == kept + cut;
    MatchesOfConcatenation(kept, cut, wanted);
    if |all| <= MAX_VISITS { assert kept == all; }
  }

  // ----- breadth first -----

  // The entries of every directory of one level, and the directories of the next.
  function LevelVisits(queue: seq<Place>): seq<Visit> {
    if queue == [] then [] else Visits(queue[0], Listing(queue[0].node)) + LevelVisits(queue[1..])
  }

  function NextLevel(queue: seq<Place>): seq<Place> {
    if queue == [] then [] else Subdirectories(queue[0], Listing(queue[0].node)) + NextLevel(queue[1..])
  }

  lemma {:induction false} LevelsShrink(queue: seq<Place>)
    ensures QueueSize(NextLevel(queue)) <= QueueSize(queue)
    ensures queue != [] ==> QueueSize(NextLevel(queue)) < QueueSize(queue)
  {
    if queue != [] {
      var subdirectories := Subdirectories(queue[0], Listing(queue[0].node));
      QueueShrinks(queue);
      LevelsShrink(queue[1..]);
      QueueSizeOfConcatenation(subdirectories, NextLevel(queue[1..]));
      QueueSizeOfConcatenation(queue[1..], subdirectories);
    }
  }

  // The reference: one whole level after another.
  function LevelOrder(queue: seq<Place>): seq<Visit>
    decreases QueueSize(queue)
  {
    if queue == [] then []
    else
      LevelsShrink(queue);
      LevelVisits(queue) + LevelOrder(NextLevel(queue))
  }

  lemma {:induction false} DrainALevel(level: seq<Place>, next: seq<Place>)
    ensures Drain(level + next) == LevelVisits(level) + Drain(next + NextLevel(level))
    decreases |level|
  {
    if level == [] {
      assert level + next == next == next + [];
    } else {
      var here, below := Visits(level[0], Listing(level[0].node)), Subdirectories(level[0], Listing(level[0].node));
      assert (level + next)[1..] + below == level[1..] + (next + below);
      DrainALevel(level[1..], next + below);
      Associative(next, below, NextLevel(level[1..]));
      Associative(here, LevelVisits(level[1..]), Drain(next + NextLevel(level)));
    }
  }

  // Taking directories from the front and queueing their subdirectories at the back lists the tree level by level.
  lemma {:induction false} SearchIsBreadthFirst(queue: seq<Place>)
    ensures Drain(queue) == LevelOrder(queue)
    decreases QueueSize(queue)
  {
    if queue != [] {
      DrainALevel(queue, []);
      assert queue + [] == queue && [] + NextLevel(queue) == NextLevel(queue);
      LevelsShrink(queue);
      SearchIsBreadthFirst(NextLevel(queue));
    }
  }

  // ----- every reachable entry, and each once -----

  // The search visits what a depth-first walk visits, each entry as often.
  lemma {:induction false} SearchIsAPermutedWalk(queue: seq<Place>)
    ensures multiset(Drain(queue)) == multiset(Walks(queue))
    decreases QueueSize(queue)
  {
    if queue != [] {
      var below := Subdirectories(queue[0], Listing(queue[0].node));
      QueueShrinks(queue);
      SearchIsAPermutedWalk(queue[1..] + below);
      WalksOfConcatenation(queue[1..], below);
      WalkSplits(queue[0], Listing(queue[0].node));
    }
  }

  // Below one root the search visits exactly the entries that a path through readable directories reaches.
  lemma SearchVisitsIff(root: Root, path: seq<string>, target: Node)
    requires path != []
    ensures Visit([root.id] + path, target) in Drain([Start(root)]) <==> Reaches(root.node, path, target)
  {
    var start := Start(root);
    SearchIsAPermutedWalk([start]);
    SameMembers(Drain([start]), Walks([start]), VisitOf(start, path, target));
    OneWalk(start);
    WalkListsIff(start, Listing(root.node), path, target);
  }

  // The full list holds exactly the regular files with a matching name among the visits.
  lemma {:induction false} MatchesIff(visits: seq<Visit>, wanted: string -> bool, v: Visit)
    ensures v in Matches(visits, wanted) <==> v in visits && v.node.File? && wanted(v.Name())
  {
    if visits != [] {
      var n := |visits| - 1;
      MatchesIff(visits[..n], wanted, v);
      assert visits == visits[..n] + [visits[n]];
    }
  }

  lemma {:induction false} AllVisitsIff(roots: seq<Root>, v: Visit)
    ensures v in AllVisits(roots) <==> exists root <- roots :: v in Drain([Start(root)])
  {
    if roots != [] {
      AllVisitsIff(roots[1..], v);
      assert forall root :: root in roots <==> root == roots[0] || root in roots[1..];
    }
  }

  // A path below a root with another identifier is not visited there.
  lemma VisitsShowTheRoot(root: Root, v: Visit)
    requires v in Drain([Start(root)])
    ensures v.path != [] && v.path[0] == root.id
  {
    var start := Start(root);
    SearchIsAPermutedWalk([start]);
    SameMembers(Drain([start]), Walks([start]), v);
    OneWalk(start);
    ListedBelow(start, Listing(root.node), v);
  }

  lemma RootShowsIff(root: Root, id: string, path: seq<string>)
    requires path != []
    ensures Visit([id] + path, File) in Drain([Start(root)]) <==> root.id == id && Reaches(root.node, path, File)
  {
    if root.id == id {
      SearchVisitsIff(root, path, File);
    } else if Visit([id] + path, File) in Drain([Start(root)]) {
      VisitsShowTheRoot(root, Visit([id] + path, File));
    }
  }

  /** Uncut results are exactly the regular files with a matching name that some root reaches without a symlink. */
  lemma UncutResultsAreTheMatchingFiles(roots: seq<Root>, wanted: string -> bool, limit: nat, id: string,
                                        path: seq<string>)
    requires path != [] && !Bounded(AllVisits(roots), wanted, limit).truncated
    ensures Visit([id] + path, File) in Bounded(AllVisits(roots), wanted, limit).results <==>
            wanted(path[|path| - 1]) && exists root <- roots :: root.id == id && Reaches(root.node, path, File)
  {
    var v := Visit([id] + path, File);
    SearchIsTruthful(roots, wanted, limit);
    MatchesIff(AllVisits(roots), wanted, v);
    AllVisitsIff(roots, v);
    forall root ensures v in Drain([Start(root)]) <==> root.id == id && Reaches(root.node, path, File) {
      RootShowsIff(root, id, path);
    }
  }

  // ----- the request -----

  datatype SearchError = InvalidQuery | InvalidLimit

  type SearchResult<+T> = Results.Result<T, SearchError>

  // What the string library decides: trimming, lower-casing and the length in bytes.
  datatype Text = Text(trim: string -> string, lower: string -> string, bytes: string -> nat)

  predicate ContainsFrom(value: string, needle: string, i: nat)
    decreases |value| - i
  {
    i <= |value| - |needle| && (value[i..][..|needle|] == needle || ContainsFrom(value, needle, i + 1))
  }

  lemma {:induction false} ContainsIff(value: string, needle: string, i: nat)
    ensures ContainsFrom(value, needle, i) <==>
            exists k :: i <= k <= |value| - |needle| && value[k..][..|needle|] == needle
    decreases |value| - i
  {
    if i <= |value| - |needle| { ContainsIff(value, needle, i + 1); }
  }

  // The names that contain the query, cases aside.
  function Wanted(query: string, text: Text): string -> bool {
    var needle := text.lower(text.trim(query));
    (name: string) => ContainsFrom(text.lower(name), needle, 0)
  }

  // One match as it is reported: the root, the names below it with slashes between, and the file's own name.
  datatype SearchMatch = SearchMatch(rootId: string, path: string, name: string)

  datatype SearchMatches = SearchMatches(results: seq<SearchMatch>, truncated: bool)

  function Display(names: seq<string>): string {
    if names == [] then "" else if |names| == 1 then names[0] else names[0] + "/" + Display(names[1..])
  }

  function Reported(v: Visit): SearchMatch {
    if v.path == [] then SearchMatch("", "", "") else SearchMatch(v.path[0], Display(v.path[1..]), v.Name())
  }

  function ReportedAll(found: Found): SearchMatches {
    SearchMatches(seq(|found.results|, i requires 0 <= i < |found.results| => Reported(found.results[i])),
                  found.truncated)
  }

  /** Validates the query and the limit, then searches for the lower-cased query. */
  method Search(roots: seq<Root>, query: string, limit: nat, text: Text) returns (r: SearchResult<SearchMatches>)
    ensures r == Err(InvalidQuery) <==> text.trim(query) == "" || text.bytes(text.trim(query)) > 200
    ensures r == Err(InvalidLimit) <==> r != Err(InvalidQuery) && !(1 <= limit <= 100)
    ensures r.Ok? ==> r.value == ReportedAll(Bounded(AllVisits(roots), Wanted(query, text), limit))
  {
    var trimmed := text.trim(query);
    if trimmed == "" || text.bytes(trimmed) > MAX_QUERY { return Err(InvalidQuery); }
    if !(1 <= limit <= MAX_LIMIT) { return Err(InvalidLimit); }
    var found := SearchRoots(roots, Wanted(query, text), limit);
    return Ok(ReportedAll(found));
  }

  lemma LongDisplaysHaveSlashes(names: seq<string>)
    requires |names| > 1
    ensures '/' in Display(names)
  {
    assert Display(names)[|names[0]|] == '/';
  }

  lemma {:induction false} DisplayIsInjective(a: seq<string>, b: seq<string>)
    requires Display(a) == Display(b) && a != [] && b != []
    requires forall name :: name in a || name in b ==> '/' !in name
    ensures a == b
  {
    if |a| > 1 { LongDisplaysHaveSlashes(a); }
    if |b| > 1 { LongDisplaysHaveSlashes(b); }
    assert a[0] in a && b[0] in b;
    assert a == [a[0]] + a[1..] && b == [b[0]] + b[1..];
    if |a| > 1 && |b| > 1 {
      FirstNames(a[0], Display(a[1..]), b[0], Display(b[1..]));
      DisplayIsInjective(a[1..], b[1..]);
    }
  }

  // The part before the first slash, and what follows it.
  lemma FirstNames(a: string, s: string, b: string, t: string)
    requires '/' !in a && '/' !in b && a + "/" + s == b + "/" + t
    ensures a == b && s == t
  {
    var whole := a + "/" + s;
    assert whole[|a|] == '/' && whole[|b|] == '/';
    assert forall k :: 0 <= k < |a| ==> whole[k] == a[k];
    assert forall k :: 0 <= k < |b| ==> whole[k] == b[k];
    assert whole[..|a|] == a && whole[..|b|] == b && whole[|a| + 1..] == s && whole[|b| + 1..] == t;
  }

  /** Different files are reported differently: the root and the displayed path name one file. */
  lemma ReportsAreDistinct(u: Visit, v: Visit)
    requires |u.path| > 1 && |v.path| > 1 && u.node == v.node && Reported(u) == Reported(v)
    requires forall name :: name in u.path[1..] || name in v.path[1..] ==> '/' !in name
    ensures u == v
  {
    DisplayIsInjective(u.path[1..], v.path[1..]);
    assert u.path == [u.path[0]] + u.path[1..] && v.path == [v.path[0]] + v.path[1..];
  }
}
