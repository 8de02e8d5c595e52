/** Migration of legacy configuration files (`config.rs`): nested inserts and merges that never override. */
module ConfigMigration {
  import opened Options

  // A configuration value: a table, a list of names, or one scalar.
  datatype Value = Scalar(text: string) | Names(items: seq<string>) | Table(entries: Settings)

  type Settings = map<string, Value>

  type Path = seq<string>

  // ----- nested insert and merge -----

  // `insert_nested_if_absent`
  function Insert(values: Settings, path: Path, value: Value): Settings
    decreases |path|
  {
    if path == [] then values
    else if |path| == 1 then if path[0] in values then values else values[path[0] := value]
    else
      var entry := if path[0] in values then values[path[0]] else Table(map[]);
      if entry.Table? then values[path[0] := Table(Insert(entry.entries, path[1..], value))] else values
  }

  // One key of a merge: the existing entry wins, and tables merge entry by entry.
  function MergeEntry(existing: Option<Value>, incoming: Value): Value
    decreases incoming, 1
  {
    if existing.None? then incoming
    else if existing.value.Table? && incoming.Table? then Table(Merge(existing.value.entries, incoming))
    else existing.value
  }

  // `merge_nested`, whatever the iteration order.
  function Merge(values: Settings, incoming: Value): Settings
    requires incoming.Table?
    decreases incoming, 0
  {
    map k | k in values.Keys + incoming.entries.Keys ::
      if k !in incoming.entries then values[k]
      else MergeEntry(if k in values then Some(values[k]) else None, incoming.entries[k])
  }

  /** The loop of `merge_nested`, over the incoming entries in any order. */
  method MergeNested(values: Settings, incoming: Value) returns (r: Settings)
    requires incoming.Table?
    ensures r == Merge(values, incoming)
    decreases incoming
  {
    r := values;
    var left := incoming.entries.Keys;
    while left != {}
      invariant left <= incoming.entries.Keys
      invariant r.Keys == values.Keys + (incoming.entries.Keys - left)
      invariant forall k :: k in r ==> r[k] == if k in left || k !in incoming.entries then values[k]
                else Merge(values, incoming)[k]
      decreases left
    {
      var key :| key in left;
      left := left - {key};
      var value := incoming.entries[key];
      if key in r {
        if value.Table? && r[key].Table? {
          var merged := MergeNested(r[key].entries, value);
          r := r[key := Table(merged)];
        }
      } else {
        r := r[key := value];
      }
    }
  }

  // ----- what a lookup sees -----

  // The scalar or list at the end of a path through tables.
  function LeafAt(values: Settings, path: Path): Option<Value>
    decreases |path|
  {
    if path == [] || path[0] !in values then None
    else if |path| == 1 then if values[path[0]].Table? then None else Some(values[path[0]])
    else if values[path[0]].Table? then LeafAt(values[path[0]].entries, path[1..])
    else None
  }

  // An existing entry decides the path: it sits at the path, or a leaf sits above it.
  predicate Taken(values: Settings, path: Path)
    decreases |path|
  {
    path != [] && path[0] in values &&
    (|path| == 1 || !values[path[0]].Table? || Taken(values[path[0]].entries, path[1..]))
  }

  // What a value holds at a path below it.
  function LeafOf(value: Value, path: Path): Option<Value> {
    if path == [] then if value.Table? then None else Some(value)
    else if value.Table? then LeafAt(value.entries, path)
    else None
  }

  /** After an insert, every leaf path holds what it held, except that a free target and the paths
      below it hold the inserted value. */
  lemma {:induction false} InsertMeaning(values: Settings, path: Path, value: Value, q: Path)
    requires path != []
    ensures LeafAt(Insert(values, path, value), q) ==
            if !Taken(values, path) && path <= q then LeafOf(value, q[|path|..]) else LeafAt(values, q)
    decreases |path|
  {
    if |path| == 1 {
      if path <= q {
        assert path[0] == q[0];
        if |q| > 1 { assert q[1..] == q[|path|..]; }
      }
      if q != [] && q[0] == path[0] { assert path <= q; }
    } else {
      var entry := if path[0] in values then values[path[0]] else Table(map[]);
      if entry.Table? && q != [] && q[0] == path[0] {
        InsertMeaning(entry.entries, path[1..], value, q[1..]);
        assert path <= q <==> path[1..] <= q[1..];
        if path <= q { assert q[1..][|path[1..]|..] == q[|path|..]; }
      }
    }
  }

  /** An insert never overrides: every leaf that was present keeps its value. */
  lemma {:induction false} InsertNeverOverrides(values: Settings, path: Path, value: Value, q: Path)
    requires LeafAt(values, q).Some?
    ensures LeafAt(Insert(values, path, value), q) == LeafAt(values, q)
    decreases |path|
  {
    if path != [] {
      InsertMeaning(values, path, value, q);
      if path <= q { PrefixOfLeafIsTaken(values, path, q); }
    }
  }

  lemma {:induction false} PrefixOfLeafIsTaken(values: Settings, path: Path, q: Path)
    requires LeafAt(values, q).Some? && path != [] && path <= q
    ensures Taken(values, path)
    decreases |path|
  {
    assert path[0] == q[0];
    if |path| > 1 {
      assert path[1..] <= q[1..];
      PrefixOfLeafIsTaken(values[q[0]].entries, path[1..], q[1..]);
    }
  }

  /** After a merge, every leaf path holds the existing setting where one decides the path, and the
      incoming one everywhere else. */
  lemma {:induction false} MergeMeaning(values: Settings, incoming: Value, q: Path)
    requires incoming.Table?
    ensures LeafAt(Merge(values, incoming), q) == if Taken(values, q) then LeafAt(values, q)
            else LeafAt(incoming.entries, q)
    decreases |q|
  {
    if q != [] && q[0] in incoming.entries && q[0] in values && |q| > 1 {
      if values[q[0]].Table? && incoming.entries[q[0]].Table? {
        MergeMeaning(values[q[0]].entries, incoming.entries[q[0]], q[1..]);
      } else if values[q[0]].Table? {
        if !Taken(values[q[0]].entries, q[1..]) { NotTakenNoLeaf(values[q[0]].entries, q[1..]); }
      }
    } else if q != [] && q[0] in values && |q| > 1 && values[q[0]].Table? {
      if !Taken(values[q[0]].entries, q[1..]) { NotTakenNoLeaf(values[q[0]].entries, q[1..]); }
    }
  }

  lemma {:induction false} NotTakenNoLeaf(values: Settings, q: Path)
    requires !Taken(values, q)
    ensures LeafAt(values, q).None?
    decreases |q|
  {
    if |q| > 1 && q[0] in values && values[q[0]].Table? { NotTakenNoLeaf(values[q[0]].entries, q[1..]); }
  }

  /** A merge never overrides: every leaf that was present keeps its value. */
  lemma MergeNeverOverrides(values: Settings, incoming: Value, q: Path)
    requires incoming.Table? && LeafAt(values, q).Some?
    ensures LeafAt(Merge(values, incoming), q) == LeafAt(values, q)
  {
    MergeMeaning(values, incoming, q);
    PrefixOfLeafIsTaken(values, q, q);
  }

  // ----- merging twice -----

  // The middle ends the path at a leaf where the first table goes on without deciding it.
  predicate Hides(values: Settings, middle: Settings, q: Path)
    decreases |q|
  {
    && |q| > 1 && q[0] in values && values[q[0]].Table? && q[0] in middle
    && if middle[q[0]].Table? then Hides(values[q[0]].entries, middle[q[0]].entries, q[1..])
       else !Taken(values[q[0]].entries, q[1..])
  }

  lemma {:induction false} TakenOfMerge(values: Settings, middle: Value, q: Path)
    requires middle.Table?
    ensures Hides(values, middle.entries, q) ==>
              Taken(middle.entries, q) && !Taken(values, q) && LeafAt(middle.entries, q) == None
    ensures Taken(Merge(values, middle), q) <==>
            Taken(values, q) || (Taken(middle.entries, q) && !Hides(values, middle.entries, q))
    decreases |q|
  {
    if |q| > 1 && q[0] in values && q[0] in middle.entries {
      if values[q[0]].Table? && middle.entries[q[0]].Table? {
        TakenOfMerge(values[q[0]].entries, middle.entries[q[0]], q[1..]);
      }
    }
  }

  /** Merging is associative at a path exactly unless the middle hides it there from a leaf on the right. */
  lemma MergeAssociatesIff(values: Settings, middle: Value, right: Value, q: Path)
    requires middle.Table? && right.Table?
    ensures LeafAt(Merge(Merge(values, middle), right), q) ==
            LeafAt(Merge(values, Table(Merge(middle.entries, right))), q) <==>
            !(Hides(values, middle.entries, q) && LeafAt(right.entries, q).Some?)
  {
    MergeMeaning(Merge(values, middle), right, q);
    MergeMeaning(values, middle, q);
    MergeMeaning(values, Table(Merge(middle.entries, right)), q);
    MergeMeaning(middle.entries, right, q);
    TakenOfMerge(values, middle, q);
  }

  /** Merging is not associative: a scalar in the middle hides a table from the right. */
  lemma MergeIsNotAssociative()
    ensures var values: Settings := map["k" := Table(map[])];
            var middle, right := Table(map["k" := Scalar("s")]), Table(map["k" := Table(map["x" := Scalar("t")])]);
            Merge(Merge(values, middle), right) != Merge(values, Table(Merge(middle.entries, right)))
  {
    var values: Settings := map["k" := Table(map[])];
    var middle, right := Table(map["k" := Scalar("s")]), Table(map["k" := Table(map["x" := Scalar("t")])]);
    var q := ["k", "x"];
    assert q[1..] == ["x"];
    MergeAssociatesIff(values, middle, right, q);
  }

  // ----- moving legacy values -----

  // `move_legacy_value`: the first alias that is present moves to the target, and every alias goes.
  datatype MoveRule = MoveRule(aliases: seq<string>, target: Path)

  function FirstPresent(values: Settings, aliases: seq<string>): Option<Value> {
    if aliases == [] then None
    else if aliases[0] in values then Some(values[aliases[0]])
    else FirstPresent(values, aliases[1..])
  }

  function Without(values: Settings, aliases: seq<string>): Settings {
    map k | k in values && k !in aliases :: values[k]
  }

  /** The alias loop of `take_legacy_value`. */
  method TakeLegacyValue(values: Settings, aliases: seq<string>) returns (selected: Option<Value>, rest: Settings)
    ensures selected == FirstPresent(values, aliases)
    ensures rest == Without(values, aliases)
  {
    selected, rest := None, values;
    for i := 0 to |aliases|
      invariant rest == Without(values, aliases[..i])
      invariant selected.None? ==> forall k :: 0 <= k < i ==> aliases[k] !in values
      invariant FirstPresent(values, aliases) == if selected.Some? then selected else FirstPresent(values, aliases[i..])
    {
      assert aliases[i..][1..] == aliases[i + 1..];
      assert aliases[..i + 1] == aliases[..i] + [aliases[i]];
      var value := if aliases[i] in rest then Some(rest[aliases[i]]) else None;
      rest := map k | k in rest && k != aliases[i] :: rest[k];
      if selected.None? { selected := value; }
    }
    assert aliases[|aliases|..] == [] && aliases[..|aliases|] == aliases;
  }

  function Move(values: Settings, rule: MoveRule): Settings {
    match FirstPresent(values, rule.aliases)
    case None => Without(values, rule.aliases)
    case Some(value) => Insert(Without(values, rule.aliases), rule.target, value)
  }

  function ApplyMoves(values: Settings, rules: seq<MoveRule>): Settings
    decreases |rules|
  {
    if rules == [] then values else ApplyMoves(Move(values, rules[0]), rules[1..])
  }

  lemma WithoutKeeps(values: Settings, aliases: seq<string>, q: Path)
    requires q != [] && q[0] !in aliases
    ensures LeafAt(Without(values, aliases), q) == LeafAt(values, q)
    ensures Taken(Without(values, aliases), q) == Taken(values, q)
  {
  }

  /** A move keeps every leaf but the aliases themselves. */
  lemma MoveNeverOverrides(values: Settings, rule: MoveRule, q: Path)
    requires LeafAt(values, q).Some? && q[0] !in rule.aliases
    ensures LeafAt(Move(values, rule), q) == LeafAt(values, q)
  {
    WithoutKeeps(values, rule.aliases, q);
    var selected := FirstPresent(values, rule.aliases);
    if selected.Some? { InsertNeverOverrides(Without(values, rule.aliases), rule.target, selected.value, q); }
  }

  lemma {:induction false} MovesNeverOverride(values: Settings, rules: seq<MoveRule>, q: Path)
    requires LeafAt(values, q).Some? && forall r :: r in rules ==> q[0] !in r.aliases
    ensures LeafAt(ApplyMoves(values, rules), q) == LeafAt(values, q)
    decreases |rules|
  {
    if rules != [] {
      assert rules[0] in rules && forall r :: r in rules[1..] ==> r in rules;
      MoveNeverOverrides(values, rules[0], q);
      MovesNeverOverride(Move(values, rules[0]), rules[1..], q);
    }
  }

  predicate Unrelated(p: Path, q: Path) {
    !(p <= q) && !(q <= p)
  }

  lemma {:induction false} InsertElsewhere(values: Settings, path: Path, value: Value, q: Path)
    requires path != [] && q != [] && Unrelated(path, q)
    ensures Taken(Insert(values, path, value), q) == Taken(values, q)
    decreases |path|
  {
    assert path[0] == q[0] ==> |path| > 1 && |q| > 1;
    if |path| > 1 {
      var entry := if path[0] in values then values[path[0]] else Table(map[]);
      if entry.Table? && q[0] == path[0] {
        assert path <= q <==> path[1..] <= q[1..];
        assert q <= path <==> q[1..] <= path[1..];
        InsertElsewhere(entry.entries, path[1..], value, q[1..]);
        if path[0] !in values { assert !Taken(map[], q[1..]); }
      }
    }
  }

  // A move with another target changes neither the leaf nor whether the path is taken.
  lemma MoveElsewhere(values: Settings, rule: MoveRule, q: Path)
    requires rule.target != [] && q != [] && Unrelated(rule.target, q) && q[0] !in rule.aliases
    ensures LeafAt(Move(values, rule), q) == LeafAt(values, q)
    ensures Taken(Move(values, rule), q) == Taken(values, q)
  {
    WithoutKeeps(values, rule.aliases, q);
    var selected := FirstPresent(values, rule.aliases);
    if selected.Some? {
      InsertMeaning(Without(values, rule.aliases), rule.target, selected.value, q);
      InsertElsewhere(Without(values, rule.aliases), rule.target, selected.value, q);
    }
  }

  // No rule touches the aliases or the target of another.
  ghost predicate Independent(rules: seq<MoveRule>) {
    && (forall i :: 0 <= i < |rules| ==> rules[i].target != [])
    && (forall i, j :: 0 <= i < |rules| && 0 <= j < |rules| ==> rules[i].target[0] !in rules[j].aliases)
    && (forall i, j :: 0 <= i < |rules| && 0 <= j < |rules| && i != j ==>
          Unrelated(rules[i].target, rules[j].target) && forall a :: a in rules[i].aliases ==> a !in rules[j].aliases)
  }

  lemma {:induction false} AliasesUntouched(values: Settings, rule: MoveRule, aliases: seq<string>)
    requires rule.target != []
    requires forall a :: a in aliases ==> a !in rule.aliases && a != rule.target[0]
    ensures FirstPresent(Move(values, rule), aliases) == FirstPresent(values, aliases)
  {
    if aliases != [] {
      assert aliases[0] in aliases && forall a :: a in aliases[1..] ==> a in aliases;
      AliasesUntouched(values, rule, aliases[1..]);
    }
  }

  // What one rule leaves at its target, or below it when the setting is a table.
  function Migrated(values: Settings, rule: MoveRule, below: Path): Option<Value> {
    if Taken(values, rule.target) then LeafAt(values, rule.target + below)
    else
      match FirstPresent(values, rule.aliases)
      case None => None
      case Some(value) => LeafOf(value, below)
  }

  lemma {:induction false} NothingBelow(values: Settings, path: Path, below: Path)
    requires path != [] && !Taken(values, path)
    ensures LeafAt(values, path + below) == None
    decreases |path|
  {
    if |path| > 1 && path[0] in values {
      NothingBelow(values[path[0]].entries, path[1..], below);
      assert (path + below)[1..] == path[1..] + below;
    }
  }

  lemma MoveMigrates(values: Settings, rule: MoveRule, below: Path)
    requires rule.target != [] && rule.target[0] !in rule.aliases
    ensures LeafAt(Move(values, rule), rule.target + below) == Migrated(values, rule, below)
  {
    var q := rule.target + below;
    WithoutKeeps(values, rule.aliases, q);
    WithoutKeeps(values, rule.aliases, rule.target);
    if !Taken(values, rule.target) { NothingBelow(values, rule.target, below); }
    var selected := FirstPresent(values, rule.aliases);
    if selected.Some? {
      InsertMeaning(Without(values, rule.aliases), rule.target, selected.value, q);
      assert q[|rule.target|..] == below;
    }
  }

  lemma UnrelatedBelow(p: Path, q: Path, below: Path)
    requires Unrelated(p, q)
    ensures Unrelated(p, q + below)
  {
    var n := if |p| < |q| then |p| else |q|;
    var k :| 0 <= k < n && p[k] != q[k];
    assert (q + below)[k] == q[k];
  }

  lemma {:induction false} LaterMovesKeep(values: Settings, rules: seq<MoveRule>, q: Path)
    requires q != []
    requires forall r :: r in rules ==> r.target != [] && Unrelated(r.target, q) && q[0] !in r.aliases
    ensures LeafAt(ApplyMoves(values, rules), q) == LeafAt(values, q)
    decreases |rules|
  {
    if rules != [] {
      assert rules[0] in rules && forall r :: r in rules[1..] ==> r in rules;
      MoveElsewhere(values, rules[0], q);
      LaterMovesKeep(Move(values, rules[0]), rules[1..], q);
    }
  }

  /** After a list of independent moves, each target holds the canonical setting if one decides it,
      and otherwise the first of its aliases that was present. */
  lemma {:induction false} MovesMigrate(values: Settings, rules: seq<MoveRule>, i: nat, below: Path)
    requires Independent(rules) && i < |rules|
    ensures LeafAt(ApplyMoves(values, rules), rules[i].target + below) == Migrated(values, rules[i], below)
    decreases |rules|
  {
    var after := Move(values, rules[0]);
    if i == 0 {
      var q := rules[0].target + below;
      MoveMigrates(values, rules[0], below);
      forall r | r in rules[1..] ensures r.target != [] && Unrelated(r.target, q) && q[0] !in r.aliases {
        var j :| 0 < j < |rules| && rules[j] == r;
        UnrelatedBelow(r.target, rules[0].target, below);
      }
      LaterMovesKeep(after, rules[1..], q);
    } else {
      MoveElsewhere(values, rules[0], rules[i].target);
      UnrelatedBelow(rules[0].target, rules[i].target, below);
      MoveElsewhere(values, rules[0], rules[i].target + below);
      AliasesUntouched(values, rules[0], rules[i].aliases);
      MovesMigrate(after, rules[1..], i - 1, below);
    }
  }
}
