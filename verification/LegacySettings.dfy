/** The whole migration of a legacy configuration file (`normalize_legacy_file`): what it keeps, and where every legacy
    setting arrives. Names are told apart by their length and first letter, since the verifier does not compare long
    literals readily: an alias is no target, no two rules share one, and the names that are handled outside the moves
    occur in none of them. */
module LegacySettings {
  import opened ConfigMigration
  import opened Options

  // The moves of `normalize_legacy_file`, in order.
  function RuleAt(i: nat): MoveRule {
    match i
    case 0 => MoveRule(["api_key", "tmdb_api_token"], ["providers", "tmdb", "api_token"])
    case 1 => MoveRule(["tmdb_base_url"], ["providers", "tmdb", "base_url"])
    case 2 => MoveRule(["bangumi_base_url"], ["providers", "bangumi", "base_url"])
    case 3 => MoveRule(["musicbrainz_base_url"], ["providers", "musicbrainz", "base_url"])
    case 4 => MoveRule(["openlibrary_base_url"], ["providers", "openlibrary", "base_url"])
    case 5 => MoveRule(["openlibrary_cover_base_url"], ["providers", "openlibrary", "cover_base_url"])
    case 6 => MoveRule(["anilist_endpoint"], ["providers", "anilist", "base_url"])
    case _ => MoveRule(["anilist_token", "anilist_access_token"], ["providers", "anilist", "access_token"])
  }

  function Moves(): (moves: seq<MoveRule>)
    ensures |moves| == 8
  {
    seq(8, i requires 0 <= i < 8 => RuleAt(i))
  }

  // The moves inside the table of secret references.
  function ReferenceRuleAt(i: nat): MoveRule {
    match i
    case 0 => MoveRule(["tmdb_api_token"], ["providers", "tmdb", "api_token_env"])
    case _ => MoveRule(["anilist_access_token"], ["providers", "anilist", "access_token_env"])
  }

  function ReferenceMoves(): (moves: seq<MoveRule>)
    ensures |moves| == 2
  {
    seq(2, i requires 0 <= i < 2 => ReferenceRuleAt(i))
  }

  const QUEUE_MOVE := MoveRule(["worker_count"], ["queue_capacity"])

  const DEFAULT_PROVIDERS: seq<string> := ["local", "tmdb", "bangumi", "musicbrainz", "openlibrary"]

  datatype Migration = Done(values: Settings) | RemovedSetting | InvalidBool

  // Queue capacity replaces worker count inside the server table.
  function RenameWorkers(values: Settings): Settings {
    if "server" in values && values["server"].Table? then
      values["server" := Table(Move(values["server"].entries, QUEUE_MOVE))]
    else values
  }

  // The legacy switch selects the providers unless they are listed already. `toBool` is `into_bool`.
  function EnableAnilist(values: Settings, toBool: Value -> Option<bool>): Migration {
    var rest := Without(values, ["anilist_enabled"]);
    if "anilist_enabled" !in values || "enabled_providers" in rest then Done(rest)
    else
      match toBool(values["anilist_enabled"])
      case None => InvalidBool
      case Some(enabled) =>
        Done(Insert(rest, ["enabled_providers"], Names(DEFAULT_PROVIDERS + if enabled then ["anilist"] else [])))
  }

  // A table of secret references merges in; anything else under that name stays.
  function MergeReferences(values: Settings): Settings {
    if "secret_references" !in values || !values["secret_references"].Table? then values
    else
      var references := Without(values["secret_references"].entries, ["bangumi_access_token"]);
      Merge(Without(values, ["secret_references"]), Table(ApplyMoves(references, ReferenceMoves())))
  }

  // `normalize_legacy_file`
  function Normalize(values: Settings, toBool: Value -> Option<bool>): Migration {
    var prepared := RenameWorkers(Without(values, ["placement"]));
    if "auto_accept_confidence" in prepared || "review_confidence" in prepared then RemovedSetting
    else
      match EnableAnilist(ApplyMoves(prepared, Moves()), toBool)
      case Done(enabled) => Done(MergeReferences(Without(enabled, ["bangumi_access_token"])))
      case failed => failed
  }

  // The top-level names that the migration takes away.
  predicate IsLegacy(name: string) {
    || name == "placement" || name == "anilist_enabled" || name == "bangumi_access_token" || name == "secret_references"
    || exists i :: 0 <= i < |Moves()| && name in Moves()[i].aliases
  }

  // Not a legacy setting: neither a legacy name nor the server's worker count.
  predicate Canonical(q: Path) {
    q != [] && !IsLegacy(q[0]) && !(q[0] == "server" && |q| > 1 && q[1] == "worker_count")
  }

  lemma RenameKeeps(values: Settings, q: Path)
    requires LeafAt(values, q).Some? && Canonical(q)
    ensures LeafAt(RenameWorkers(values), q) == LeafAt(values, q)
  {
    if q[0] == "server" && |q| > 1 && values["server"].Table? {
      MoveNeverOverrides(values["server"].entries, QUEUE_MOVE, q[1..]);
    }
  }

  lemma EnableKeeps(values: Settings, toBool: Value -> Option<bool>, q: Path)
    requires LeafAt(values, q).Some? && Canonical(q) && EnableAnilist(values, toBool).Done?
    ensures LeafAt(EnableAnilist(values, toBool).values, q) == LeafAt(values, q)
  {
    var rest := Without(values, ["anilist_enabled"]);
    WithoutKeeps(values, ["anilist_enabled"], q);
    if "anilist_enabled" in values && "enabled_providers" !in rest {
      var enabled := toBool(values["anilist_enabled"]).value;
      InsertNeverOverrides(rest, ["enabled_providers"], Names(DEFAULT_PROVIDERS + if enabled then ["anilist"] else []),
                           q);
    }
  }

  lemma ReferencesKeep(values: Settings, q: Path)
    requires LeafAt(values, q).Some? && q[0] != "secret_references"
    ensures LeafAt(MergeReferences(values), q) == LeafAt(values, q)
  {
    WithoutKeeps(values, ["secret_references"], q);
    if "secret_references" in values && values["secret_references"].Table? {
      var references := Without(values["secret_references"].entries, ["bangumi_access_token"]);
      MergeNeverOverrides(Without(values, ["secret_references"]), Table(ApplyMoves(references, ReferenceMoves())), q);
    }
  }

  /** The migration never overrides: every canonical setting of the file keeps its value. */
  lemma MigrationNeverOverrides(values: Settings, toBool: Value -> Option<bool>, q: Path)
    requires Normalize(values, toBool).Done? && LeafAt(values, q).Some? && Canonical(q)
    ensures LeafAt(Normalize(values, toBool).values, q) == LeafAt(values, q)
  {
    WithoutKeeps(values, ["placement"], q);
    RenameKeeps(Without(values, ["placement"]), q);
    PreparedSettingStays(RenameWorkers(Without(values, ["placement"])), toBool, q);
  }

  // The length and the first letter tell the names apart.
  function NameMark(name: string): int {
    if name == "" then 0 else 128 * |name| + name[0] as int
  }

  // The marks of a rule's aliases, and of the provider and the field in its target.
  function AliasMarks(i: nat): (int, int) {
    match i
    case 0 => (128 * 7 + 'a' as int, 128 * 14 + 't' as int)
    case 1 => (128 * 13 + 't' as int, 128 * 13 + 't' as int)
    case 2 => (128 * 16 + 'b' as int, 128 * 16 + 'b' as int)
    case 3 => (128 * 20 + 'm' as int, 128 * 20 + 'm' as int)
    case 4 => (128 * 20 + 'o' as int, 128 * 20 + 'o' as int)
    case 5 => (128 * 26 + 'o' as int, 128 * 26 + 'o' as int)
    case 6 => (128 * 16 + 'a' as int, 128 * 16 + 'a' as int)
    case _ => (128 * 13 + 'a' as int, 128 * 20 + 'a' as int)
  }

  function TargetMarks(i: nat): (int, int) {
    match i
    case 0 => (128 * 4 + 't' as int, 128 * 9 + 'a' as int)
    case 1 => (128 * 4 + 't' as int, 128 * 8 + 'b' as int)
    case 2 => (128 * 7 + 'b' as int, 128 * 8 + 'b' as int)
    case 3 => (128 * 11 + 'm' as int, 128 * 8 + 'b' as int)
    case 4 => (128 * 11 + 'o' as int, 128 * 8 + 'b' as int)
    case 5 => (128 * 11 + 'o' as int, 128 * 14 + 'c' as int)
    case 6 => (128 * 7 + 'a' as int, 128 * 8 + 'b' as int)
    case _ => (128 * 7 + 'a' as int, 128 * 12 + 'a' as int)
  }

  lemma MarksOfAliases(i: nat, a: string)
    requires i < 8 && a in RuleAt(i).aliases
    ensures NameMark(a) == AliasMarks(i).0 || NameMark(a) == AliasMarks(i).1
  {
  }

  lemma MarksOfTarget(i: nat)
    requires i < 8
    ensures var t := RuleAt(i).target;
            |t| == 3 && t[0] == "providers" && NameMark(t[1]) == TargetMarks(i).0 && NameMark(t[2]) == TargetMarks(i).1
  {
  }

  lemma MarksDiffer(i: nat, j: nat)
    requires i < 8 && j < 8 && i != j
    ensures TargetMarks(i) != TargetMarks(j)
    ensures AliasMarks(i).0 != AliasMarks(j).0 && AliasMarks(i).0 != AliasMarks(j).1
    ensures AliasMarks(i).1 != AliasMarks(j).0 && AliasMarks(i).1 != AliasMarks(j).1
  {
  }

  // No alias looks like one of these names.
  lemma OtherNames(i: nat)
    requires i < 8
    ensures var (m, n) := AliasMarks(i);
            && m != NameMark("providers") && n != NameMark("providers")
            && m != NameMark("server") && n != NameMark("server")
            && m != NameMark("placement") && n != NameMark("placement")
  {
  }

  lemma TargetsAreUnrelated(i: nat, j: nat)
    requires i < 8 && j < 8 && i != j
    ensures Unrelated(RuleAt(i).target, RuleAt(j).target)
  {
    MarksOfTarget(i);
    MarksOfTarget(j);
    MarksDiffer(i, j);
    var s, t := RuleAt(i).target, RuleAt(j).target;
    assert s[1] != t[1] || s[2] != t[2];
  }

  lemma AliasesAreUnrelated(i: nat, j: nat, a: string)
    requires i < 8 && j < 8 && a in RuleAt(i).aliases
    ensures i != j ==> a !in RuleAt(j).aliases
    ensures a != "providers" && a != "server" && a != "placement"
  {
    MarksOfAliases(i, a);
    OtherNames(i);
    if i != j {
      MarksDiffer(i, j);
      if a in RuleAt(j).aliases { MarksOfAliases(j, a); }
    }
  }

  lemma MovesAreIndependent()
    ensures Independent(Moves())
  {
    forall i, j | 0 <= i < 8 && 0 <= j < 8
      ensures Moves()[i].target != [] && Moves()[i].target[0] !in Moves()[j].aliases
    {
      MarksOfTarget(i);
      if "providers" in RuleAt(j).aliases { AliasesAreUnrelated(j, j, "providers"); }
    }
    forall i, j | 0 <= i < 8 && 0 <= j < 8 && i != j
      ensures Unrelated(Moves()[i].target, Moves()[j].target)
      ensures forall a :: a in Moves()[i].aliases ==> a !in Moves()[j].aliases {
      TargetsAreUnrelated(i, j);
      forall a | a in RuleAt(i).aliases ensures a !in RuleAt(j).aliases { AliasesAreUnrelated(i, j, a); }
    }
  }

  lemma {:induction false} SameAliases(values: Settings, other: Settings, aliases: seq<string>)
    requires forall a :: a in aliases ==> (a in values <==> a in other) && (a in values ==> values[a] == other[a])
    ensures FirstPresent(values, aliases) == FirstPresent(other, aliases)
  {
    if aliases != [] {
      assert aliases[0] in aliases && forall a :: a in aliases[1..] ==> a in aliases;
      SameAliases(values, other, aliases[1..]);
    }
  }

  // Dropping the placement and renaming the workers does not touch what a rule looks at.
  lemma PreparationKeeps(values: Settings, i: nat, below: Path)
    requires i < 8
    ensures Migrated(RenameWorkers(Without(values, ["placement"])), RuleAt(i), below) ==
            Migrated(values, RuleAt(i), below)
  {
    var prepared, rule := RenameWorkers(Without(values, ["placement"])), RuleAt(i);
    forall a | a in rule.aliases
      ensures (a in values <==> a in prepared) && (a in values ==> values[a] == prepared[a]) {
      AliasesAreUnrelated(i, i, a);
    }
    SameAliases(values, prepared, rule.aliases);
    MarksOfTarget(i);
    ProvidersIsCanonical();
    assert "providers" in prepared <==> "providers" in values;
    assert "providers" in values ==> prepared["providers"] == values["providers"];
  }

  lemma ProvidersIsCanonical()
    ensures "providers" != "placement" && "providers" != "server" && "providers" != "anilist_enabled"
    ensures "providers" != "bangumi_access_token" && "providers" != "secret_references"
  {
    assert "providers"[1] != "placement"[1];
  }

  lemma TargetsAreCanonical(i: nat, below: Path)
    requires i < 8
    ensures Canonical(RuleAt(i).target + below)
  {
    MarksOfTarget(i);
    ProvidersIsCanonical();
    forall j | 0 <= j < 8 ensures "providers" !in Moves()[j].aliases {
      if "providers" in RuleAt(j).aliases { AliasesAreUnrelated(j, j, "providers"); }
    }
  }

  /** Every legacy setting of the top level reaches its target: the canonical setting if one decides the target, and
      otherwise the first alias that was present, with all that is below it, survives the whole migration. */
  lemma LegacySettingsMigrate(values: Settings, toBool: Value -> Option<bool>, i: nat, below: Path)
    requires i < 8 && Normalize(values, toBool).Done? && Migrated(values, RuleAt(i), below).Some?
    ensures LeafAt(Normalize(values, toBool).values, RuleAt(i).target + below) == Migrated(values, RuleAt(i), below)
  {
    var prepared := RenameWorkers(Without(values, ["placement"]));
    PreparationKeeps(values, i, below);
    MovesAreIndependent();
    MovesMigrate(prepared, Moves(), i, below);
    MovedSettingStays(ApplyMoves(prepared, Moves()), toBool, i, below);
  }

  lemma MovedSettingStays(moved: Settings, toBool: Value -> Option<bool>, i: nat, below: Path)
    requires i < 8 && EnableAnilist(moved, toBool).Done? && LeafAt(moved, RuleAt(i).target + below).Some?
    ensures var enabled, q := EnableAnilist(moved, toBool).values, RuleAt(i).target + below;
            LeafAt(MergeReferences(Without(enabled, ["bangumi_access_token"])), q) == LeafAt(moved, q)
  {
    var q := RuleAt(i).target + below;
    TargetsAreCanonical(i, below);
    EnableKeeps(moved, toBool, q);
    var enabled := EnableAnilist(moved, toBool).values;
    WithoutKeeps(enabled, ["bangumi_access_token"], q);
    ReferencesKeep(Without(enabled, ["bangumi_access_token"]), q);
  }

  // ----- the settings that the moves do not cover -----

  lemma WorkersAreRenamed(values: Settings, below: Path)
    requires "server" in values && values["server"].Table?
    ensures LeafAt(RenameWorkers(values), ["server", "queue_capacity"] + below) ==
            Migrated(values["server"].entries, QUEUE_MOVE, below)
  {
    var q := ["server", "queue_capacity"] + below;
    assert q[1..] == QUEUE_MOVE.target + below;
    assert "queue_capacity"[0] != "worker_count"[0];
    MoveMigrates(values["server"].entries, QUEUE_MOVE, below);
  }

  /** A legacy worker count reaches the server's queue capacity, unless a canonical one decides it. */
  lemma WorkerCountMigrates(values: Settings, toBool: Value -> Option<bool>, below: Path)
    requires Normalize(values, toBool).Done? && "server" in values && values["server"].Table?
    requires Migrated(values["server"].entries, QUEUE_MOVE, below).Some?
    ensures LeafAt(Normalize(values, toBool).values, ["server", "queue_capacity"] + below) ==
            Migrated(values["server"].entries, QUEUE_MOVE, below)
  {
    var dropped := Without(values, ["placement"]);
    assert "server"[0] != "placement"[0];
    WorkersAreRenamed(dropped, below);
    ServerIsCanonical(below);
    PreparedSettingStays(RenameWorkers(dropped), toBool, ["server", "queue_capacity"] + below);
  }

  lemma ServerIsCanonical(below: Path)
    ensures Canonical(["server", "queue_capacity"] + below)
  {
    assert "server"[0] != "placement"[0] && "server"[0] != "anilist_enabled"[0] &&
           "server"[0] != "bangumi_access_token"[0];
    assert |"server"| != |"secret_references"| && |"queue_capacity"| != |"worker_count"|;
    forall i | 0 <= i < 8 ensures "server" !in Moves()[i].aliases {
      if "server" in RuleAt(i).aliases { AliasesAreUnrelated(i, i, "server"); }
    }
  }

  // Once the placement and the worker count are dealt with, a canonical leaf stays.
  lemma PreparedSettingStays(prepared: Settings, toBool: Value -> Option<bool>, q: Path)
    requires LeafAt(prepared, q).Some? && Canonical(q)
    requires EnableAnilist(ApplyMoves(prepared, Moves()), toBool).Done?
    ensures var enabled := EnableAnilist(ApplyMoves(prepared, Moves()), toBool).values;
            LeafAt(MergeReferences(Without(enabled, ["bangumi_access_token"])), q) == LeafAt(prepared, q)
  {
    forall r | r in Moves() ensures q[0] !in r.aliases {
      var i :| 0 <= i < |Moves()| && Moves()[i] == r;
    }
    MovesNeverOverride(prepared, Moves(), q);
    var moved := ApplyMoves(prepared, Moves());
    EnableKeeps(moved, toBool, q);
    var enabled := EnableAnilist(moved, toBool).values;
    WithoutKeeps(enabled, ["bangumi_access_token"], q);
    ReferencesKeep(Without(enabled, ["bangumi_access_token"]), q);
  }

  // A name that no move reads or writes keeps its entry.
  predicate SameEntry(a: Settings, b: Settings, name: string) {
    (name in a <==> name in b) && (name in a ==> a[name] == b[name])
  }

  lemma {:induction false} MovesKeepEntry(values: Settings, rules: seq<MoveRule>, name: string)
    requires forall r :: r in rules ==> r.target != [] && r.target[0] != name && name !in r.aliases
    ensures SameEntry(ApplyMoves(values, rules), values, name)
    decreases |rules|
  {
    if rules != [] {
      assert rules[0] in rules && forall r :: r in rules[1..] ==> r in rules;
      MovesKeepEntry(Move(values, rules[0]), rules[1..], name);
    }
  }

  // ASCII names of another length than every alias, and than "providers": no business of the moves.
  predicate IsFree(name: string) {
    (|name| == 15 || |name| == 17 || |name| == 22) && name[0] as int < 128
  }

  lemma FreeNamesAreNoAliases(name: string, i: nat)
    requires IsFree(name) && i < 8
    ensures name !in RuleAt(i).aliases
  {
    if name in RuleAt(i).aliases { MarksOfAliases(i, name); }
  }

  lemma FreeEntriesStay(values: Settings, name: string)
    requires IsFree(name)
    ensures SameEntry(ApplyMoves(RenameWorkers(Without(values, ["placement"])), Moves()), values, name)
  {
    forall r | r in Moves() ensures r.target != [] && r.target[0] != name && name !in r.aliases {
      var i :| 0 <= i < |Moves()| && Moves()[i] == r;
      TargetsStartAtProviders(i);
      FreeNamesAreNoAliases(name, i);
    }
    MovesKeepEntry(RenameWorkers(Without(values, ["placement"])), Moves(), name);
    PreparationKeepsEntry(values, name);
  }

  lemma TargetsStartAtProviders(i: nat)
    requires i < 8
    ensures RuleAt(i).target != [] && |RuleAt(i).target[0]| == 9
  {
    MarksOfTarget(i);
  }

  lemma PreparationKeepsEntry(values: Settings, name: string)
    requires |name| != 9 && |name| != 6
    ensures SameEntry(RenameWorkers(Without(values, ["placement"])), values, name)
  {
  }

  function ProvidersFor(enabled: bool): Value {
    Names(DEFAULT_PROVIDERS + if enabled then ["anilist"] else [])
  }

  /** The legacy anilist switch selects the providers, unless they are listed already. */
  lemma AnilistSwitchMigrates(values: Settings, toBool: Value -> Option<bool>)
    requires Normalize(values, toBool).Done? && "anilist_enabled" in values && "enabled_providers" !in values
    ensures toBool(values["anilist_enabled"]).Some?
    ensures LeafAt(Normalize(values, toBool).values, ["enabled_providers"]) ==
            Some(ProvidersFor(toBool(values["anilist_enabled"]).value))
  {
    var q := ["enabled_providers"];
    var prepared := RenameWorkers(Without(values, ["placement"]));
    var moved := ApplyMoves(prepared, Moves());
    FreeEntriesStay(values, "anilist_enabled");
    FreeEntriesStay(values, "enabled_providers");
    var enabled := EnableAnilist(moved, toBool).values;
    assert LeafAt(enabled, q) == Some(ProvidersFor(toBool(values["anilist_enabled"]).value));
    assert |"enabled_providers"| == 17 && "enabled_providers"[0] != "secret_references"[0];
    WithoutKeeps(enabled, ["bangumi_access_token"], q);
    ReferencesKeep(Without(enabled, ["bangumi_access_token"]), q);
  }

  // ----- secret references -----

  // One alias per rule, and targets, told apart by lengths.
  lemma LengthsOfReference(i: nat)
    requires i < 2
    ensures ReferenceRuleAt(i).aliases != []
    ensures forall a :: a in ReferenceRuleAt(i).aliases ==> |a| == if i == 0 then 14 else 20
    ensures var t := ReferenceRuleAt(i).target;
            |t| == 3 && t[0] == "providers" && |t[1]| == (if i == 0 then 4 else 7)
    ensures NameMark(ReferenceRuleAt(i).target[2]) == (if i == 0 then 128 * 13 else 128 * 16) + 'a' as int
  {
    if i == 0 { assert |"api_token_env"| == 13; } else { assert |"access_token_env"| == 16; }
  }

  lemma ReferencesDiffer(i: nat, j: nat)
    requires i < 2 && j < 2
    ensures ReferenceRuleAt(i).target != [] && ReferenceRuleAt(i).target[0] !in ReferenceRuleAt(j).aliases
    ensures i != j ==> Unrelated(ReferenceRuleAt(i).target, ReferenceRuleAt(j).target)
    ensures i != j ==> forall a :: a in ReferenceRuleAt(i).aliases ==> a !in ReferenceRuleAt(j).aliases
  {
    LengthsOfReference(i);
    LengthsOfReference(j);
    assert |"providers"| == 9;
    var s, t := ReferenceRuleAt(i).target, ReferenceRuleAt(j).target;
    if i != j { assert s[1] != t[1]; }
  }

  lemma ReferenceMovesAreIndependent()
    ensures Independent(ReferenceMoves())
  {
    forall i, j | 0 <= i < 2 && 0 <= j < 2
      ensures ReferenceMoves()[i].target != [] && ReferenceMoves()[i].target[0] !in ReferenceMoves()[j].aliases
    {
      ReferencesDiffer(i, j);
    }
    forall i, j | 0 <= i < 2 && 0 <= j < 2 && i != j
      ensures Unrelated(ReferenceMoves()[i].target, ReferenceMoves()[j].target)
      ensures forall a :: a in ReferenceMoves()[i].aliases ==> a !in ReferenceMoves()[j].aliases
    {
      ReferencesDiffer(i, j);
    }
  }

  lemma ReferenceMarks(j: nat)
    ensures TargetMarks(j).1 != 128 * 13 + 'a' as int && TargetMarks(j).1 != 128 * 16 + 'a' as int
  {
  }

  // No move writes at, above or below a reference's target.
  lemma ReferenceIsUnrelated(i: nat, j: nat)
    requires i < 2 && j < 8
    ensures Unrelated(RuleAt(j).target, ReferenceRuleAt(i).target)
  {
    LengthsOfReference(i);
    MarksOfTarget(j);
    ReferenceMarks(j);
    var s, t := RuleAt(j).target, ReferenceRuleAt(i).target;
    assert s[2] != t[2];
  }

  lemma {:induction false} MovesElsewhere(values: Settings, rules: seq<MoveRule>, q: Path)
    requires q != []
    requires forall r :: r in rules ==> r.target != [] && Unrelated(r.target, q) && q[0] !in r.aliases
    ensures LeafAt(ApplyMoves(values, rules), q) == LeafAt(values, q)
    ensures Taken(ApplyMoves(values, rules), q) == Taken(values, q)
    decreases |rules|
  {
    if rules != [] {
      assert rules[0] in rules && forall r :: r in rules[1..] ==> r in rules;
      MoveElsewhere(values, rules[0], q);
      MovesElsewhere(Move(values, rules[0]), rules[1..], q);
    }
  }

  lemma MovesAvoidReferences(i: nat, below: Path)
    requires i < 2
    ensures var q := ReferenceRuleAt(i).target + below;
            q != [] && forall r :: r in Moves() ==> r.target != [] && Unrelated(r.target, q) && q[0] !in r.aliases
  {
    var q := ReferenceRuleAt(i).target + below;
    LengthsOfReference(i);
    forall r | r in Moves() ensures r.target != [] && Unrelated(r.target, q) && q[0] !in r.aliases {
      var j :| 0 <= j < |Moves()| && Moves()[j] == r;
      MarksOfTarget(j);
      ReferenceIsUnrelated(i, j);
      UnrelatedBelow(RuleAt(j).target, ReferenceRuleAt(i).target, below);
      if "providers" in RuleAt(j).aliases { AliasesAreUnrelated(j, j, "providers"); }
    }
  }

  lemma PreparationKeepsProviders(values: Settings, q: Path)
    requires q != [] && q[0] == "providers"
    ensures LeafAt(RenameWorkers(Without(values, ["placement"])), q) == LeafAt(values, q)
    ensures Taken(RenameWorkers(Without(values, ["placement"])), q) == Taken(values, q)
  {
    ProvidersIsCanonical();
  }

  lemma EnablingElsewhere(values: Settings, toBool: Value -> Option<bool>, q: Path)
    requires q != [] && q[0] == "providers" && EnableAnilist(values, toBool).Done?
    ensures LeafAt(EnableAnilist(values, toBool).values, q) == LeafAt(values, q)
    ensures Taken(EnableAnilist(values, toBool).values, q) == Taken(values, q)
  {
    ProvidersIsCanonical();
    assert |"enabled_providers"| != |"providers"|;
    WithoutKeeps(values, ["anilist_enabled"], q);
  }

  lemma SecretsKeepOthers(values: Settings, q: Path)
    requires q != [] && q[0] == "providers"
    ensures var rest := Without(Without(values, ["bangumi_access_token"]), ["secret_references"]);
            LeafAt(rest, q) == LeafAt(values, q) && Taken(rest, q) == Taken(values, q)
  {
    ProvidersIsCanonical();
    WithoutKeeps(values, ["bangumi_access_token"], q);
    WithoutKeeps(Without(values, ["bangumi_access_token"]), ["secret_references"], q);
  }

  lemma SecretsAreApart()
    ensures "secret_references" != "anilist_enabled" && "secret_references" != "enabled_providers"
    ensures "secret_references" != "bangumi_access_token"
  {
    assert "secret_references"[0] == 's';
  }

  lemma EnablingKeepsReferences(values: Settings, toBool: Value -> Option<bool>)
    requires EnableAnilist(values, toBool).Done?
    ensures SameEntry(Without(EnableAnilist(values, toBool).values, ["bangumi_access_token"]), values,
                      "secret_references")
  {
    SecretsAreApart();
  }

  // The table of references is what the file says, all the way to the merge.
  lemma ReferencesArrive(values: Settings, toBool: Value -> Option<bool>)
    requires EnableAnilist(ApplyMoves(RenameWorkers(Without(values, ["placement"])), Moves()), toBool).Done?
    ensures var enabled := EnableAnilist(ApplyMoves(RenameWorkers(Without(values, ["placement"])), Moves()), toBool);
            SameEntry(Without(enabled.values, ["bangumi_access_token"]), values, "secret_references")
  {
    FreeEntriesStay(values, "secret_references");
    EnablingKeepsReferences(ApplyMoves(RenameWorkers(Without(values, ["placement"])), Moves()), toBool);
  }

  // What the file says at a reference's target is still said there when the references merge in.
  lemma ReferenceBase(values: Settings, toBool: Value -> Option<bool>, i: nat, below: Path)
    requires i < 2 && EnableAnilist(ApplyMoves(RenameWorkers(Without(values, ["placement"])), Moves()), toBool).Done?
    ensures var enabled := EnableAnilist(ApplyMoves(RenameWorkers(Without(values, ["placement"])), Moves()),
                                         toBool).values;
            var base := Without(Without(enabled, ["bangumi_access_token"]), ["secret_references"]);
            var q := ReferenceRuleAt(i).target + below;
            q != [] && LeafAt(base, q) == LeafAt(values, q) && Taken(base, q) == Taken(values, q)
  {
    var q, prepared := ReferenceRuleAt(i).target + below, RenameWorkers(Without(values, ["placement"]));
    var moved := ApplyMoves(prepared, Moves());
    LengthsOfReference(i);
    PreparationKeepsProviders(values, q);
    MovesAvoidReferences(i, below);
    MovesElsewhere(prepared, Moves(), q);
    EnablingElsewhere(moved, toBool, q);
    SecretsKeepOthers(EnableAnilist(moved, toBool).values, q);
  }

  lemma MergedReferences(values: Settings, entries: Settings, i: nat, below: Path)
    requires i < 2 && "secret_references" in values && values["secret_references"] == Table(entries)
    ensures var base, references := Without(values, ["secret_references"]), Without(entries, ["bangumi_access_token"]);
            var q := ReferenceRuleAt(i).target + below;
            LeafAt(MergeReferences(values), q) ==
            if Taken(base, q) then LeafAt(base, q) else Migrated(references, ReferenceRuleAt(i), below)
  {
    var references := Without(entries, ["bangumi_access_token"]);
    ReferenceMovesAreIndependent();
    MovesMigrate(references, ReferenceMoves(), i, below);
    MergeMeaning(Without(values, ["secret_references"]), Table(ApplyMoves(references, ReferenceMoves())),
                 ReferenceRuleAt(i).target + below);
  }

  /** A secret reference reaches the provider it belongs to, unless a canonical setting decides that place. */
  lemma SecretReferencesMigrate(values: Settings, toBool: Value -> Option<bool>, i: nat, below: Path)
    requires Normalize(values, toBool).Done? && i < 2
    requires "secret_references" in values && values["secret_references"].Table?
    ensures var references := Without(values["secret_references"].entries, ["bangumi_access_token"]);
            var q := ReferenceRuleAt(i).target + below;
            LeafAt(Normalize(values, toBool).values, q) ==
            if Taken(values, q) then LeafAt(values, q) else Migrated(references, ReferenceRuleAt(i), below)
  {
    ReferencesArrive(values, toBool);
    ReferenceBase(values, toBool, i, below);
    var enabled := EnableAnilist(ApplyMoves(RenameWorkers(Without(values, ["placement"])), Moves()), toBool).values;
    MergedReferences(Without(enabled, ["bangumi_access_token"]), values["secret_references"].entries, i, below);
  }
}
