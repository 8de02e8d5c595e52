/** When migrating a second time changes nothing. A file is a fixed point of the migration exactly when it holds no
    legacy setting. The first pass clears the file of them, but merges in what the secret references hold, under
    whatever names; so the second pass changes nothing exactly when those bring no legacy setting back. */
module MigrationTwice {
  import opened ConfigMigration
  import opened LegacySettings
  import opened Options

  // ----- files without legacy settings -----

  predicate IsAlias(name: string) {
    exists i :: 0 <= i < |Moves()| && name in Moves()[i].aliases
  }

  // The aliases that are also moved inside the secret references.
  predicate IsReferenceAlias(name: string) {
    exists i :: 0 <= i < |ReferenceMoves()| && name in ReferenceMoves()[i].aliases
  }

  predicate HoldsTable(values: Settings, name: string) {
    name in values && values[name].Table?
  }

  predicate HoldsWorkers(values: Settings) {
    HoldsTable(values, "server") && "worker_count" in values["server"].entries
  }

  // No legacy setting, but for the secret references.
  predicate Cleared(values: Settings) {
    && "placement" !in values && "anilist_enabled" !in values && "bangumi_access_token" !in values
    && "auto_accept_confidence" !in values && "review_confidence" !in values
    && (forall name <- values.Keys :: !IsAlias(name))
    && !HoldsWorkers(values)
  }

  predicate Modern(values: Settings) {
    Cleared(values) && !HoldsTable(values, "secret_references")
  }

  // ----- a modern file stays as it is -----

  lemma {:induction false} QuietMoves(values: Settings, rules: seq<MoveRule>)
    requires forall r, a :: r in rules && a in r.aliases ==> a !in values
    ensures ApplyMoves(values, rules) == values
    decreases |rules|
  {
    if rules != [] {
      assert rules[0] in rules && forall r :: r in rules[1..] ==> r in rules;
      assert forall a :: a in rules[0].aliases ==> a !in values;
      NonePresent(values, rules[0].aliases);
      assert Without(values, rules[0].aliases) == values;
      QuietMoves(values, rules[1..]);
    }
  }

  lemma {:induction false} NonePresent(values: Settings, aliases: seq<string>)
    requires forall a :: a in aliases ==> a !in values
    ensures FirstPresent(values, aliases) == None
  {
    if aliases != [] {
      assert aliases[0] in aliases && forall a :: a in aliases[1..] ==> a in aliases;
      NonePresent(values, aliases[1..]);
    }
  }

  lemma NothingToRename(values: Settings)
    requires !HoldsWorkers(values)
    ensures RenameWorkers(values) == values
  {
    if HoldsTable(values, "server") {
      var entries := values["server"].entries;
      assert FirstPresent(entries, ["worker_count"]) == None;
      assert Without(entries, ["worker_count"]) == entries;
    }
  }

  lemma NothingToMove(values: Settings)
    requires forall name <- values.Keys :: !IsAlias(name)
    ensures ApplyMoves(values, Moves()) == values
  {
    forall r, a | r in Moves() && a in r.aliases ensures a !in values {
      var i :| 0 <= i < |Moves()| && Moves()[i] == r;
      assert IsAlias(a);
    }
    QuietMoves(values, Moves());
  }

  lemma NothingToDrop(values: Settings, name: string)
    requires name !in values
    ensures Without(values, [name]) == values
  {
  }

  lemma NothingToEnable(values: Settings, toBool: Value -> Option<bool>)
    requires "anilist_enabled" !in values
    ensures EnableAnilist(values, toBool) == Done(values)
  {
    NothingToDrop(values, "anilist_enabled");
  }

  lemma ModernIsFixed(values: Settings, toBool: Value -> Option<bool>)
    requires Modern(values)
    ensures Normalize(values, toBool) == Done(values)
  {
    NothingToDrop(values, "placement");
    NothingToRename(values);
    NothingToMove(values);
    NothingToEnable(values, toBool);
    NothingToDrop(values, "bangumi_access_token");
    assert MergeReferences(values) == values;
  }

  // ----- what the first pass clears -----

  lemma {:induction false} MovesDropAliases(values: Settings, rules: seq<MoveRule>, j: nat, a: string)
    requires j < |rules| && a in rules[j].aliases
    requires forall i :: 0 <= i < |rules| ==> rules[i].target != [] && rules[i].target[0] != a
    ensures a !in ApplyMoves(values, rules)
    decreases |rules|
  {
    if j > 0 {
      MovesDropAliases(Move(values, rules[0]), rules[1..], j - 1, a);
    } else {
      MovesDoNotAdd(Move(values, rules[0]), rules[1..], a);
    }
  }

  lemma {:induction false} MovesDoNotAdd(values: Settings, rules: seq<MoveRule>, a: string)
    requires a !in values && forall i :: 0 <= i < |rules| ==> rules[i].target != [] && rules[i].target[0] != a
    ensures a !in ApplyMoves(values, rules)
    decreases |rules|
  {
    if rules != [] { MovesDoNotAdd(Move(values, rules[0]), rules[1..], a); }
  }

  // What the references merge into.
  function Base(values: Settings, toBool: Value -> Option<bool>): Settings
    requires Normalize(values, toBool).Done?
  {
    var moved := ApplyMoves(RenameWorkers(Without(values, ["placement"])), Moves());
    Without(EnableAnilist(moved, toBool).values, ["bangumi_access_token"])
  }

  lemma EnablingKeeps(values: Settings, toBool: Value -> Option<bool>, name: string)
    requires EnableAnilist(values, toBool).Done? && name != "enabled_providers" && name != "anilist_enabled"
    ensures SameEntry(EnableAnilist(values, toBool).values, values, name)
  {
  }

  lemma EnablingClears(values: Settings, toBool: Value -> Option<bool>)
    requires EnableAnilist(values, toBool).Done?
    ensures "anilist_enabled" !in EnableAnilist(values, toBool).values
  {
    assert |"enabled_providers"| != |"anilist_enabled"|;
  }

  lemma BaseKeeps(values: Settings, toBool: Value -> Option<bool>, name: string)
    requires Normalize(values, toBool).Done?
    requires name != "enabled_providers" && name != "anilist_enabled" && name != "bangumi_access_token"
    ensures SameEntry(Base(values, toBool), ApplyMoves(RenameWorkers(Without(values, ["placement"])), Moves()), name)
  {
    EnablingKeeps(ApplyMoves(RenameWorkers(Without(values, ["placement"])), Moves()), toBool, name);
  }

  lemma FreeNames()
    ensures IsFree("anilist_enabled") && IsFree("secret_references")
    ensures IsFree("review_confidence") && IsFree("auto_accept_confidence")
  {
  }

  // Names told apart by length or first letter.
  lemma ConfidencesAreApart()
    ensures "review_confidence" != "enabled_providers" && "review_confidence" != "anilist_enabled"
    ensures "auto_accept_confidence" != "enabled_providers" && "auto_accept_confidence" != "anilist_enabled"
    ensures "review_confidence" != "bangumi_access_token" && "auto_accept_confidence" != "bangumi_access_token"
    ensures "review_confidence" != "placement" && "auto_accept_confidence" != "placement"
    ensures "review_confidence" != "server" && "auto_accept_confidence" != "server"
  {
    assert "review_confidence"[0] == 'r' && |"review_confidence"| == 17;
    assert |"auto_accept_confidence"| == 22;
  }

  lemma NoConfidences(values: Settings, toBool: Value -> Option<bool>)
    requires Normalize(values, toBool).Done?
    ensures "auto_accept_confidence" !in Base(values, toBool) && "review_confidence" !in Base(values, toBool)
  {
    FreeNames();
    ConfidencesAreApart();
    FreeEntriesStay(values, "auto_accept_confidence");
    FreeEntriesStay(values, "review_confidence");
    BaseKeeps(values, toBool, "auto_accept_confidence");
    BaseKeeps(values, toBool, "review_confidence");
  }

  lemma TargetsAreProviders(name: string)
    requires name != "providers"
    ensures forall i :: 0 <= i < |Moves()| ==> Moves()[i].target != [] && Moves()[i].target[0] != name
  {
    forall i | 0 <= i < |Moves()| ensures Moves()[i].target != [] && Moves()[i].target[0] != name { MarksOfTarget(i); }
  }

  lemma NoPlacement(values: Settings, toBool: Value -> Option<bool>)
    requires Normalize(values, toBool).Done?
    ensures "placement" !in Base(values, toBool)
  {
    assert |"placement"| == 9 && |"enabled_providers"| == 17 && |"anilist_enabled"| == 15;
    assert |"bangumi_access_token"| == 20 && |"server"| == 6;
    ProvidersIsCanonical();
    TargetsAreProviders("placement");
    MovesDoNotAdd(RenameWorkers(Without(values, ["placement"])), Moves(), "placement");
    BaseKeeps(values, toBool, "placement");
  }

  // No alias is one of the names that the migration handles by themselves.
  lemma AliasesAreApart(name: string)
    requires IsAlias(name)
    ensures name != "providers" && name != "enabled_providers" && name != "anilist_enabled"
    ensures name != "bangumi_access_token"
  {
    var i :| 0 <= i < |Moves()| && name in Moves()[i].aliases;
    AliasesAreUnrelated(i, i, name);
    MarksOfAliases(i, name);
    assert NameMark("enabled_providers") == 128 * 17 + 'e' as int;
    assert NameMark("anilist_enabled") == 128 * 15 + 'a' as int;
    assert NameMark("bangumi_access_token") == 128 * 20 + 'b' as int;
  }

  lemma NoAliases(values: Settings, toBool: Value -> Option<bool>, name: string)
    requires Normalize(values, toBool).Done? && IsAlias(name)
    ensures name !in Base(values, toBool)
  {
    var i :| 0 <= i < |Moves()| && name in Moves()[i].aliases;
    AliasesAreApart(name);
    TargetsAreProviders(name);
    MovesDropAliases(RenameWorkers(Without(values, ["placement"])), Moves(), i, name);
    BaseKeeps(values, toBool, name);
  }

  lemma ServerIsApart()
    ensures "server" != "providers" && "server" != "enabled_providers" && "server" != "anilist_enabled"
    ensures "server" != "bangumi_access_token" && "server" != "placement" && !IsAlias("server")
  {
    assert |"server"| == 6;
    forall i | 0 <= i < |Moves()| ensures "server" !in Moves()[i].aliases {
      if "server" in Moves()[i].aliases { AliasesAreUnrelated(i, i, "server"); }
    }
  }

  lemma BaseServer(values: Settings, toBool: Value -> Option<bool>)
    requires Normalize(values, toBool).Done?
    ensures SameEntry(Base(values, toBool), RenameWorkers(values), "server")
  {
    ServerIsApart();
    TargetsAreProviders("server");
    forall r | r in Moves() ensures r.target != [] && r.target[0] != "server" && "server" !in r.aliases {
      var i :| 0 <= i < |Moves()| && Moves()[i] == r;
    }
    MovesKeepEntry(RenameWorkers(Without(values, ["placement"])), Moves(), "server");
    BaseKeeps(values, toBool, "server");
  }

  lemma RenamingClears(values: Settings)
    ensures !HoldsWorkers(RenameWorkers(values))
  {
    assert "worker_count"[0] != "queue_capacity"[0];
  }

  /** The first pass clears the file of every legacy setting, before the references merge in. */
  lemma BaseIsCleared(values: Settings, toBool: Value -> Option<bool>)
    requires Normalize(values, toBool).Done?
    ensures Cleared(Base(values, toBool))
  {
    NoPlacement(values, toBool);
    NoConfidences(values, toBool);
    EnablingClears(ApplyMoves(RenameWorkers(Without(values, ["placement"])), Moves()), toBool);
    forall name | name in Base(values, toBool) ensures !IsAlias(name) {
      if IsAlias(name) { NoAliases(values, toBool, name); }
    }
    BaseServer(values, toBool);
    RenamingClears(values);
  }

  // ----- what the secret references bring back -----

  lemma SecretsAreKept(values: Settings, toBool: Value -> Option<bool>)
    requires Normalize(values, toBool).Done?
    ensures SameEntry(Base(values, toBool), values, "secret_references")
  {
    ReferencesArrive(values, toBool);
  }

  // The entries that merge in.
  function Brought(references: Settings): Settings {
    ApplyMoves(Without(references, ["bangumi_access_token"]), ReferenceMoves())
  }

  lemma MergedFromBase(values: Settings, toBool: Value -> Option<bool>)
    requires Normalize(values, toBool).Done?
    ensures var base := Base(values, toBool);
            Normalize(values, toBool).values ==
            if HoldsTable(values, "secret_references") then
              Merge(Without(base, ["secret_references"]), Table(Brought(values["secret_references"].entries)))
            else base
  {
    SecretsAreKept(values, toBool);
  }

  lemma ReferenceTargets(name: string)
    requires name != "providers"
    ensures forall i :: 0 <= i < |ReferenceMoves()| ==>
              ReferenceMoves()[i].target != [] && ReferenceMoves()[i].target[0] != name
  {
    forall i | 0 <= i < |ReferenceMoves()|
      ensures ReferenceMoves()[i].target != [] && ReferenceMoves()[i].target[0] != name
    {
      LengthsOfReference(i);
    }
  }

  lemma BroughtEntries(references: Settings, name: string)
    requires !IsReferenceAlias(name) && name != "providers" && name != "bangumi_access_token"
    ensures SameEntry(Brought(references), references, name)
  {
    ReferenceTargets(name);
    forall r | r in ReferenceMoves() ensures r.target != [] && r.target[0] != name && name !in r.aliases {
      var i :| 0 <= i < |ReferenceMoves()| && ReferenceMoves()[i] == r;
    }
    MovesKeepEntry(Without(references, ["bangumi_access_token"]), ReferenceMoves(), name);
  }

  lemma ReferenceAliasesGo(references: Settings, name: string)
    requires IsReferenceAlias(name) && name != "providers"
    ensures name !in Brought(references)
  {
    var i :| 0 <= i < |ReferenceMoves()| && name in ReferenceMoves()[i].aliases;
    ReferenceTargets(name);
    MovesDropAliases(Without(references, ["bangumi_access_token"]), ReferenceMoves(), i, name);
  }

  // Names of another length than both reference aliases.
  lemma OtherLengths(name: string)
    requires |name| != 14 && |name| != 20
    ensures !IsReferenceAlias(name)
  {
    forall i | 0 <= i < |ReferenceMoves()| ensures name !in ReferenceMoves()[i].aliases { LengthsOfReference(i); }
  }

  lemma NamesOfLength(name: string)
    requires |name| == 6 || |name| == 15 || |name| == 17 || |name| == 22
    ensures name != "providers" && name != "bangumi_access_token" && !IsReferenceAlias(name)
  {
    OtherLengths(name);
    assert |"providers"| == 9 && |"bangumi_access_token"| == 20;
  }

  lemma LengthsOfNames()
    ensures |"server"| == 6 && |"anilist_enabled"| == 15 && |"secret_references"| == 17
    ensures |"review_confidence"| == 17 && |"auto_accept_confidence"| == 22
  {
  }

  // What the references bring under the names that the migration handles by themselves.
  lemma BroughtNames(references: Settings)
    ensures SameEntry(Brought(references), references, "server")
    ensures SameEntry(Brought(references), references, "anilist_enabled")
    ensures SameEntry(Brought(references), references, "secret_references")
    ensures SameEntry(Brought(references), references, "review_confidence")
    ensures SameEntry(Brought(references), references, "auto_accept_confidence")
  {
    LengthsOfNames();
    forall name: string | |name| == 6 || |name| == 15 || |name| == 17 || |name| == 22
      ensures SameEntry(Brought(references), references, name)
    {
      NamesOfLength(name);
      BroughtEntries(references, name);
    }
  }

  lemma BroughtPlacement(references: Settings)
    ensures SameEntry(Brought(references), references, "placement")
  {
    assert |"placement"| == 9 && |"bangumi_access_token"| == 20;
    OtherLengths("placement");
    ProvidersIsCanonical();
    BroughtEntries(references, "placement");
  }

  lemma BroughtBangumi(references: Settings)
    ensures "bangumi_access_token" !in Brought(references)
  {
    var name := "bangumi_access_token";
    assert |name| == 20 && name[0] == 'b' && |"providers"| == 9;
    ReferenceTargets(name);
    MovesDoNotAdd(Without(references, [name]), ReferenceMoves(), name);
  }

  lemma BroughtAliases(references: Settings, name: string)
    requires IsAlias(name)
    ensures name in Brought(references) <==> name in references && !IsReferenceAlias(name)
  {
    AliasesAreApart(name);
    if IsReferenceAlias(name) { ReferenceAliasesGo(references, name); } else { BroughtEntries(references, name); }
  }

  // ----- the fixed points -----

  lemma NotInItself(references: Settings, name: string)
    requires name in references
    ensures references[name] != Table(references)
  {
    assert references[name] < Table(references);
  }

  lemma FixedIsModern(values: Settings, toBool: Value -> Option<bool>)
    requires Normalize(values, toBool) == Done(values)
    ensures Modern(values)
  {
    BaseIsCleared(values, toBool);
    MergedFromBase(values, toBool);
    if HoldsTable(values, "secret_references") {
      BroughtNames(values["secret_references"].entries);
      NotInItself(values["secret_references"].entries, "secret_references");
    }
  }

  /** A file is a fixed point of the migration exactly when it holds no legacy setting. */
  lemma FixedIffModern(values: Settings, toBool: Value -> Option<bool>)
    ensures Normalize(values, toBool) == Done(values) <==> Modern(values)
  {
    if Modern(values) { ModernIsFixed(values, toBool); }
    if Normalize(values, toBool) == Done(values) { FixedIsModern(values, toBool); }
  }

  // ----- migrating twice -----

  // References that bring no legacy setting back; a server that is no table keeps theirs out.
  predicate Harmless(references: Settings, serverBlocks: bool) {
    && "placement" !in references && "anilist_enabled" !in references
    && "auto_accept_confidence" !in references && "review_confidence" !in references
    && (forall name <- references.Keys :: IsAlias(name) ==> IsReferenceAlias(name))
    && !HoldsTable(references, "secret_references")
    && (HoldsWorkers(references) ==> serverBlocks)
  }

  // What the file says about its secret references and its server decides.
  predicate MigratesForGood(values: Settings) {
    HoldsTable(values, "secret_references") ==>
      Harmless(values["secret_references"].entries, "server" in values && !values["server"].Table?)
  }

  lemma MergedHolds(values: Settings, incoming: Settings, name: string)
    ensures name in Merge(values, Table(incoming)) <==> name in values || name in incoming
    ensures name in incoming && name !in values ==> Merge(values, Table(incoming))[name] == incoming[name]
  {
  }

  lemma MergedWorkers(values: Settings, incoming: Settings)
    requires !HoldsWorkers(values)
    ensures HoldsWorkers(Merge(values, Table(incoming))) <==>
            HoldsWorkers(incoming) && ("server" in values ==> values["server"].Table?)
  {
    var r := Merge(values, Table(incoming));
    if "server" in values && "server" in incoming {
      var mine, theirs := values["server"], incoming["server"];
      assert r["server"] == MergeEntry(Some(mine), theirs);
      if mine.Table? && theirs.Table? {
        assert Table(theirs.entries) == theirs;
        MergedHolds(mine.entries, theirs.entries, "worker_count");
      }
    }
  }

  lemma MergedNames(base: Settings, references: Settings)
    requires Cleared(base) && "secret_references" !in base
    ensures var r := Merge(base, Table(Brought(references)));
            && ("placement" in r <==> "placement" in references)
            && ("anilist_enabled" in r <==> "anilist_enabled" in references)
            && ("auto_accept_confidence" in r <==> "auto_accept_confidence" in references)
            && ("review_confidence" in r <==> "review_confidence" in references)
            && (HoldsTable(r, "secret_references") <==> HoldsTable(references, "secret_references"))
            && "bangumi_access_token" !in r
  {
    var brought := Brought(references);
    BroughtNames(references);
    BroughtPlacement(references);
    BroughtBangumi(references);
    MergedHolds(base, brought, "placement");
    MergedHolds(base, brought, "anilist_enabled");
    MergedHolds(base, brought, "auto_accept_confidence");
    MergedHolds(base, brought, "review_confidence");
    MergedHolds(base, brought, "secret_references");
    MergedHolds(base, brought, "bangumi_access_token");
  }

  lemma MergedAliases(base: Settings, references: Settings)
    requires forall name <- base.Keys :: !IsAlias(name)
    ensures (forall name <- Merge(base, Table(Brought(references))).Keys :: !IsAlias(name)) <==>
            (forall name <- references.Keys :: IsAlias(name) ==> IsReferenceAlias(name))
  {
    var r := Merge(base, Table(Brought(references)));
    forall name | IsAlias(name) ensures name in r.Keys <==> name in references.Keys && !IsReferenceAlias(name) {
      BroughtAliases(references, name);
      MergedHolds(base, Brought(references), name);
    }
  }

  lemma MergedIsModernIff(base: Settings, references: Settings)
    requires Cleared(base) && "secret_references" !in base
    ensures Modern(Merge(base, Table(Brought(references)))) <==>
            Harmless(references, "server" in base && !base["server"].Table?)
  {
    MergedNames(base, references);
    MergedAliases(base, references);
    BroughtNames(references);
    MergedWorkers(base, Brought(references));
  }

  /** A second migration changes nothing exactly when the secret references of the file, if they are a table, hold no
      name that the first pass would have handled at the top level, other than the two they move themselves. */
  lemma MigratingTwiceIsOnceIff(values: Settings, toBool: Value -> Option<bool>)
    requires Normalize(values, toBool).Done?
    ensures Normalize(Normalize(values, toBool).values, toBool) == Normalize(values, toBool) <==>
            MigratesForGood(values)
  {
    var base := Base(values, toBool);
    FixedIffModern(Normalize(values, toBool).values, toBool);
    BaseIsCleared(values, toBool);
    MergedFromBase(values, toBool);
    SecretsAreKept(values, toBool);
    if HoldsTable(values, "secret_references") {
      ClearedWithoutSecrets(base);
      BaseServer(values, toBool);
      MergedIsModernIff(Without(base, ["secret_references"]), values["secret_references"].entries);
    }
  }

  lemma ClearedWithoutSecrets(base: Settings)
    requires Cleared(base)
    ensures Cleared(Without(base, ["secret_references"]))
    ensures "server" in Without(base, ["secret_references"]) <==> "server" in base
    ensures "server" in base ==> Without(base, ["secret_references"])["server"] == base["server"]
  {
    assert |"server"| != |"secret_references"|;
  }

  // A file whose secret references hold a legacy name.
  const LEGACY := "bangumi_base_url"
  const NESTED: Settings := map["secret_references" := Table(map[LEGACY := Scalar("u")])]

  lemma LegacyIsAnAlias()
    ensures IsAlias(LEGACY) && !IsReferenceAlias(LEGACY)
  {
    assert LEGACY in Moves()[2].aliases && |LEGACY| == 16;
    OtherLengths(LEGACY);
  }

  lemma DoneWithoutSwitch(values: Settings, toBool: Value -> Option<bool>)
    requires "auto_accept_confidence" !in values && "review_confidence" !in values && "anilist_enabled" !in values
    ensures Normalize(values, toBool).Done?
  {
    FreeNames();
    LengthsOfNames();
    FreeEntriesStay(values, "anilist_enabled");
    PreparationKeepsEntry(values, "auto_accept_confidence");
    PreparationKeepsEntry(values, "review_confidence");
  }

  lemma NestedHoldsSecretsOnly()
    ensures "auto_accept_confidence" !in NESTED && "review_confidence" !in NESTED && "anilist_enabled" !in NESTED
  {
    LengthsOfNames();
    assert "secret_references"[0] == 's' && "review_confidence"[0] == 'r';
  }

  /** Migrating twice is not always migrating once: a legacy name inside the secret references is unpacked by the first
      pass and moved by the second. */
  lemma MigrationIsNotIdempotent(toBool: Value -> Option<bool>)
    ensures Normalize(NESTED, toBool).Done?
    ensures Normalize(Normalize(NESTED, toBool).values, toBool) != Normalize(NESTED, toBool)
  {
    NestedHoldsSecretsOnly();
    DoneWithoutSwitch(NESTED, toBool);
    LegacyIsAnAlias();
    assert LEGACY in NESTED["secret_references"].entries.Keys;
    MigratingTwiceIsOnceIff(NESTED, toBool);
  }
}
