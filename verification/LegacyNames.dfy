/** The legacy settings by name, and where each arrives. */
module LegacyNames {
  import opened ConfigMigration
  import opened LegacySettings
  import opened Options

  // The target and all below it hold the canonical settings if something decides the target, and otherwise what the
  // first alias that is present held.
  ghost predicate Arrives(values: Settings, migrated: Settings, aliases: seq<string>, target: Path) {
    forall below: Path ::
      if Taken(values, target) then
        LeafAt(values, target + below).Some? ==> LeafAt(migrated, target + below) == LeafAt(values, target + below)
      else
        forall n: nat | IsFirstPresent(values, aliases, n) ::
          LeafOf(values[aliases[n]], below).Some? ==>
            LeafAt(migrated, target + below) == LeafOf(values[aliases[n]], below)
  }

  ghost predicate IsFirstPresent(values: Settings, aliases: seq<string>, n: nat) {
    n < |aliases| && aliases[n] in values && forall m :: 0 <= m < n ==> aliases[m] !in values
  }

  lemma {:induction false} FirstPresentIs(values: Settings, aliases: seq<string>, n: nat)
    requires IsFirstPresent(values, aliases, n)
    ensures FirstPresent(values, aliases) == Some(values[aliases[n]])
  {
    if n > 0 { FirstPresentIs(values, aliases[1..], n - 1); }
  }

  lemma RuleArrives(values: Settings, toBool: Value -> Option<bool>, i: nat)
    requires i < 8 && Normalize(values, toBool).Done?
    ensures Arrives(values, Normalize(values, toBool).values, RuleAt(i).aliases, RuleAt(i).target)
  {
    var rule, migrated := RuleAt(i), Normalize(values, toBool).values;
    forall below: Path
      ensures if Taken(values, rule.target) then
                LeafAt(values, rule.target + below).Some? ==>
                  LeafAt(migrated, rule.target + below) == LeafAt(values, rule.target + below)
              else
                forall n: nat | IsFirstPresent(values, rule.aliases, n) ::
                  LeafOf(values[rule.aliases[n]], below).Some? ==>
                    LeafAt(migrated, rule.target + below) == LeafOf(values[rule.aliases[n]], below)
    {
      if Migrated(values, rule, below).Some? { LegacySettingsMigrate(values, toBool, i, below); }
      forall n: nat | IsFirstPresent(values, rule.aliases, n)
        ensures FirstPresent(values, rule.aliases) == Some(values[rule.aliases[n]])
      {
        FirstPresentIs(values, rule.aliases, n);
      }
    }
  }

  /** The legacy names of the top level, one by one. */
  lemma NamedSettingsArrive(values: Settings, toBool: Value -> Option<bool>)
    requires Normalize(values, toBool).Done?
    ensures var r := Normalize(values, toBool).values;
            && Arrives(values, r, ["api_key", "tmdb_api_token"], ["providers", "tmdb", "api_token"])
            && Arrives(values, r, ["tmdb_base_url"], ["providers", "tmdb", "base_url"])
            && Arrives(values, r, ["bangumi_base_url"], ["providers", "bangumi", "base_url"])
            && Arrives(values, r, ["musicbrainz_base_url"], ["providers", "musicbrainz", "base_url"])
            && Arrives(values, r, ["openlibrary_base_url"], ["providers", "openlibrary", "base_url"])
            && Arrives(values, r, ["openlibrary_cover_base_url"], ["providers", "openlibrary", "cover_base_url"])
            && Arrives(values, r, ["anilist_endpoint"], ["providers", "anilist", "base_url"])
            && Arrives(values, r, ["anilist_token", "anilist_access_token"], ["providers", "anilist", "access_token"])
  {
    RuleArrives(values, toBool, 0);
    RuleArrives(values, toBool, 1);
    RuleArrives(values, toBool, 2);
    RuleArrives(values, toBool, 3);
    RuleArrives(values, toBool, 4);
    RuleArrives(values, toBool, 5);
    RuleArrives(values, toBool, 6);
    RuleArrives(values, toBool, 7);
  }

  /** For a plain token: "api_key" beats "tmdb_api_token", which arrives when it is alone. */
  lemma FirstTokenWins(values: Settings, toBool: Value -> Option<bool>)
    requires Normalize(values, toBool).Done? && !Taken(values, ["providers", "tmdb", "api_token"])
    ensures var token := LeafAt(Normalize(values, toBool).values, ["providers", "tmdb", "api_token"]);
            && ("api_key" in values && !values["api_key"].Table? ==> token == Some(values["api_key"]))
            && ("api_key" !in values && "tmdb_api_token" in values && !values["tmdb_api_token"].Table? ==>
                  token == Some(values["tmdb_api_token"]))
  {
    NamedSettingsArrive(values, toBool);
    FirstOfTwo(values, Normalize(values, toBool).values, "api_key", "tmdb_api_token",
               ["providers", "tmdb", "api_token"]);
  }

  lemma FirstOfTwo(values: Settings, migrated: Settings, first: string, second: string, target: Path)
    requires Arrives(values, migrated, [first, second], target) && !Taken(values, target)
    ensures first in values && !values[first].Table? ==> LeafAt(migrated, target) == Some(values[first])
    ensures first !in values && second in values && !values[second].Table? ==>
              LeafAt(migrated, target) == Some(values[second])
  {
    assert target + [] == target;
    assert first in values ==> IsFirstPresent(values, [first, second], 0);
    assert first !in values && second in values ==> IsFirstPresent(values, [first, second], 1);
  }

  // ----- the other legacy settings -----

  /** The worker count of the server becomes its queue capacity. */
  lemma WorkersArrive(values: Settings, toBool: Value -> Option<bool>, below: Path)
    requires Normalize(values, toBool).Done? && "server" in values && values["server"].Table?
    requires var server := values["server"].entries;
             "queue_capacity" !in server && "worker_count" in server && LeafOf(server["worker_count"], below).Some?
    ensures LeafAt(Normalize(values, toBool).values, ["server", "queue_capacity"] + below) ==
            LeafOf(values["server"].entries["worker_count"], below)
  {
    WorkerCountMigrates(values, toBool, below);
  }

  /** The anilist switch becomes the list of the default providers, with anilist at its end when it is on. */
  lemma SwitchArrives(values: Settings, toBool: Value -> Option<bool>)
    requires Normalize(values, toBool).Done? && "anilist_enabled" in values && "enabled_providers" !in values
    ensures toBool(values["anilist_enabled"]).Some?
    ensures LeafAt(Normalize(values, toBool).values, ["enabled_providers"]) ==
            Some(Names(if toBool(values["anilist_enabled"]).value
                       then ["local", "tmdb", "bangumi", "musicbrainz", "openlibrary", "anilist"]
                       else ["local", "tmdb", "bangumi", "musicbrainz", "openlibrary"]))
  {
    AnilistSwitchMigrates(values, toBool);
    assert DEFAULT_PROVIDERS + ["anilist"] ==
           ["local", "tmdb", "bangumi", "musicbrainz", "openlibrary", "anilist"];
    assert DEFAULT_PROVIDERS + [] == DEFAULT_PROVIDERS;
  }

  // What a table of secret references says about a target: the target itself, or else the name it had before.
  ghost function Referenced(references: Settings, name: string, target: Path, below: Path): Option<Value> {
    if Taken(references, target) then LeafAt(references, target + below)
    else if name in references then LeafOf(references[name], below)
    else None
  }

  lemma SecretsApart()
    ensures "bangumi_access_token" != "tmdb_api_token" && "bangumi_access_token" != "anilist_access_token"
    ensures "bangumi_access_token" != "providers"
  {
    assert "bangumi_access_token"[0] == 'b';
  }

  lemma ReferenceIs(references: Settings, i: nat, name: string, below: Path)
    requires i < 2 && ReferenceRuleAt(i).aliases == [name]
    requires name != "bangumi_access_token" && ReferenceRuleAt(i).target[0] != "bangumi_access_token"
    ensures Migrated(Without(references, ["bangumi_access_token"]), ReferenceRuleAt(i), below) ==
            Referenced(references, name, ReferenceRuleAt(i).target, below)
  {
    var target := ReferenceRuleAt(i).target;
    WithoutKeeps(references, ["bangumi_access_token"], target);
    WithoutKeeps(references, ["bangumi_access_token"], target + below);
    OnePresent(Without(references, ["bangumi_access_token"]), name);
  }

  lemma OnePresent(values: Settings, name: string)
    ensures FirstPresent(values, [name]) == if name in values then Some(values[name]) else None
  {
    assert [name][1..] == [];
  }

  lemma FirstReference()
    ensures ReferenceRuleAt(0) == MoveRule(["tmdb_api_token"], ["providers", "tmdb", "api_token_env"])
    ensures ReferenceRuleAt(1) == MoveRule(["anilist_access_token"], ["providers", "anilist", "access_token_env"])
  {
  }

  /** The two secret references arrive at their providers, unless the file decides that place itself. */
  lemma ReferencesArrive(values: Settings, toBool: Value -> Option<bool>, below: Path)
    requires Normalize(values, toBool).Done?
    requires "secret_references" in values && values["secret_references"].Table?
    ensures var r, references := Normalize(values, toBool).values, values["secret_references"].entries;
            var tmdb := ["providers", "tmdb", "api_token_env"];
            var anilist := ["providers", "anilist", "access_token_env"];
            && LeafAt(r, tmdb + below) ==
               (if Taken(values, tmdb + below) then LeafAt(values, tmdb + below)
                else Referenced(references, "tmdb_api_token", tmdb, below))
            && LeafAt(r, anilist + below) ==
               (if Taken(values, anilist + below) then LeafAt(values, anilist + below)
                else Referenced(references, "anilist_access_token", anilist, below))
  {
    var references := values["secret_references"].entries;
    SecretsApart();
    FirstReference();
    SecretReferencesMigrate(values, toBool, 0, below);
    SecretReferencesMigrate(values, toBool, 1, below);
    ReferenceIs(references, 0, "tmdb_api_token", below);
    ReferenceIs(references, 1, "anilist_access_token", below);
  }

  // ----- when the migration fails -----

  lemma ConfidencesStay(values: Settings, name: string)
    requires |name| != 9 && |name| != 6
    ensures name in RenameWorkers(Without(values, ["placement"])) <==> name in values
  {
    PreparationKeepsEntry(values, name);
  }

  /** A migration fails exactly when a removed confidence setting is present, or the anilist switch is consulted and is
      no truth value. */
  lemma FailsIff(values: Settings, toBool: Value -> Option<bool>)
    ensures Normalize(values, toBool).RemovedSetting? <==>
            "auto_accept_confidence" in values || "review_confidence" in values
    ensures Normalize(values, toBool).InvalidBool? <==>
            && "auto_accept_confidence" !in values && "review_confidence" !in values
            && "anilist_enabled" in values && "enabled_providers" !in values
            && toBool(values["anilist_enabled"]).None?
  {
    assert |"auto_accept_confidence"| == 22 && |"review_confidence"| == 17;
    ConfidencesStay(values, "auto_accept_confidence");
    ConfidencesStay(values, "review_confidence");
    FreeEntriesStay(values, "anilist_enabled");
    FreeEntriesStay(values, "enabled_providers");
    assert |"anilist_enabled"| != |"enabled_providers"|;
  }

  // ----- the names themselves -----

  /** These top-level names, and no others, are taken out of a file. */
  lemma LegacyNamesAre(name: string)
    ensures IsLegacy(name) <==>
            || name == "placement" || name == "anilist_enabled" || name == "bangumi_access_token"
            || name == "secret_references" || name == "api_key" || name == "tmdb_api_token" || name == "tmdb_base_url"
            || name == "bangumi_base_url" || name == "musicbrainz_base_url" || name == "openlibrary_base_url"
            || name == "openlibrary_cover_base_url" || name == "anilist_endpoint" || name == "anilist_token"
            || name == "anilist_access_token"
  {
    if name in ["api_key", "tmdb_api_token"] { assert name in Moves()[0].aliases; }
    if name == "tmdb_base_url" { assert name in Moves()[1].aliases; }
    if name == "bangumi_base_url" { assert name in Moves()[2].aliases; }
    if name == "musicbrainz_base_url" { assert name in Moves()[3].aliases; }
    if name == "openlibrary_base_url" { assert name in Moves()[4].aliases; }
    if name == "openlibrary_cover_base_url" { assert name in Moves()[5].aliases; }
    if name == "anilist_endpoint" { assert name in Moves()[6].aliases; }
    if name in ["anilist_token", "anilist_access_token"] { assert name in Moves()[7].aliases; }
  }
}
