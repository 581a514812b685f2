// The Tool Shelf configuration file: the default configuration, the
// migration that brings an older configuration up to date, and the index
// of the next backup file.

module ToolShelfConfig {
  import opened Wrappers
  import opened PyStr

  /** The default interface language of a new configuration. */
  const LANGUAGE := "ENGLISH"
  /** The number of backup files kept before the index wraps around. */
  const BACKUP_COUNT := 5

  /** A JSON value as `json.load` returns it. Numbers are integers here. */
  datatype Json =
    | JNull
    | JBool(b: bool)
    | JInt(i: int)
    | JStr(s: string)
    | JList(items: seq<Json>)
    | JDict(fields: map<string, Json>)

  type Fields = map<string, Json>

  /** `configBase`: the configuration written when none exists yet. */
  function ConfigBase(): (r: Json)
    ensures r.JDict? && "groups" in r.fields && r.fields["groups"] == JList([])
    ensures "language" in r.fields && r.fields["language"] == JStr(LANGUAGE)
  {
    JDict(map[
      "name" := JStr("Tool Shelf"),
      "category" := JStr("Tool Shelf"),
      "label" := JStr("Tool Shelf"),
      "language" := JStr(LANGUAGE),
      "region" := JStr("UI"),
      "space" := JStr("VIEW_3D"),
      "base" := JStr("view3d"),
      "groups" := JList([])])
  }

  // ------------------------------------------------------------------
  // The shape the migration reads without raising.
  // ------------------------------------------------------------------

  predicate DictList(j: Json)
  {
    j.JList? && forall k :: 0 <= k < |j.items| ==> j.items[k].JDict?
  }

  /** A command: a set command ("set" key) holds a list of sub-command
    * dictionaries under "commands"; when it has a "valueName" but no
    * "value", no sub-command may lack a "valueName" (that copy would
    * raise a `KeyError`). */
  predicate CommandShaped(c: Json)
  {
    c.JDict? &&
    ("set" in c.fields ==>
      "commands" in c.fields && DictList(c.fields["commands"]) &&
      ("valueName" in c.fields && "value" !in c.fields ==>
        forall k :: 0 <= k < |c.fields["commands"].items| ==>
          "valueName" in c.fields["commands"].items[k].fields))
  }

  predicate GroupShaped(g: Json)
  {
    g.JDict? && "commands" in g.fields && g.fields["commands"].JList? &&
    forall j :: 0 <= j < |g.fields["commands"].items| ==> CommandShaped(g.fields["commands"].items[j])
  }

  predicate GroupsShaped(groups: seq<Json>)
  {
    forall i :: 0 <= i < |groups| ==> GroupShaped(groups[i])
  }

  /** A configuration `updateConfig` reads without raising. */
  predicate ConfigShaped(data: Json)
  {
    data.JDict? &&
    ("groups" in data.fields ==> data.fields["groups"].JList? && GroupsShaped(data.fields["groups"].items))
  }

  function SubsOf(c: Json): seq<Json>
    requires CommandShaped(c) && "set" in c.fields
  {
    c.fields["commands"].items
  }

  function CommandsOf(g: Json): seq<Json>
    requires GroupShaped(g)
  {
    g.fields["commands"].items
  }

  // ------------------------------------------------------------------
  // What the migration does to each level of the configuration.
  // ------------------------------------------------------------------

  /** A sub-command of a set command after the migration: "iconOnly"
    * defaults to false, and a sub-command without "valueName" receives
    * the parent's "valueName" and "value". */
  function MigrateSub(command: Fields, sub: Fields): (r: Fields)
    requires "valueName" in command && "valueName" !in sub ==> "value" in command
    ensures "iconOnly" in r && ("valueName" in command ==> "valueName" in r)
    ensures forall key :: key in sub && key != "value" ==> key in r && r[key] == sub[key]
    ensures "value" in sub && ("valueName" !in command || "valueName" in sub) ==> "value" in r && r["value"] == sub["value"]
    ensures forall key :: key in r ==> key in sub || key in {"iconOnly", "valueName", "value"}
  {
    var withIcon := if "iconOnly" in sub then sub else sub["iconOnly" := JBool(false)];
    if "valueName" in command && "valueName" !in sub then
      withIcon["valueName" := command["valueName"]]["value" := command["value"]]
    else withIcon
  }

  /** The sub-commands of a set command, each migrated. */
  function MigratedSubs(c: Json): (r: seq<Json>)
    requires CommandShaped(c) && "set" in c.fields
    ensures |r| == |SubsOf(c)|
    ensures forall k :: 0 <= k < |r| ==> r[k] == JDict(MigrateSub(c.fields, SubsOf(c)[k].fields))
  {
    var subs := SubsOf(c);
    seq(|subs|, k requires 0 <= k < |subs| => JDict(MigrateSub(c.fields, subs[k].fields)))
  }

  /** A plain command gains "iconOnly": false when it has none; a set
    * command keeps its own keys and has its sub-commands migrated. */
  function MigrateCommand(c: Json): (r: Json)
    requires CommandShaped(c)
    ensures r.JDict? && r.fields.Keys == c.fields.Keys + (if "set" in c.fields then {} else {"iconOnly"})
    ensures forall key :: key in c.fields && key != "commands" ==> r.fields[key] == c.fields[key]
    ensures "set" !in c.fields ==> forall key :: key in c.fields ==> r.fields[key] == c.fields[key]
  {
    if "set" in c.fields then JDict(c.fields["commands" := JList(MigratedSubs(c))])
    else if "iconOnly" in c.fields then c
    else JDict(c.fields["iconOnly" := JBool(false)])
  }

  /** The commands of a group, each migrated. */
  function MigratedCommands(g: Json): (r: seq<Json>)
    requires GroupShaped(g)
    ensures |r| == |CommandsOf(g)|
    ensures forall j :: 0 <= j < |r| ==> r[j] == MigrateCommand(CommandsOf(g)[j])
  {
    var cmds := CommandsOf(g);
    seq(|cmds|, j requires 0 <= j < |cmds| => MigrateCommand(cmds[j]))
  }

  function MigrateGroup(g: Json): (r: Json)
    requires GroupShaped(g)
    ensures r.JDict? && r.fields.Keys == g.fields.Keys
    ensures forall key :: key in g.fields && key != "commands" ==> r.fields[key] == g.fields[key]
  {
    JDict(g.fields["commands" := JList(MigratedCommands(g))])
  }

  function MigratedGroups(groups: seq<Json>): (r: seq<Json>)
    requires GroupsShaped(groups)
    ensures |r| == |groups|
  {
    seq(|groups|, i requires 0 <= i < |groups| => MigrateGroup(groups[i]))
  }

  // When the migration has something to add.

  predicate SubStale(command: Fields, sub: Fields)
  {
    "iconOnly" !in sub || ("valueName" in command && "valueName" !in sub)
  }

  predicate CommandStale(c: Json)
    requires CommandShaped(c)
  {
    if "set" in c.fields then
      exists k :: 0 <= k < |SubsOf(c)| && SubStale(c.fields, SubsOf(c)[k].fields)
    else "iconOnly" !in c.fields
  }

  predicate GroupStale(g: Json)
    requires GroupShaped(g)
  {
    exists j :: 0 <= j < |CommandsOf(g)| && CommandStale(CommandsOf(g)[j])
  }

  predicate GroupsStale(groups: seq<Json>)
    requires GroupsShaped(groups)
  {
    exists i :: 0 <= i < |groups| && GroupStale(groups[i])
  }

  // ------------------------------------------------------------------
  // The migration changes something exactly when something is stale,
  // keeps the shape, and leaves nothing stale behind.
  // ------------------------------------------------------------------

  lemma SubFixed(command: Fields, sub: Fields)
    requires "valueName" in command && "valueName" !in sub ==> "value" in command
    ensures MigrateSub(command, sub) == sub <==> !SubStale(command, sub)
  {
    if "iconOnly" !in sub {
      assert "iconOnly" in MigrateSub(command, sub);
    } else if "valueName" in command && "valueName" !in sub {
      assert "valueName" in MigrateSub(command, sub);
    }
  }

  lemma CommandFixed(c: Json)
    requires CommandShaped(c)
    ensures MigrateCommand(c) == c <==> !CommandStale(c)
  {
    if "set" in c.fields {
      var subs := SubsOf(c);
      var migrated := MigratedSubs(c);
      if CommandStale(c) {
        var k :| 0 <= k < |subs| && SubStale(c.fields, subs[k].fields);
        SubFixed(c.fields, subs[k].fields);
        assert migrated[k] != subs[k];
        assert MigrateCommand(c).fields["commands"] != c.fields["commands"];
      } else {
        forall k | 0 <= k < |subs|
          ensures migrated[k] == subs[k]
        {
          SubFixed(c.fields, subs[k].fields);
        }
        assert migrated == subs;
        assert c.fields["commands" := JList(migrated)] == c.fields;
      }
    } else if "iconOnly" !in c.fields {
      assert "iconOnly" in MigrateCommand(c).fields;
    }
  }

  lemma GroupFixed(g: Json)
    requires GroupShaped(g)
    ensures MigrateGroup(g) == g <==> !GroupStale(g)
  {
    var cmds := CommandsOf(g);
    var migrated := MigratedCommands(g);
    if GroupStale(g) {
      var j :| 0 <= j < |cmds| && CommandStale(cmds[j]);
      CommandFixed(cmds[j]);
      assert migrated[j] != cmds[j];
      assert MigrateGroup(g).fields["commands"] != g.fields["commands"];
    } else {
      forall j | 0 <= j < |cmds|
        ensures migrated[j] == cmds[j]
      {
        CommandFixed(cmds[j]);
      }
      assert migrated == cmds;
      assert g.fields["commands" := JList(migrated)] == g.fields;
    }
  }

  /** The migration leaves the groups untouched exactly when none of them
    * has anything to add. */
  lemma GroupsFixed(groups: seq<Json>)
    requires GroupsShaped(groups)
    ensures MigratedGroups(groups) == groups <==> !GroupsStale(groups)
  {
    if GroupsStale(groups) {
      var i :| 0 <= i < |groups| && GroupStale(groups[i]);
      GroupFixed(groups[i]);
      assert MigratedGroups(groups)[i] != groups[i];
    } else {
      forall i | 0 <= i < |groups|
        ensures MigratedGroups(groups)[i] == groups[i]
      {
        GroupFixed(groups[i]);
      }
    }
  }

  lemma CommandUpToDate(c: Json)
    requires CommandShaped(c)
    ensures CommandShaped(MigrateCommand(c)) && !CommandStale(MigrateCommand(c))
  {
    var r := MigrateCommand(c);
    if "set" in c.fields {
      assert SubsOf(r) == MigratedSubs(c);
      if "valueName" in c.fields {
        assert r.fields["valueName"] == c.fields["valueName"];
      }
      forall k | 0 <= k < |SubsOf(r)|
        ensures !SubStale(r.fields, SubsOf(r)[k].fields)
      {
      }
    }
  }

  lemma GroupUpToDate(g: Json)
    requires GroupShaped(g)
    ensures GroupShaped(MigrateGroup(g)) && !GroupStale(MigrateGroup(g))
  {
    var r := MigrateGroup(g);
    var cmds := CommandsOf(g);
    assert CommandsOf(r) == MigratedCommands(g);
    forall j | 0 <= j < |cmds|
      ensures CommandShaped(CommandsOf(r)[j]) && !CommandStale(CommandsOf(r)[j])
    {
      CommandUpToDate(cmds[j]);
    }
  }

  /** After the migration every command has "iconOnly", so a second pass
    * finds nothing to add and changes nothing. */
  lemma {:induction false} MigrationIdempotent(groups: seq<Json>)
    requires GroupsShaped(groups)
    ensures GroupsShaped(MigratedGroups(groups))
    ensures !GroupsStale(MigratedGroups(groups))
    ensures MigratedGroups(MigratedGroups(groups)) == MigratedGroups(groups)
  {
    var r := MigratedGroups(groups);
    forall i | 0 <= i < |r|
      ensures GroupShaped(r[i]) && !GroupStale(r[i])
    {
      GroupUpToDate(groups[i]);
    }
    GroupsFixed(r);
  }

  // ------------------------------------------------------------------
  // The nested loops of `updateConfig`, writing missing keys in place.
  // ------------------------------------------------------------------

  /** The sub-command loop of one set command. */
  method MigrateSubs(command: Fields, subs: seq<Json>) returns (out: seq<Json>, update: bool)
    requires forall k :: 0 <= k < |subs| ==> subs[k].JDict?
    requires "valueName" in command && "value" !in command ==>
      forall k :: 0 <= k < |subs| ==> "valueName" in subs[k].fields
    ensures |out| == |subs|
    ensures forall k :: 0 <= k < |subs| ==> out[k] == JDict(MigrateSub(command, subs[k].fields))
    ensures update <==> exists k :: 0 <= k < |subs| && SubStale(command, subs[k].fields)
  {
    out := subs;
    update := false;
    var k := 0;
    while k < |subs|
      invariant 0 <= k <= |subs| && |out| == |subs|
      invariant forall x :: 0 <= x < k ==> out[x] == JDict(MigrateSub(command, subs[x].fields))
      invariant forall x :: k <= x < |subs| ==> out[x] == subs[x]
      invariant update <==> exists x :: 0 <= x < k && SubStale(command, subs[x].fields)
    {
      var setCommand := out[k].fields;
      if "iconOnly" !in setCommand {
        setCommand := setCommand["iconOnly" := JBool(false)];
        update := true;
      }
      if "valueName" in command && "valueName" !in setCommand {
        setCommand := setCommand["valueName" := command["valueName"]]["value" := command["value"]];
        update := true;
      }
      out := out[k := JDict(setCommand)];
      k := k + 1;
    }
  }

  /** The command loop of one group. */
  method MigrateCommands(cmds: seq<Json>) returns (out: seq<Json>, update: bool)
    requires forall j :: 0 <= j < |cmds| ==> CommandShaped(cmds[j])
    ensures |out| == |cmds|
    ensures forall j :: 0 <= j < |cmds| ==> out[j] == MigrateCommand(cmds[j])
    ensures update <==> exists j :: 0 <= j < |cmds| && CommandStale(cmds[j])
  {
    out := cmds;
    update := false;
    var j := 0;
    while j < |cmds|
      invariant 0 <= j <= |cmds| && |out| == |cmds|
      invariant forall x :: 0 <= x < j ==> out[x] == MigrateCommand(cmds[x])
      invariant forall x :: j <= x < |cmds| ==> out[x] == cmds[x]
      invariant update <==> exists x :: 0 <= x < j && CommandStale(cmds[x])
    {
      var command := cmds[j];
      if "set" in command.fields {
        var subs, changed := MigrateSubs(command.fields, SubsOf(command));
        assert subs == MigratedSubs(command);
        out := out[j := JDict(command.fields["commands" := JList(subs)])];
        update := update || changed;
      } else {
        if "iconOnly" !in command.fields {
          out := out[j := JDict(command.fields["iconOnly" := JBool(false)])];
          update := true;
        }
      }
      j := j + 1;
    }
  }

  /** The group loop: the migrated groups, and whether anything was
    * added. */
  method MigrateGroups(groups: seq<Json>) returns (out: seq<Json>, update: bool)
    requires GroupsShaped(groups)
    ensures out == MigratedGroups(groups)
    ensures update == GroupsStale(groups)
  {
    out := groups;
    update := false;
    var i := 0;
    while i < |groups|
      invariant 0 <= i <= |groups| && |out| == |groups|
      invariant forall x :: 0 <= x < i ==> out[x] == MigrateGroup(groups[x])
      invariant forall x :: i <= x < |groups| ==> out[x] == groups[x]
      invariant update <==> exists x :: 0 <= x < i && GroupStale(groups[x])
    {
      var group := groups[i];
      var cmds, changed := MigrateCommands(CommandsOf(group));
      assert cmds == MigratedCommands(group);
      out := out[i := JDict(group.fields["commands" := JList(cmds)])];
      update := update || changed;
      i := i + 1;
    }
  }

  // ------------------------------------------------------------------
  // `updateConfig` as a whole.
  // ------------------------------------------------------------------

  /** The configuration with a "language" entry, added when missing. */
  function WithLanguage(data: Json): (r: Json)
    requires data.JDict?
    ensures r.JDict? && "language" in r.fields
    ensures forall key :: key in data.fields ==> key in r.fields && r.fields[key] == data.fields[key]
    ensures r.fields.Keys == data.fields.Keys + {"language"}
  {
    if "language" in data.fields then data else JDict(data.fields["language" := JStr(LANGUAGE)])
  }

  /** The configuration `updateConfig` returns. */
  function UpdatedConfig(data: Json): (r: Json)
    requires ConfigShaped(data)
  {
    var lang := WithLanguage(data);
    if "groups" !in data.fields then lang
    else JDict(lang.fields["groups" := JList(MigratedGroups(data.fields["groups"].items))])
  }

  /** The backup and the rewrite happen when there are groups and either
    * the language was missing or some command was missing a key. */
  predicate NeedsWrite(data: Json)
    requires ConfigShaped(data)
  {
    "groups" in data.fields && ("language" !in data.fields || GroupsStale(data.fields["groups"].items))
  }

  /** The backup file written by the corrected `updateConfig`: the
    * configuration before its groups are migrated. */
  function BackupWritten(data: Json): (r: Option<Json>)
    requires ConfigShaped(data)
    ensures r.Some? <==> NeedsWrite(data)
  {
    if NeedsWrite(data) then Some(WithLanguage(data)) else None
  }

  /** The backup file the code as written produces: `dict(data)` copies
    * only the top level, so the groups migrated through `config` are the
    * very lists `data` holds, and the backup is the migrated
    * configuration. */
  function BackupWrittenAsWritten(data: Json): (r: Option<Json>)
    requires ConfigShaped(data)
    ensures r.Some? <==> NeedsWrite(data)
  {
    if NeedsWrite(data) then Some(UpdatedConfig(data)) else None
  }

  /** `updateConfig`, with the backup taken before the migration. The
    * outputs are the returned configuration, the backup file written and
    * the configuration file written. */
  method UpdateConfig(data: Json) returns (config: Json, backup: Option<Json>, saved: Option<Json>)
    requires ConfigShaped(data)
    ensures config == UpdatedConfig(data)
    ensures backup == BackupWritten(data)
    ensures saved == (if NeedsWrite(data) then Some(config) else None)
  {
    var fields := data.fields;
    var update := false;
    if "language" !in fields {
      fields := fields["language" := JStr(LANGUAGE)];
      update := true;
    }
    if "groups" !in fields {
      return JDict(fields), None, None;
    }
    var before := JDict(fields);
    var groups, changed := MigrateGroups(fields["groups"].items);
    config := JDict(fields["groups" := JList(groups)]);
    if update || changed {
      backup := Some(before);
      saved := Some(config);
    } else {
      backup := None;
      saved := None;
    }
  }

  /** Without "groups" the data comes back with at most a language added,
    * and nothing is written even when the language was missing. */
  lemma NoGroupsNoWrite(data: Json)
    requires ConfigShaped(data) && "groups" !in data.fields
    ensures UpdatedConfig(data) == WithLanguage(data)
    ensures "language" in data.fields ==> UpdatedConfig(data) == data
    ensures BackupWritten(data) == None
  {
  }

  /** Everything but the groups comes through unchanged, and a language
    * that was set is kept. */
  lemma UpdateKeepsSettings(data: Json)
    requires ConfigShaped(data)
    ensures UpdatedConfig(data).JDict?
    ensures forall key :: key in data.fields && key != "groups" ==>
      key in UpdatedConfig(data).fields && UpdatedConfig(data).fields[key] == data.fields[key]
    ensures "language" in UpdatedConfig(data).fields
  {
  }

  /** A configuration that `updateConfig` has returned needs no further
    * update: the second run writes nothing and returns it unchanged. */
  lemma UpdateConfigIdempotent(data: Json)
    requires ConfigShaped(data)
    ensures ConfigShaped(UpdatedConfig(data))
    ensures !NeedsWrite(UpdatedConfig(data))
    ensures UpdatedConfig(UpdatedConfig(data)) == UpdatedConfig(data)
  {
    var r := UpdatedConfig(data);
    if "groups" in data.fields {
      var groups := data.fields["groups"].items;
      MigrationIdempotent(groups);
      assert r.fields["groups"].items == MigratedGroups(groups);
      assert r.fields["groups" := JList(MigratedGroups(MigratedGroups(groups)))] == r.fields;
    }
  }

  /** The default configuration is already up to date. */
  lemma ConfigBaseUpToDate()
    ensures ConfigShaped(ConfigBase())
    ensures UpdatedConfig(ConfigBase()) == ConfigBase()
    ensures BackupWritten(ConfigBase()) == None
  {
    var base := ConfigBase();
    assert MigratedGroups([]) == [];
    assert base.fields["groups" := JList([])] == base.fields;
  }

  /** The corrected backup holds the groups as they were before the
    * migration, and differs from the rewritten configuration exactly
    * when some command was missing a key. */
  lemma BackupBeforeMigration(data: Json)
    requires ConfigShaped(data) && NeedsWrite(data)
    ensures BackupWritten(data).value.fields["groups"] == data.fields["groups"]
    ensures BackupWritten(data).value != UpdatedConfig(data) <==> GroupsStale(data.fields["groups"].items)
  {
    var groups := data.fields["groups"].items;
    GroupsFixed(groups);
    var lang := WithLanguage(data);
    if !GroupsStale(groups) {
      assert lang.fields["groups" := JList(MigratedGroups(groups))] == lang.fields;
    } else {
      assert UpdatedConfig(data).fields["groups"] == JList(MigratedGroups(groups));
    }
  }

  /** As written, whenever some command needed a key the backup file
    * already holds the migrated groups: the configuration it was meant to
    * preserve is lost. */
  lemma BackupAsWrittenLosesOriginal(data: Json)
    requires ConfigShaped(data) && "groups" in data.fields && GroupsStale(data.fields["groups"].items)
    ensures BackupWrittenAsWritten(data) == Some(UpdatedConfig(data))
    ensures BackupWrittenAsWritten(data).value.fields["groups"] != data.fields["groups"]
  {
    GroupsFixed(data.fields["groups"].items);
  }

  /** One configuration that shows it: a single plain command without
    * "iconOnly". */
  lemma BackupAsWrittenExample()
    ensures var data := JDict(map["language" := JStr(LANGUAGE),
                                  "groups" := JList([JDict(map["name" := JStr("Tools"),
                                                               "commands" := JList([JDict(map["name" := JStr("Cube")])])])])]);
      ConfigShaped(data) && BackupWrittenAsWritten(data) != BackupWritten(data)
  {
    var cube := JDict(map["name" := JStr("Cube")]);
    var group := JDict(map["name" := JStr("Tools"), "commands" := JList([cube])]);
    var data := JDict(map["language" := JStr(LANGUAGE), "groups" := JList([group])]);
    assert CommandShaped(cube) && CommandStale(cube);
    assert CommandsOf(group)[0] == cube;
    assert GroupShaped(group) && GroupStale(group);
    assert [group][0] == group;
    assert GroupsShaped([group]) && GroupsStale([group]);
    BackupAsWrittenLosesOriginal(data);
  }

  // ------------------------------------------------------------------
  // `nextBackupIndex`.
  // ------------------------------------------------------------------

  /** The index of the next backup file, from the listing of the backup
    * folder: 1 for an empty listing or one whose last entry is not a
    * ".json" file, otherwise the number after the last "_" of the last
    * entry's stem, plus one, modulo the backup count. `None` stands for
    * the `ValueError` of an entry whose number does not parse. */
  function NextBackupIndex(fileList: seq<string>): (r: Option<int>)
    ensures r.Some? ==> 0 <= r.value < BACKUP_COUNT
    ensures fileList == [] ==> r == Some(1)
  {
    if |fileList| == 0 || !EndsWith(fileList[|fileList| - 1], ".json") then Some(1)
    else
      var stem := Split(fileList[|fileList| - 1], ".")[0];
      var parts := Split(stem, "_");
      match ParseInt(parts[|parts| - 1])
      case None => None
      case Some(lastIndex) => Some((lastIndex + 1) % BACKUP_COUNT)
  }

  /** The name of the backup file with the given index. */
  function BackupFileName(index: nat): (r: string)
    ensures EndsWith(r, ".json")
  {
    var r := "config_" + NatToString(index) + ".json";
    assert r[|r| - 5..] == ".json";
    r
  }

  /** When the listing ends with a backup file this code wrote, the next
    * index is the following one modulo the backup count, so the backups
    * rotate through five files. */
  lemma NextAfterBackup(fileList: seq<string>, index: nat)
    ensures NextBackupIndex(fileList + [BackupFileName(index)]) == Some((index + 1) % BACKUP_COUNT)
  {
    var digits := NatToString(index);
    var name := BackupFileName(index);
    var list := fileList + [name];
    assert list[|list| - 1] == name;
    var stem := "config_" + digits;
    NatToStringDigits(index, '.');
    NatToStringDigits(index, '_');
    assert '.' !in stem;
    SplitAfterPart(stem, ".", "json");
    assert name == stem + "." + "json";
    assert Split(name, ".")[0] == stem;
    assert '_' !in "config";
    assert stem == "config" + "_" + digits;
    SplitPair("config", digits, "_");
    assert Split(stem, "_") == ["config", digits];
    ParseNatToString(index);
    assert ParseInt(digits) == Some(index);
  }
}
