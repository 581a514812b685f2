// The Tool Shelf editor: operator id names, the command text a button
// runs, the lookup of groups and tools by name, reordering, and the
// changes the editor operator makes to the configuration.

module ToolShelf {
  import opened Wrappers
  import opened PyStr

  /** The enum identifier the panel uses for "nothing selected". */
  const NONE := "NONE"

  // ------------------------------------------------------------------
  // Names.
  // ------------------------------------------------------------------

  /** A character the pattern `[\W]` does not match: an ASCII letter, a
    * digit or the underscore. */
  predicate IsWordChar(c: char)
  {
    IsLowerChar(c) || IsUpperChar(c) || IsDigit(c) || c == '_'
  }

  /** `re.sub("[\W]", "", s)`: the word characters of `s`, in order. */
  function WordChars(s: string): (r: string)
    ensures |r| <= |s|
    ensures forall k :: 0 <= k < |r| ==> IsWordChar(r[k]) && r[k] in s
    decreases |s|
  {
    if |s| == 0 then ""
    else (if IsWordChar(s[0]) then [s[0]] else "") + WordChars(s[1..])
  }

  lemma {:induction false} WordCharsAppend(a: string, b: string)
    ensures WordChars(a + b) == WordChars(a) + WordChars(b)
    decreases |a|
  {
    if |a| == 0 {
      assert a + b == b;
    } else {
      assert (a + b)[1..] == a[1..] + b;
      WordCharsAppend(a[1..], b);
    }
  }

  lemma {:induction false} WordCharsKeeps(s: string)
    requires forall k :: 0 <= k < |s| ==> IsWordChar(s[k])
    ensures WordChars(s) == s
    decreases |s|
  {
    if |s| > 0 {
      WordCharsKeeps(s[1..]);
      assert [s[0]] + s[1..] == s;
    }
  }

  /** `idName`: the name in lower case, spaces turned into underscores,
    * every other non-word character dropped. */
  function IdName(name: string): (r: string)
    ensures forall k :: 0 <= k < |r| ==> IsWordChar(r[k]) && !IsUpperChar(r[k])
  {
    var lower := Lower(Replace(name, " ", "_"));
    assert forall k :: 0 <= k < |lower| ==> !IsUpperChar(lower[k]);
    WordChars(lower)
  }

  /** Applying `idName` to an id name changes nothing, so two names clash
    * exactly when their id names are equal. */
  lemma IdNameIdempotent(name: string)
    ensures IdName(IdName(name)) == IdName(name)
  {
    var s := IdName(name);
    assert ' ' !in s by {
      forall k | 0 <= k < |s| ensures s[k] != ' ' {
        assert IsWordChar(s[k]);
      }
    }
    ReplaceAbsent(s, " ", "_");
    LowerKeeps(s);
    WordCharsKeeps(s);
  }

  /** A space between two words becomes the underscore between their id
    * names. */
  lemma IdNameSpace(a: string, b: string)
    ensures IdName(a + " " + b) == IdName(a) + "_" + IdName(b)
  {
    var ra := Replace(a, " ", "_");
    var rb := Replace(b, " ", "_");
    SpaceReplaced(a, b);
    LowerJoin(ra, rb);
    WordCharsJoin(Lower(ra), Lower(rb));
  }

  lemma LowerJoin(x: string, y: string)
    ensures Lower(x + ("_" + y)) == Lower(x) + ("_" + Lower(y))
  {
    LowerAppend(x, "_" + y);
    LowerAppend("_", y);
    assert Lower("_") == "_";
  }

  lemma WordCharsUnderscore()
    ensures WordChars("_") == "_"
  {
    assert "_"[1..] == "";
  }

  lemma WordCharsJoin(x: string, y: string)
    ensures WordChars(x + ("_" + y)) == WordChars(x) + "_" + WordChars(y)
  {
    WordCharsAppend(x, "_" + y);
    WordCharsAppend("_", y);
    WordCharsUnderscore();
  }

  lemma SpaceReplaced(a: string, b: string)
    ensures Replace(a + " " + b, " ", "_") == Replace(a, " ", "_") + ("_" + Replace(b, " ", "_"))
  {
    ReplaceCharAppend(a, " " + b, ' ', "_");
    ReplaceCharAppend(" ", b, ' ', "_");
    assert Replace(" ", " ", "_") == "_";
    assert a + " " + b == a + (" " + b);
  }

  /** `getIdName`: the operator id, the area base and the id name joined
    * by a dot. */
  function GetIdName(base: string, name: string): string
  {
    base + "." + IdName(name)
  }

  /** The id name is the part after the dot: it never contains one. */
  lemma GetIdNameSplit(base: string, name: string)
    requires '.' !in base
    ensures Split(GetIdName(base, name), ".") == [base, IdName(name)]
  {
    var id := IdName(name);
    assert '.' !in id by {
      forall k | 0 <= k < |id| ensures id[k] != '.' {
        assert IsWordChar(id[k]);
      }
    }
    SplitPair(base, id, ".");
  }

  /** `iconIdName`: "icon_" and the image name up to its first dot. */
  function IconIdName(image: string): (r: string)
    ensures StartsWith(r, "icon_") && '.' !in r
  {
    SplitHeadFree(image, '.');
    "icon_" + Split(image, ".")[0]
  }

  /** The extension of the image file is dropped. */
  lemma IconIdNameStem(stem: string, ext: string)
    requires '.' !in stem
    ensures IconIdName(stem + "." + ext) == "icon_" + stem
  {
    SplitHeadBefore(stem, '.', ext);
  }

  // ------------------------------------------------------------------
  // The configuration data the editor changes.
  // ------------------------------------------------------------------

  /** A button command: the fields the editor writes. */
  datatype Command = Command(name: string, icon: string, command: string, tooltip: string)

  datatype Group = Group(name: string, commands: seq<Command>)

  function GroupNames(groups: seq<Group>): (r: seq<string>)
    ensures |r| == |groups| && forall i :: 0 <= i < |groups| ==> r[i] == groups[i].name
  {
    seq(|groups|, i requires 0 <= i < |groups| => groups[i].name)
  }

  function CommandNames(commands: seq<Command>): (r: seq<string>)
    ensures |r| == |commands| && forall j :: 0 <= j < |commands| ==> r[j] == commands[j].name
  {
    seq(|commands|, j requires 0 <= j < |commands| => commands[j].name)
  }

  /** The first index holding `name`, or `None`: the search of
    * `currentGroupIndex` and `currentToolIndex`. */
  function FirstIndex(names: seq<string>, name: string): (r: Option<nat>)
    ensures r.Some? ==>
      r.value < |names| && names[r.value] == name && forall k :: 0 <= k < r.value ==> names[k] != name
    ensures r.None? <==> name !in names
    decreases |names|
  {
    if |names| == 0 then None
    else if names[0] == name then Some(0)
    else match FirstIndex(names[1..], name)
      case None => None
      case Some(k) => Some(k + 1)
  }

  /** Python `list.insert(i, x)` for an index within the list. */
  function InsertAt<T>(s: seq<T>, i: nat, x: T): (r: seq<T>)
    requires i <= |s|
    ensures |r| == |s| + 1 && r[i] == x
    ensures forall k :: 0 <= k < i ==> r[k] == s[k]
    ensures forall k :: i < k < |r| ==> r[k] == s[k - 1]
    ensures multiset(r) == multiset(s) + multiset{x}
  {
    assert s == s[..i] + s[i..];
    s[..i] + [x] + s[i..]
  }

  /** Python `list.pop(i)` for an index within the list. */
  function RemoveAt<T>(s: seq<T>, i: nat): (r: seq<T>)
    requires i < |s|
    ensures |r| == |s| - 1
    ensures forall k :: 0 <= k < i ==> r[k] == s[k]
    ensures forall k :: i <= k < |r| ==> r[k] == s[k + 1]
    ensures multiset(r) + multiset{s[i]} == multiset(s)
  {
    assert s == s[..i] + [s[i]] + s[i + 1..];
    s[..i] + s[i + 1..]
  }

  // ------------------------------------------------------------------
  // The command text of a button (`processCommand`).
  // ------------------------------------------------------------------

  /** The text editor the command can be taken from: its lines, the line
    * of the cursor and the line where the selection ends. */
  datatype TextState = TextState(lines: seq<string>, current: nat, selectEnd: nat)
  {
    predicate Valid()
    {
      current < |lines| && selectEnd < |lines|
    }
  }

  /** A typed command gets the `bpy` import when it uses `bpy.` and does
    * not import it itself. */
  function WithImport(cmd: string): string
  {
    if Contains(cmd, "bpy.") && !Contains(cmd, "import bpy") then "import bpy; " + cmd else cmd
  }

  /** `selectionRange`: the first and the last selected line. */
  function SelectionRange(current: nat, selectEnd: nat): (r: (nat, nat))
    ensures r.0 <= r.1
    ensures (r.0 == current && r.1 == selectEnd) || (r.0 == selectEnd && r.1 == current)
  {
    if current < selectEnd || current == selectEnd then (current, selectEnd) else (selectEnd, current)
  }

  /** The lines a command is taken from: the whole text when nothing is
    * selected; otherwise the selected lines, where a selection that
    * ends on the line right after its start yields only its first line
    * (the cursor is taken to sit at the start of that line). */
  function SelectedLines(t: TextState): (r: seq<string>)
    requires t.Valid()
    ensures |r| >= 1
  {
    var (start, end) := SelectionRange(t.current, t.selectEnd);
    if start == end then t.lines
    else t.lines[start..if end > start + 1 then end + 1 else end]
  }

  /** A line with its tabs widened to four spaces. */
  function ExpandTabs(line: string): (r: string)
    ensures '\t' !in r
  {
    ReplaceCharFree(line, '\t', "    ", '\t');
    Replace(line, "\t", "    ")
  }

  lemma ExpandTabsOneLine(line: string)
    requires '\n' !in line
    ensures '\n' !in ExpandTabs(line)
  {
    ReplaceCharFree(line, '\t', "    ", '\n');
  }

  function ExpandAll(lines: seq<string>): (r: seq<string>)
    ensures |r| == |lines| && forall i :: 0 <= i < |lines| ==> r[i] == ExpandTabs(lines[i])
  {
    seq(|lines|, i requires 0 <= i < |lines| => ExpandTabs(lines[i]))
  }

  /** `processCommand`: the typed command with the import added, or,
    * for an empty command, the lines of the open text editor joined by
    * newlines; `None` when there is no text editor. */
  function CommandText(cmd: string, editor: Option<TextState>): (r: Option<string>)
    requires editor.Some? ==> editor.value.Valid()
  {
    if |cmd| > 0 then Some(WithImport(cmd))
    else if editor.None? then None
    else Some(Join(ExpandAll(SelectedLines(editor.value)), "\n"))
  }

  /** A typed command is kept as its suffix, and when it uses `bpy.` the
    * result imports `bpy`. */
  lemma WithImportMeaning(cmd: string)
    ensures EndsWith(WithImport(cmd), cmd)
    ensures Contains(cmd, "bpy.") ==> Contains(WithImport(cmd), "import bpy")
    ensures WithImport(cmd) != cmd <==> Contains(cmd, "bpy.") && !Contains(cmd, "import bpy")
  {
    var r := WithImport(cmd);
    if r != cmd {
      assert HasAt(r, "import bpy", 0);
      assert r[|r| - |cmd|..] == cmd;
    }
  }

  /** Processing a processed command again changes nothing. */
  lemma WithImportIdempotent(cmd: string)
    ensures WithImport(WithImport(cmd)) == WithImport(cmd)
  {
    var r := WithImport(cmd);
    if r != cmd {
      assert HasAt(r, "import bpy", 0);
    }
  }

  /** Editor lines never hold a newline, so splitting the command taken
    * from the editor at newlines gives back the (tab-expanded) lines. */
  lemma EditorTextLines(t: TextState)
    requires t.Valid()
    requires forall i :: 0 <= i < |t.lines| ==> '\n' !in t.lines[i]
    ensures CommandText("", Some(t)).Some?
    ensures Split(CommandText("", Some(t)).value, "\n") == ExpandAll(SelectedLines(t))
  {
    var lines := SelectedLines(t);
    forall i | 0 <= i < |lines| ensures '\n' !in ExpandAll(lines)[i] {
      var (start, end) := SelectionRange(t.current, t.selectEnd);
      if start != end {
        assert lines[i] == t.lines[start + i];
      }
      ExpandTabsOneLine(lines[i]);
    }
    SplitJoin(ExpandAll(lines), "\n");
  }

  // ------------------------------------------------------------------
  // Moving a group or a tool one place up or down (`reorder`).
  // ------------------------------------------------------------------

  /** Whether `reorder` moves the item at `i`: not up from the top, not
    * down from the bottom. */
  predicate CanMove(count: nat, i: nat, up: bool)
  {
    (up && i > 0) || (!up && i + 1 < count)
  }

  function Neighbour(i: nat, up: bool): nat
    requires up ==> i > 0
  {
    if up then i - 1 else i + 1
  }

  /** `pop(i)` followed by `insert(i - 1)` or `insert(i + 1)`. */
  function Moved<T>(s: seq<T>, i: nat, up: bool): (r: seq<T>)
    requires i < |s|
    ensures |r| == |s|
  {
    if CanMove(|s|, i, up) then InsertAt(RemoveAt(s, i), Neighbour(i, up), s[i]) else s
  }

  /** A move swaps the item with its neighbour and nothing else changes;
    * at the end of the list it changes nothing. */
  lemma MovedSwaps<T>(s: seq<T>, i: nat, up: bool)
    requires i < |s|
    ensures !CanMove(|s|, i, up) ==> Moved(s, i, up) == s
    ensures CanMove(|s|, i, up) ==>
      var j := Neighbour(i, up);
      Moved(s, i, up) == s[i := s[j]][j := s[i]]
    ensures multiset(Moved(s, i, up)) == multiset(s)
  {
    if CanMove(|s|, i, up) {
      MovedIsSwap(s, i, up);
      assert multiset(Moved(s, i, up)) == multiset(RemoveAt(s, i)) + multiset{s[i]};
    }
  }

  lemma MovedIsSwap<T>(s: seq<T>, i: nat, up: bool)
    requires i < |s| && CanMove(|s|, i, up)
    ensures Neighbour(i, up) < |s|
    ensures Moved(s, i, up) == s[i := s[Neighbour(i, up)]][Neighbour(i, up) := s[i]]
  {
    var j := Neighbour(i, up);
    var r := Moved(s, i, up);
    var t := s[i := s[j]][j := s[i]];
    forall k | 0 <= k < |s| ensures r[k] == t[k] {
    }
    assert r == t;
  }

  lemma SwapBack<T>(s: seq<T>, i: nat, j: nat)
    requires i < |s| && j < |s|
    ensures var r := s[i := s[j]][j := s[i]]; r[j := r[i]][i := r[j]] == s
  {
  }

  /** Moving an item and then moving it back restores the list. */
  lemma MovedRoundTrip<T>(s: seq<T>, i: nat, up: bool)
    requires i < |s| && CanMove(|s|, i, up)
    ensures CanMove(|s|, Neighbour(i, up), !up)
    ensures Moved(Moved(s, i, up), Neighbour(i, up), !up) == s
  {
    var j := Neighbour(i, up);
    MovedIsSwap(s, i, up);
    var r := Moved(s, i, up);
    assert Neighbour(j, !up) == i;
    MovedIsSwap(r, j, !up);
    SwapBack(s, i, j);
  }

  /** `getReorderItem`: the tool when one is selected, otherwise the
    * group, and nothing when no group is selected. */
  function ReorderItem(groupValue: string, buttonValue: string): (r: Option<(string, bool)>)
    ensures r.None? <==> groupValue == NONE
    ensures r.Some? ==>
      r.value.1 == (buttonValue == NONE) && r.value.0 == (if buttonValue == NONE then groupValue else buttonValue)
  {
    if groupValue == NONE then None
    else if buttonValue == NONE then Some((groupValue, true))
    else Some((buttonValue, false))
  }

  /** `reorder` on the groups, or `None` where it raises a `TypeError`:
    * a group index of `None`, or a tool not found in its group. */
  function ReorderedGroups(groups: seq<Group>, name: string, isGroup: bool, groupIndex: Option<nat>, up: bool): (r: Option<seq<Group>>)
    requires groupIndex.Some? ==> groupIndex.value < |groups|
  {
    if groupIndex.None? then None
    else
      var gi := groupIndex.value;
      if isGroup then Some(Moved(groups, gi, up))
      else match FirstIndex(CommandNames(groups[gi].commands), name)
        case None => None
        case Some(ti) => Some(groups[gi := groups[gi].(commands := Moved(groups[gi].commands, ti, up))])
  }

  /** Reordering groups keeps the multiset of groups. */
  lemma ReorderedKeepsGroups(groups: seq<Group>, groupIndex: Option<nat>, up: bool)
    requires groupIndex.Some? ==> groupIndex.value < |groups|
    ensures var r := ReorderedGroups(groups, "", true, groupIndex, up);
      r.Some? ==> multiset(r.value) == multiset(groups)
  {
    if groupIndex.Some? {
      MovedSwaps(groups, groupIndex.value, up);
    }
  }

  /** Reordering a tool touches only its own group, and that group keeps
    * its name and the multiset of its commands. */
  lemma ReorderedKeepsTools(groups: seq<Group>, name: string, gi: nat, up: bool)
    requires gi < |groups|
    ensures var r := ReorderedGroups(groups, name, false, Some(gi), up);
      r.Some? ==>
        |r.value| == |groups| &&
        (forall k :: 0 <= k < |groups| && k != gi ==> r.value[k] == groups[k]) &&
        r.value[gi].name == groups[gi].name &&
        multiset(r.value[gi].commands) == multiset(groups[gi].commands)
  {
    var cmds := groups[gi].commands;
    var ti := FirstIndex(CommandNames(cmds), name);
    if ti.Some? {
      var moved := Moved(cmds, ti.value, up);
      MovedSwaps(cmds, ti.value, up);
      assert ReorderedGroups(groups, name, false, Some(gi), up) == Some(groups[gi := groups[gi].(commands := moved)]);
    }
  }

  // ------------------------------------------------------------------
  // The editor operator (`TOOLSHELF_OT_Editor.execute`).
  // ------------------------------------------------------------------

  /** How the operator ends: `Raised` stands for an exception escaping
    * `execute` (a `TypeError` from indexing with `None`). */
  datatype Outcome = Finished | Cancelled | Raised

  datatype Mode = Add | Edit | Remove | Reorder | View

  /** The operator's properties, as the panel fills them in. */
  datatype Form = Form(mode: Mode, newGroup: bool, name: string, cmd: string, tip: string,
                       image: string, group: string, button: string)

  /** What the operator reads from outside the configuration: whether the
    * icon file exists in the icons folder, and the open text editor. */
  datatype Host = Host(iconExists: bool, editor: Option<TextState>)
  {
    predicate Valid()
    {
      editor.Some? ==> editor.value.Valid()
    }
  }

  /** A backup file: a copy of the groups, or a dictionary without any. */
  datatype Backup = Snapshot(groups: seq<Group>) | EmptyDict

  /** The shelf's state: the groups in memory, the groups last written to
    * the configuration file, and the backup files written so far. */
  datatype Store = Store(groups: seq<Group>, saved: seq<Group>, backups: seq<Backup>)

  /** What one run of the operator does: how it ends, the groups
    * afterwards, the backup it writes, whether it rewrites the
    * configuration file, and the text it shows (name and content). */
  datatype Result = Result(outcome: Outcome, groups: seq<Group>, backup: Option<Backup>, save: bool,
                           text: Option<(string, string)>)

  function Cancel(groups: seq<Group>): Result
  {
    Result(Cancelled, groups, None, false, None)
  }

  /** The shelf after a run. */
  function After(st: Store, r: Result): Store
  {
    Store(r.groups, if r.save then r.groups else st.saved,
          st.backups + (if r.backup.Some? then [r.backup.value] else []))
  }

  /** Some command of some group has the same id name as `name`. */
  predicate IdTaken(groups: seq<Group>, name: string)
  {
    exists i, j :: 0 <= i < |groups| && 0 <= j < |groups[i].commands| &&
      IdName(groups[i].commands[j].name) == IdName(name)
  }

  /** No two commands of the shelf share an id name. */
  predicate UniqueIds(groups: seq<Group>)
  {
    forall i, j, i2, j2 ::
      0 <= i < |groups| && 0 <= j < |groups[i].commands| &&
      0 <= i2 < |groups| && 0 <= j2 < |groups[i2].commands| && (i != i2 || j != j2) ==>
        IdName(groups[i].commands[j].name) != IdName(groups[i2].commands[j2].name)
  }

  /** A new group: cancelled when the exact name exists; otherwise backed
    * up, then appended to an empty list, inserted right after the
    * selected group, or appended when none is selected. */
  function RunAddGroup(groups: seq<Group>, name: string, group: string): Result
  {
    if name in GroupNames(groups) then Cancel(groups)
    else
      var backup := Some(Snapshot(groups));
      var added := Group(name, []);
      if |groups| == 0 then Result(Finished, [added], backup, true, None)
      else if group != NONE then
        match FirstIndex(GroupNames(groups), group)
        case None => Result(Raised, groups, backup, false, None)
        case Some(gi) => Result(Finished, InsertAt(groups, gi + 1, added), backup, true, None)
      else Result(Finished, groups + [added], backup, true, None)
  }

  /** Renaming the selected group. */
  function RunRenameGroup(groups: seq<Group>, name: string, group: string): Result
  {
    var backup := Some(Snapshot(groups));
    match FirstIndex(GroupNames(groups), group)
    case None => Result(Raised, groups, backup, false, None)
    case Some(gi) => Result(Finished, groups[gi := groups[gi].(name := name)], backup, true, None)
  }

  /** A field of the edit form that replaces the stored one: given, and
    * not "*" once stripped. */
  predicate Given(field: string)
  {
    |field| > 0 && Strip(field) != "*"
  }

  /** Whether editing writes any field of the command. */
  predicate EditsSomething(f: Form)
  {
    Given(f.name) || Given(f.image) || Strip(f.cmd) != "*" || Given(f.tip)
  }

  /** The edited command: each given field replaces the stored one, and
    * the command text is replaced unless it is "*". */
  function Edited(c: Command, f: Form, command: string): Command
  {
    Command(if Given(f.name) then f.name else c.name,
            if Given(f.image) then f.image else c.icon,
            if Strip(f.cmd) != "*" then command else c.command,
            if Given(f.tip) then f.tip else c.tooltip)
  }

  /** The tooltip of a new command: the given one, or the name. */
  function NewCommand(f: Form, command: string): (c: Command)
  {
    Command(f.name, f.image, command, if |f.tip| > 0 then f.tip else f.name)
  }

  /** Adding or editing a command in the selected group. */
  function RunCommand(groups: seq<Group>, f: Form, host: Host): Result
    requires host.Valid()
  {
    if f.mode == Add && IdTaken(groups, f.name) then Cancel(groups)
    else if !StartsWith(f.image, "'") && !host.iconExists then Cancel(groups)
    else
      var command := if f.mode == Add || Strip(f.cmd) != "*" then CommandText(f.cmd, host.editor) else Some("");
      if command.None? then Result(Cancelled, groups, Some(Snapshot(groups)), false, None)
      else CommandInto(groups, f, command.value)
  }

  /** The step of a command run after the configuration is backed up and
    * the command text is known. */
  function CommandInto(groups: seq<Group>, f: Form, command: string): (r: Result)
    ensures r.backup == Some(Snapshot(groups)) && r.text == None
    ensures r.save <==> r.outcome == Finished
    ensures r.outcome != Finished ==> r.groups == groups
  {
    match FirstIndex(GroupNames(groups), f.group)
    case None => Result(Raised, groups, Some(Snapshot(groups)), false, None)
    case Some(gi) =>
      if f.mode == Add then AddInto(groups, gi, f, command) else EditIn(groups, gi, f, command)
  }

  /** Adding a new command to group `gi`, at the end or after the
    * selected tool. */
  function AddInto(groups: seq<Group>, gi: nat, f: Form, command: string): Result
    requires gi < |groups|
  {
    var cmds := groups[gi].commands;
    var c := NewCommand(f, command);
    if f.button == NONE then
      Result(Finished, groups[gi := groups[gi].(commands := cmds + [c])], Some(Snapshot(groups)), true, None)
    else match FirstIndex(CommandNames(cmds), f.button)
      case None => Result(Raised, groups, Some(Snapshot(groups)), false, None)
      case Some(ti) =>
        Result(Finished, groups[gi := groups[gi].(commands := InsertAt(cmds, ti + 1, c))], Some(Snapshot(groups)), true, None)
  }

  /** Editing the selected tool of group `gi`. */
  function EditIn(groups: seq<Group>, gi: nat, f: Form, command: string): Result
    requires gi < |groups|
  {
    var cmds := groups[gi].commands;
    match FirstIndex(CommandNames(cmds), f.button)
    case None =>
      if EditsSomething(f) then Result(Raised, groups, Some(Snapshot(groups)), false, None)
      else Result(Finished, groups, Some(Snapshot(groups)), true, None)
    case Some(ti) =>
      Result(Finished, groups[gi := groups[gi].(commands := cmds[ti := Edited(cmds[ti], f, command)])],
             Some(Snapshot(groups)), true, None)
  }

  /** Removing the selected group, or the selected tool of that group. */
  function RunRemove(groups: seq<Group>, group: string, button: string): Result
  {
    if group == NONE then Cancel(groups)
    else
      var backup := Some(Snapshot(groups));
      match FirstIndex(GroupNames(groups), group)
      case None => Result(Raised, groups, backup, false, None)
      case Some(gi) =>
        if button == NONE then Result(Finished, RemoveAt(groups, gi), backup, true, None)
        else match FirstIndex(CommandNames(groups[gi].commands), button)
          case None => Result(Cancelled, groups, backup, false, None)
          case Some(ti) =>
            Result(Finished, groups[gi := groups[gi].(commands := RemoveAt(groups[gi].commands, ti))], backup, true, None)
  }

  /** Applying the order made with the move buttons: the configuration as
    * last saved (before the moves) is backed up, then the new order is
    * saved. */
  function RunApplyOrder(st: Store): Result
  {
    Result(Finished, st.groups, Some(Snapshot(st.saved)), true, None)
  }

  /** The same as written: the move operators assign a local
    * `CONFIG_DATA_BACKUP`, so the module's one is always the empty
    * dictionary it starts as, and that is what gets backed up. */
  function RunApplyOrderAsWritten(st: Store): Result
  {
    Result(Finished, st.groups, Some(EmptyDict), true, None)
  }

  /** Showing the selected tool's command in a new text named after its id
    * name; the text stays empty when the tool is not found. */
  function RunView(groups: seq<Group>, group: string, button: string, host: Host): Result
  {
    if button == NONE || host.editor.None? then Cancel(groups)
    else
      var textName := IdName(button);
      match FirstIndex(GroupNames(groups), group)
      case None => Result(Raised, groups, None, false, Some((textName, "")))
      case Some(gi) =>
        match FirstIndex(CommandNames(groups[gi].commands), button)
        case None => Result(Finished, groups, None, false, Some((textName, "")))
        case Some(ti) => Result(Finished, groups, None, false, Some((textName, groups[gi].commands[ti].command)))
  }

  /** One run of the editor operator. */
  function Run(st: Store, f: Form, host: Host): Result
    requires host.Valid()
  {
    match f.mode
    case Add | Edit =>
      if |f.name| == 0 then Cancel(st.groups)
      else if f.mode == Add && f.newGroup then RunAddGroup(st.groups, f.name, f.group)
      else if f.group == NONE then Cancel(st.groups)
      else if f.mode == Edit && f.button == NONE then RunRenameGroup(st.groups, f.name, f.group)
      else RunCommand(st.groups, f, host)
    case Remove => RunRemove(st.groups, f.group, f.button)
    case Reorder => RunApplyOrder(st)
    case View => RunView(st.groups, f.group, f.button, host)
  }

  // Properties of a run.

  /** A result that leaves the groups alone unless it finishes, and that
    * backs up the previous groups and saves the new ones whenever it
    * changes them. */
  predicate BackedUp(groups: seq<Group>, r: Result)
  {
    (r.outcome != Finished ==> r.groups == groups && !r.save) &&
    (r.groups != groups ==> r.backup == Some(Snapshot(groups)) && r.save)
  }

  lemma CommandBackedUp(groups: seq<Group>, f: Form, host: Host)
    requires host.Valid()
    ensures BackedUp(groups, RunCommand(groups, f, host))
  {
    if !(f.mode == Add && IdTaken(groups, f.name)) && (StartsWith(f.image, "'") || host.iconExists) {
      var command := if f.mode == Add || Strip(f.cmd) != "*" then CommandText(f.cmd, host.editor) else Some("");
      if command.Some? {
        assert RunCommand(groups, f, host) == CommandInto(groups, f, command.value);
        var gi := FirstIndex(GroupNames(groups), f.group);
        if gi.Some? {
          if f.mode == Add {
            assert BackedUp(groups, AddInto(groups, gi.value, f, command.value));
          } else {
            assert BackedUp(groups, EditIn(groups, gi.value, f, command.value));
          }
        }
      }
    }
  }

  /** A run that does not finish changes no group and saves nothing; a
    * run that changes the groups backs up the previous ones first and
    * saves the new ones. */
  lemma ChangesAreBackedUp(st: Store, f: Form, host: Host)
    requires host.Valid()
    ensures BackedUp(st.groups, Run(st, f, host))
  {
    if f.mode.Add? || f.mode.Edit? {
      if |f.name| > 0 && !(f.mode == Add && f.newGroup) && f.group != NONE && !(f.mode == Edit && f.button == NONE) {
        CommandBackedUp(st.groups, f, host);
      }
    }
  }

  /** A new group whose exact name exists is refused and nothing is
    * written. */
  lemma AddGroupTwiceCancels(st: Store, f: Form, host: Host)
    requires host.Valid()
    requires f.mode == Add && f.newGroup && |f.name| > 0 && f.name in GroupNames(st.groups)
    ensures Run(st, f, host) == Cancel(st.groups)
    ensures After(st, Run(st, f, host)) == st
  {
  }

  /** A new group lands right after the selected group, or at the end when
    * none is selected, and its name then finds it. */
  lemma AddedGroupPlace(groups: seq<Group>, name: string, group: string)
    requires RunAddGroup(groups, name, group).outcome == Finished
    ensures var p := if |groups| == 0 || group == NONE then |groups| else FirstIndex(GroupNames(groups), group).value + 1;
      var r := RunAddGroup(groups, name, group).groups;
      p <= |groups| &&
      r == InsertAt(groups, p, Group(name, [])) &&
      FirstIndex(GroupNames(r), name) == Some(p) &&
      (0 < p && group != NONE ==> groups[p - 1].name == group)
  {
    var p := if |groups| == 0 || group == NONE then |groups| else FirstIndex(GroupNames(groups), group).value + 1;
    assert name !in GroupNames(groups);
    if |groups| == 0 || group == NONE {
      InsertAtEnd(groups, Group(name, []));
    }
    NewNameFirst(groups, p, name);
  }

  lemma InsertAtEnd<T>(s: seq<T>, x: T)
    ensures InsertAt(s, |s|, x) == s + [x]
  {
  }

  /** A name no group has finds the group inserted with it. */
  lemma NewNameFirst(groups: seq<Group>, p: nat, name: string)
    requires p <= |groups| && name !in GroupNames(groups)
    ensures FirstIndex(GroupNames(InsertAt(groups, p, Group(name, []))), name) == Some(p)
  {
    var r := InsertAt(groups, p, Group(name, []));
    forall k | 0 <= k < p
      ensures GroupNames(r)[k] != name
    {
      assert GroupNames(groups)[k] == groups[k].name;
    }
    FirstIndexIs(GroupNames(r), name, p);
  }

  lemma FirstIndexIs(names: seq<string>, name: string, i: nat)
    requires i < |names| && names[i] == name
    requires forall k :: 0 <= k < i ==> names[k] != name
    ensures FirstIndex(names, name) == Some(i)
  {
  }

  /** A new command whose id name some command already has is refused
    * and nothing is written. */
  lemma AddCommandTwiceCancels(st: Store, f: Form, host: Host)
    requires host.Valid()
    requires f.mode == Add && !f.newGroup && |f.name| > 0 && f.group != NONE && IdTaken(st.groups, f.name)
    ensures Run(st, f, host) == Cancel(st.groups)
  {
  }

  /** A new command goes into the selected group, right after the
    * selected tool or at the end, with the processed command text and
    * the name as the default tooltip; the other groups are unchanged. */
  lemma AddedCommandPlace(groups: seq<Group>, f: Form, host: Host)
    requires host.Valid()
    requires f.mode == Add && RunCommand(groups, f, host).outcome == Finished
    ensures FirstIndex(GroupNames(groups), f.group).Some?
    ensures var gi := FirstIndex(GroupNames(groups), f.group).value;
      var cmds := groups[gi].commands;
      var p := if f.button == NONE then |cmds| else FirstIndex(CommandNames(cmds), f.button).value + 1;
      var c := NewCommand(f, CommandText(f.cmd, host.editor).value);
      CommandText(f.cmd, host.editor).Some? && p <= |cmds| && !IdTaken(groups, f.name) &&
      RunCommand(groups, f, host).groups == groups[gi := groups[gi].(commands := InsertAt(cmds, p, c))]
  {
    var command := CommandText(f.cmd, host.editor);
    assert RunCommand(groups, f, host) == CommandInto(groups, f, command.value);
    var gi := FirstIndex(GroupNames(groups), f.group).value;
    assert CommandInto(groups, f, command.value) == AddInto(groups, gi, f, command.value);
    var cmds := groups[gi].commands;
    var c := NewCommand(f, command.value);
    if f.button == NONE {
      assert cmds + [c] == InsertAt(cmds, |cmds|, c);
    }
  }

  /** The new command carries the name, the processed command text, and
    * the given tooltip or else the name. */
  lemma NewCommandFields(f: Form, command: string)
    ensures NewCommand(f, command).name == f.name && NewCommand(f, command).command == command
    ensures NewCommand(f, command).tooltip == (if |f.tip| > 0 then f.tip else f.name)
  {
  }

  /** The groups with `c` inserted at position `p` of group `gi`. */
  function InsertCommand(groups: seq<Group>, gi: nat, p: nat, c: Command): seq<Group>
    requires gi < |groups| && p <= |groups[gi].commands|
  {
    groups[gi := groups[gi].(commands := InsertAt(groups[gi].commands, p, c))]
  }

  lemma OriginIs(groups: seq<Group>, gi: nat, p: nat, c: Command, i: nat, j: nat)
    requires gi < |groups| && p <= |groups[gi].commands| && i < |groups|
    requires j < |groups[i].commands| + (if i == gi then 1 else 0)
    requires i == gi ==> j != p
    ensures var o := Origin(groups, gi, p, i, j);
      |InsertCommand(groups, gi, p, c)[i].commands| == |groups[i].commands| + (if i == gi then 1 else 0) &&
      InsertCommand(groups, gi, p, c)[i].commands[j] == groups[o.0].commands[o.1]
  {
  }

  /** Inserting a command whose id name is new keeps the id names
    * unique. */
  lemma InsertKeepsUnique(groups: seq<Group>, gi: nat, p: nat, c: Command)
    requires UniqueIds(groups) && !IdTaken(groups, c.name)
    requires gi < |groups| && p <= |groups[gi].commands|
    ensures UniqueIds(InsertCommand(groups, gi, p, c))
  {
    var r := InsertCommand(groups, gi, p, c);
    assert |r| == |groups|;
    forall i, j, i2, j2 |
      0 <= i < |r| && 0 <= j < |r[i].commands| &&
      0 <= i2 < |r| && 0 <= j2 < |r[i2].commands| && (i != i2 || j != j2)
      ensures IdName(r[i].commands[j].name) != IdName(r[i2].commands[j2].name)
    {
      assert |r[i].commands| == |groups[i].commands| + (if i == gi then 1 else 0);
      assert |r[i2].commands| == |groups[i2].commands| + (if i2 == gi then 1 else 0);
      if i == gi && j == p {
        OriginIs(groups, gi, p, c, i2, j2);
      } else if i2 == gi && j2 == p {
        OriginIs(groups, gi, p, c, i, j);
      } else {
        OriginIs(groups, gi, p, c, i, j);
        OriginIs(groups, gi, p, c, i2, j2);
      }
    }
  }

  /** Where a command of the shelf after the insertion was before it. */
  function Origin(groups: seq<Group>, gi: nat, p: nat, i: nat, j: nat): (o: (nat, nat))
    requires gi < |groups| && p <= |groups[gi].commands| && i < |groups|
    requires j < |groups[i].commands| + (if i == gi then 1 else 0)
    requires i == gi ==> j != p
    ensures o.0 == i && o.1 < |groups[i].commands|
  {
    if i == gi && j > p then (i, j - 1) else (i, j)
  }

  /** Inserting a group without commands keeps the id names unique. */
  lemma InsertGroupKeepsUnique(groups: seq<Group>, p: nat, g: Group)
    requires UniqueIds(groups) && p <= |groups| && g.commands == []
    ensures UniqueIds(InsertAt(groups, p, g))
  {
    var r := InsertAt(groups, p, g);
    forall i, j, i2, j2 |
      0 <= i < |r| && 0 <= j < |r[i].commands| &&
      0 <= i2 < |r| && 0 <= j2 < |r[i2].commands| && (i != i2 || j != j2)
      ensures IdName(r[i].commands[j].name) != IdName(r[i2].commands[j2].name)
    {
      var oi := if i > p then i - 1 else i;
      var oi2 := if i2 > p then i2 - 1 else i2;
      assert r[i] == groups[oi] && r[i2] == groups[oi2];
    }
  }

  /** Adding a group or a command never makes two commands share an id
    * name. */
  lemma AddKeepsIdsUnique(st: Store, f: Form, host: Host)
    requires host.Valid() && UniqueIds(st.groups) && f.mode == Add
    ensures UniqueIds(Run(st, f, host).groups)
  {
    if |f.name| > 0 {
      if f.newGroup {
        AddGroupKeepsUnique(st.groups, f.name, f.group);
      } else if f.group != NONE {
        AddCommandKeepsUnique(st.groups, f, host);
      }
    }
  }

  lemma AddGroupKeepsUnique(groups: seq<Group>, name: string, group: string)
    requires UniqueIds(groups)
    ensures UniqueIds(RunAddGroup(groups, name, group).groups)
  {
    if RunAddGroup(groups, name, group).outcome == Finished {
      AddedGroupPlace(groups, name, group);
      var p := if |groups| == 0 || group == NONE then |groups| else FirstIndex(GroupNames(groups), group).value + 1;
      InsertGroupKeepsUnique(groups, p, Group(name, []));
    }
  }

  lemma AddCommandKeepsUnique(groups: seq<Group>, f: Form, host: Host)
    requires host.Valid() && UniqueIds(groups) && f.mode == Add
    ensures UniqueIds(RunCommand(groups, f, host).groups)
  {
    CommandBackedUp(groups, f, host);
    var r := RunCommand(groups, f, host);
    if r.outcome == Finished {
      AddedCommandPlace(groups, f, host);
      var gi := FirstIndex(GroupNames(groups), f.group).value;
      var cmds := groups[gi].commands;
      var p := if f.button == NONE then |cmds| else FirstIndex(CommandNames(cmds), f.button).value + 1;
      var c := NewCommand(f, CommandText(f.cmd, host.editor).value);
      assert r.groups == InsertCommand(groups, gi, p, c);
      InsertKeepsUnique(groups, gi, p, c);
    }
  }

  /** Editing with every field "*" (or the image and tooltip left empty)
    * leaves the groups as they were. */
  lemma EditStarsKeep(groups: seq<Group>, f: Form, host: Host)
    requires host.Valid()
    requires f.mode == Edit && Strip(f.name) == "*" && Strip(f.cmd) == "*"
    requires f.image == "" || Strip(f.image) == "*"
    requires f.tip == "" || Strip(f.tip) == "*"
    ensures RunCommand(groups, f, host).groups == groups
  {
    assert !Given(f.name) && !Given(f.image) && !Given(f.tip);
    if StartsWith(f.image, "'") || host.iconExists {
      assert !(f.mode == Add || Strip(f.cmd) != "*");
      assert RunCommand(groups, f, host) == CommandInto(groups, f, "");
      var gi := FirstIndex(GroupNames(groups), f.group);
      if gi.Some? {
        assert CommandInto(groups, f, "") == EditIn(groups, gi.value, f, "");
        EditInKeeps(groups, gi.value, f);
      }
    }
  }

  lemma EditInKeeps(groups: seq<Group>, gi: nat, f: Form)
    requires gi < |groups| && f.mode == Edit
    requires !Given(f.name) && !Given(f.image) && !Given(f.tip) && Strip(f.cmd) == "*"
    ensures EditIn(groups, gi, f, "").groups == groups
  {
    var cmds := groups[gi].commands;
    var ti := FirstIndex(CommandNames(cmds), f.button);
    if ti.Some? {
      assert Edited(cmds[ti.value], f, "") == cmds[ti.value];
      assert cmds[ti.value := cmds[ti.value]] == cmds;
    }
  }

  /** Removing takes out exactly the selected group, or exactly the
    * selected tool of that group. */
  lemma RemoveExactly(st: Store, f: Form, host: Host)
    requires host.Valid()
    requires f.mode == Remove && Run(st, f, host).outcome == Finished
    ensures var groups := st.groups;
      var r := Run(st, f, host).groups;
      var gi := FirstIndex(GroupNames(groups), f.group).value;
      FirstIndex(GroupNames(groups), f.group).Some? && groups[gi].name == f.group &&
      (f.button == NONE ==> multiset(r) + multiset{groups[gi]} == multiset(groups)) &&
      (f.button != NONE ==>
        var ti := FirstIndex(CommandNames(groups[gi].commands), f.button).value;
        FirstIndex(CommandNames(groups[gi].commands), f.button).Some? &&
        groups[gi].commands[ti].name == f.button &&
        |r| == |groups| &&
        multiset(r[gi].commands) + multiset{groups[gi].commands[ti]} == multiset(groups[gi].commands) &&
        forall k :: 0 <= k < |groups| && k != gi ==> r[k] == groups[k])
  {
  }

  /** As written, applying a new order backs up a dictionary without any
    * groups; corrected, the backup holds the configuration as last
    * saved. */
  lemma ApplyOrderBackup(st: Store)
    ensures RunApplyOrderAsWritten(st).backup == Some(EmptyDict)
    ensures RunApplyOrder(st).backup == Some(Snapshot(st.saved))
    ensures RunApplyOrderAsWritten(st).backup != RunApplyOrder(st).backup
  {
  }

  /** Moving an item of a saved shelf and then applying the order backs up
    * the order before the move and saves the new one. */
  lemma MoveThenApply(groups: seq<Group>, backups: seq<Backup>, name: string, isGroup: bool, groupIndex: Option<nat>, up: bool)
    requires groupIndex.Some? ==> groupIndex.value < |groups|
    requires ReorderedGroups(groups, name, isGroup, groupIndex, up).Some?
    ensures var moved := ReorderedGroups(groups, name, isGroup, groupIndex, up).value;
      After(Store(moved, groups, backups), RunApplyOrder(Store(moved, groups, backups)))
        == Store(moved, moved, backups + [Snapshot(groups)])
  {
  }

  /** Viewing a tool shows its command under its id name. */
  lemma ViewShowsCommand(st: Store, f: Form, host: Host)
    requires host.Valid()
    requires f.mode == View && f.button != NONE && host.editor.Some?
    requires FirstIndex(GroupNames(st.groups), f.group).Some?
    ensures var gi := FirstIndex(GroupNames(st.groups), f.group).value;
      var r := Run(st, f, host);
      r.groups == st.groups && r.backup == None && !r.save &&
      (f.button in CommandNames(st.groups[gi].commands) ==>
        r.text == Some((IdName(f.button), st.groups[gi].commands[FirstIndex(CommandNames(st.groups[gi].commands), f.button).value].command)))
  {
  }

  // ------------------------------------------------------------------
  // The shelf as the add-on keeps it: `CONFIG_DATA` in memory, the
  // configuration file and the backup folder.
  // ------------------------------------------------------------------

  /** `processCommand`, line by line as the source collects the text. */
  method ProcessCommand(cmd: string, editor: Option<TextState>) returns (r: Option<string>)
    requires editor.Some? ==> editor.value.Valid()
    ensures r == CommandText(cmd, editor)
  {
    if |cmd| > 0 {
      if Contains(cmd, "bpy.") && !Contains(cmd, "import bpy") {
        return Some("import bpy; " + cmd);
      }
      return Some(cmd);
    }
    if editor.None? {
      return None;
    }
    var t := editor.value;
    var (start, end) := SelectionRange(t.current, t.selectEnd);
    if start == end {
      start, end := 0, |t.lines|;
    } else if end > start + 1 {
      end := end + 1;
    }
    assert t.lines[start..end] == SelectedLines(t);
    var content := ExpandLines(t.lines, start, end);
    return Some(Join(content, "\n"));
  }

  /** The lines `start` to `end` (exclusive), each with its tabs widened. */
  method ExpandLines(lines: seq<string>, start: nat, end: nat) returns (content: seq<string>)
    requires start <= end <= |lines|
    ensures content == ExpandAll(lines[start..end])
  {
    content := [];
    var i := start;
    while i < end
      invariant start <= i <= end
      invariant content == ExpandAll(lines[start..i])
    {
      content := content + [ExpandTabs(lines[i])];
      i := i + 1;
    }
  }

  /** One step of `reorder` on a list: `pop` the item and `insert` it
    * next to where it was, unless it is already at that end. */
  method MoveOne<T>(s: seq<T>, i: nat, up: bool) returns (r: seq<T>)
    requires i < |s|
    ensures r == Moved(s, i, up)
  {
    r := s;
    if CanMove(|s|, i, up) {
      var item := r[i];
      r := RemoveAt(r, i);
      r := InsertAt(r, Neighbour(i, up), item);
    }
  }

  /** The edit mode's field-by-field update of a command. */
  method EditFields(c0: Command, f: Form, command: string) returns (c: Command)
    ensures c == Edited(c0, f, command)
  {
    c := c0;
    if Given(f.name) {
      c := c.(name := f.name);
    }
    if Given(f.image) {
      c := c.(icon := f.image);
    }
    if Strip(f.cmd) != "*" {
      c := c.(command := command);
    }
    if Given(f.tip) {
      c := c.(tooltip := f.tip);
    }
  }

  class Shelf {
    /** `CONFIG_DATA["groups"]`. */
    var groups: seq<Group>
    /** The groups as last written to the configuration file. */
    var saved: seq<Group>
    /** The backup files written so far, oldest first. */
    var backups: seq<Backup>

    function State(): Store
      reads this
    {
      Store(groups, saved, backups)
    }

    /** A shelf just read from its configuration file. */
    constructor(groups: seq<Group>)
      ensures State() == Store(groups, groups, [])
    {
      this.groups := groups;
      saved := groups;
      backups := [];
    }

    /** `currentGroupIndex`: the first group with the name. */
    method CurrentGroupIndex(name: string) returns (r: Option<nat>)
      ensures r == FirstIndex(GroupNames(groups), name)
    {
      var i := 0;
      while i < |groups|
        invariant 0 <= i <= |groups|
        invariant forall k :: 0 <= k < i ==> groups[k].name != name
      {
        if groups[i].name == name {
          FirstIndexIs(GroupNames(groups), name, i);
          return Some(i);
        }
        i := i + 1;
      }
      assert name !in GroupNames(groups);
      return None;
    }

    /** `currentToolIndex`: the first tool of group `gi` with the name. */
    method CurrentToolIndex(name: string, gi: nat) returns (r: Option<nat>)
      requires gi < |groups|
      ensures r == FirstIndex(CommandNames(groups[gi].commands), name)
    {
      var commands := groups[gi].commands;
      var i := 0;
      while i < |commands|
        invariant 0 <= i <= |commands|
        invariant forall k :: 0 <= k < i ==> commands[k].name != name
      {
        if commands[i].name == name {
          FirstIndexIs(CommandNames(commands), name, i);
          return Some(i);
        }
        i := i + 1;
      }
      assert name !in CommandNames(commands);
      return None;
    }

    /** The search of the add mode for a command with the same id name. */
    method CommandIdTaken(name: string) returns (taken: bool)
      ensures taken == IdTaken(groups, name)
    {
      var id := IdName(name);
      var i := 0;
      while i < |groups|
        invariant 0 <= i <= |groups|
        invariant forall i', j' :: 0 <= i' < i && 0 <= j' < |groups[i'].commands| ==>
          IdName(groups[i'].commands[j'].name) != id
      {
        var commands := groups[i].commands;
        var j := 0;
        while j < |commands|
          invariant 0 <= j <= |commands|
          invariant forall j' :: 0 <= j' < j ==> IdName(commands[j'].name) != id
        {
          if IdName(commands[j].name) == id {
            return true;
          }
          j := j + 1;
        }
        i := i + 1;
      }
      return false;
    }

    /** `backupConfig(CONFIG_DATA)`: a new backup file with the groups in
      * memory. */
    method BackupConfig()
      modifies this
      ensures State() == old(State()).(backups := old(backups) + [Snapshot(groups)])
    {
      backups := backups + [Snapshot(groups)];
    }

    /** Adding a group (the add mode with "new group" set). */
    method AddGroup(name: string, group: string) returns (outcome: Outcome)
      modifies this
      ensures var r := RunAddGroup(old(groups), name, group);
        State() == After(old(State()), r) && outcome == r.outcome
    {
      var i := 0;
      while i < |groups|
        invariant 0 <= i <= |groups|
        invariant forall k :: 0 <= k < i ==> groups[k].name != name
      {
        if groups[i].name == name {
          assert GroupNames(groups)[i] == name;
          return Cancelled;
        }
        i := i + 1;
      }
      assert name !in GroupNames(groups);
      BackupConfig();
      var added := Group(name, []);
      if |groups| == 0 {
        groups := [added];
      } else if group != NONE {
        var gi := CurrentGroupIndex(group);
        if gi.None? {
          return Raised;
        }
        groups := InsertAt(groups, gi.value + 1, added);
      } else {
        groups := groups + [added];
      }
      saved := groups;
      return Finished;
    }

    /** Renaming the selected group (the edit mode with no tool selected). */
    method RenameGroup(name: string, group: string) returns (outcome: Outcome)
      modifies this
      ensures var r := RunRenameGroup(old(groups), name, group);
        State() == After(old(State()), r) && outcome == r.outcome
    {
      BackupConfig();
      var gi := CurrentGroupIndex(group);
      if gi.None? {
        return Raised;
      }
      groups := groups[gi.value := groups[gi.value].(name := name)];
      saved := groups;
      return Finished;
    }

    /** Adding or editing a command. */
    method SaveCommand(f: Form, host: Host) returns (outcome: Outcome)
      requires host.Valid()
      modifies this
      ensures var r := RunCommand(old(groups), f, host);
        State() == After(old(State()), r) && outcome == r.outcome
    {
      ghost var g0 := groups;
      if f.mode == Add {
        var taken := CommandIdTaken(f.name);
        if taken {
          assert RunCommand(g0, f, host) == Cancel(g0);
          return Cancelled;
        }
      }
      if !StartsWith(f.image, "'") && !host.iconExists {
        assert RunCommand(g0, f, host) == Cancel(g0);
        return Cancelled;
      }
      BackupConfig();
      var command := Some("");
      if f.mode == Add || Strip(f.cmd) != "*" {
        command := ProcessCommand(f.cmd, host.editor);
        if command.None? {
          assert RunCommand(g0, f, host) == Result(Cancelled, g0, Some(Snapshot(g0)), false, None);
          return Cancelled;
        }
      }
      ghost var r := CommandInto(g0, f, command.value);
      assert RunCommand(g0, f, host) == r;
      outcome := PlaceCommand(f, command.value);
      assert backups == old(backups) + [r.backup.value];
    }

    /** The part of `SaveCommand` after the backup: the command goes into
      * the selected group. */
    method PlaceCommand(f: Form, command: string) returns (outcome: Outcome)
      modifies this
      ensures var r := CommandInto(old(groups), f, command);
        groups == r.groups && saved == (if r.save then r.groups else old(saved)) &&
        backups == old(backups) && outcome == r.outcome
    {
      var gi := CurrentGroupIndex(f.group);
      if gi.None? {
        return Raised;
      }
      if f.mode == Add {
        outcome := AddCommand(gi.value, f, command);
      } else {
        outcome := EditCommand(gi.value, f, command);
      }
    }

    /** A new command at the end of group `gi` or after its selected tool. */
    method AddCommand(gi: nat, f: Form, command: string) returns (outcome: Outcome)
      requires gi < |groups|
      modifies this
      ensures var r := AddInto(old(groups), gi, f, command);
        groups == r.groups && saved == (if r.save then r.groups else old(saved)) &&
        backups == old(backups) && outcome == r.outcome
    {
      var cmds := groups[gi].commands;
      var c := NewCommand(f, command);
      if f.button != NONE {
        var ti := CurrentToolIndex(f.button, gi);
        if ti.None? {
          return Raised;
        }
        groups := groups[gi := groups[gi].(commands := InsertAt(cmds, ti.value + 1, c))];
      } else {
        groups := groups[gi := groups[gi].(commands := cmds + [c])];
      }
      saved := groups;
      return Finished;
    }

    /** The selected tool of group `gi` gets each field the form gives. */
    method EditCommand(gi: nat, f: Form, command: string) returns (outcome: Outcome)
      requires gi < |groups|
      modifies this
      ensures var r := EditIn(old(groups), gi, f, command);
        groups == r.groups && saved == (if r.save then r.groups else old(saved)) &&
        backups == old(backups) && outcome == r.outcome
    {
      var cmds := groups[gi].commands;
      var ti := CurrentToolIndex(f.button, gi);
      if ti.None? {
        if EditsSomething(f) {
          return Raised;
        }
      } else {
        var c := EditFields(cmds[ti.value], f, command);
        groups := groups[gi := groups[gi].(commands := cmds[ti.value := c])];
      }
      saved := groups;
      return Finished;
    }

    /** Removing the selected group or tool. */
    method RemoveItem(group: string, button: string) returns (outcome: Outcome)
      modifies this
      ensures var r := RunRemove(old(groups), group, button);
        State() == After(old(State()), r) && outcome == r.outcome
    {
      if group == NONE {
        return Cancelled;
      }
      BackupConfig();
      var gi := CurrentGroupIndex(group);
      if gi.None? {
        return Raised;
      }
      var g := gi.value;
      if button == NONE {
        groups := RemoveAt(groups, g);
      } else {
        var ti := CurrentToolIndex(button, g);
        if ti.None? {
          return Cancelled;
        }
        groups := groups[g := groups[g].(commands := RemoveAt(groups[g].commands, ti.value))];
      }
      saved := groups;
      return Finished;
    }

    /** Applying the order made with the move buttons. */
    method ApplyOrder() returns (outcome: Outcome)
      modifies this
      ensures var r := RunApplyOrder(old(State()));
        State() == After(old(State()), r) && outcome == r.outcome
    {
      backups := backups + [Snapshot(saved)];
      saved := groups;
      return Finished;
    }

    /** Showing the selected tool's command: the name and content of the
      * new text. */
    method ViewCommand(group: string, button: string, host: Host) returns (outcome: Outcome, text: Option<(string, string)>)
      ensures var r := RunView(groups, group, button, host);
        outcome == r.outcome && text == r.text
    {
      if button == NONE || host.editor.None? {
        return Cancelled, None;
      }
      var textName := IdName(button);
      var gi := CurrentGroupIndex(group);
      if gi.None? {
        return Raised, Some((textName, ""));
      }
      var ti := CurrentToolIndex(button, gi.value);
      if ti.None? {
        return Finished, Some((textName, ""));
      }
      return Finished, Some((textName, groups[gi.value].commands[ti.value].command));
    }

    /** `TOOLSHELF_OT_Editor.execute`. */
    method Execute(f: Form, host: Host) returns (outcome: Outcome, text: Option<(string, string)>)
      requires host.Valid()
      modifies this
      ensures var r := Run(old(State()), f, host);
        State() == After(old(State()), r) && outcome == r.outcome && text == r.text
    {
      ghost var st := State();
      text := None;
      if f.mode.Add? || f.mode.Edit? {
        if |f.name| == 0 {
          outcome := Cancelled;
        } else if f.mode == Add && f.newGroup {
          assert Run(st, f, host) == RunAddGroup(st.groups, f.name, f.group);
          outcome := AddGroup(f.name, f.group);
        } else if f.group == NONE {
          outcome := Cancelled;
        } else if f.mode == Edit && f.button == NONE {
          assert Run(st, f, host) == RunRenameGroup(st.groups, f.name, f.group);
          outcome := RenameGroup(f.name, f.group);
        } else {
          assert Run(st, f, host) == RunCommand(st.groups, f, host);
          outcome := SaveCommand(f, host);
        }
      } else if f.mode.Remove? {
        outcome := RemoveItem(f.group, f.button);
      } else if f.mode.Reorder? {
        outcome := ApplyOrder();
      } else {
        outcome, text := ViewCommand(f.group, f.button, host);
        assert RunView(st.groups, f.group, f.button, host).groups == st.groups;
      }
    }

    /** `reorder`: `pop` and `insert` on the groups or on the tools of the
      * group at `groupIndex`; `raised` where the source raises a
      * `TypeError`. The file and the backups are left alone. */
    method Reorder(name: string, isGroup: bool, groupIndex: Option<nat>, up: bool) returns (raised: bool)
      requires groupIndex.Some? ==> groupIndex.value < |groups|
      modifies this
      ensures var r := ReorderedGroups(old(groups), name, isGroup, groupIndex, up);
        raised == r.None? && groups == (if raised then old(groups) else r.value)
      ensures saved == old(saved) && backups == old(backups)
    {
      if groupIndex.None? {
        return true;
      }
      var gi := groupIndex.value;
      if isGroup {
        groups := MoveOne(groups, gi, up);
        return false;
      }
      var ti := CurrentToolIndex(name, gi);
      if ti.None? {
        return true;
      }
      var cmds := MoveOne(groups[gi].commands, ti.value, up);
      groups := groups[gi := groups[gi].(commands := cmds)];
      return false;
    }

    /** `TOOLSHELF_OT_MoveItemUp` and `TOOLSHELF_OT_MoveItemDown`: the
      * selected tool, or the selected group when no tool is selected,
      * moves one place. */
    method MoveItem(groupValue: string, buttonValue: string, up: bool) returns (outcome: Outcome)
      modifies this
      ensures var item := ReorderItem(groupValue, buttonValue);
        var r := if item.None? then None
          else ReorderedGroups(old(groups), item.value.0, item.value.1, FirstIndex(GroupNames(old(groups)), groupValue), up);
        (outcome == Cancelled <==> item.None?) &&
        (outcome == Raised <==> item.Some? && r.None?) &&
        groups == (if r.Some? then r.value else old(groups))
      ensures saved == old(saved) && backups == old(backups)
    {
      var item := ReorderItem(groupValue, buttonValue);
      if item.None? {
        return Cancelled;
      }
      var gi := CurrentGroupIndex(groupValue);
      var raised := Reorder(item.value.0, item.value.1, gi, up);
      outcome := if raised then Raised else Finished;
    }
  }
}
