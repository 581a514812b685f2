// Rapid SDK (rapidSDK.py): the set-driven-key workflow. One call of the
// operator either starts a driver setup, creates the drivers, enters or
// leaves the edit of existing driver curves, or resets the muted curves.

module RapidSdk {
  import opened Wrappers
  import opened PyStr
  import opened RapidPaths

  // ---------------------------------------------------------------------
  // Availability and the driven side
  // ---------------------------------------------------------------------

  /** `propertyIsAvailable`, given whether the property is driven and
    * whether it is animated. */
  function PropertyIsAvailable(isDriven: bool, isAnimated: bool, create: bool): (r: bool)
    ensures create ==> (r <==> !isDriven && !isAnimated)
    ensures !create ==> (r <==> isDriven)
  {
    if create then !(isDriven || isAnimated) else isDriven
  }

  /** The last '.'-separated part of a driven data path. */
  function DrivenProp(dataPath: string): string
  {
    var parts := Split(dataPath, ".");
    parts[|parts| - 1]
  }

  /** The index `getDriverData` records for the driven property: -1 for a
    * custom property, whose name starts with '[', and the curve's array
    * index otherwise. */
  function DrivenIndex(dataPath: string, arrayIndex: int): int
  {
    if StartsWith(DrivenProp(dataPath), "[") then -1 else arrayIndex
  }

  /** A driven custom property reads back with index -1; a transform keeps
    * its array index. */
  lemma DrivenIndexOfPath(name: string, arrayIndex: int)
    requires PlainName(name)
    ensures DrivenProp(PropPath(name)) == PropPath(name)
    ensures DrivenIndex(PropPath(name), arrayIndex) == if IsTransform(name) then arrayIndex else -1
  {
    assert '.' !in PropPath(name);
    SplitPlain(PropPath(name), ".");
    if IsTransform(name) {
      assert PropPath(name)[0] != '[';
    }
  }

  /** A property of a driver or driven set-up: a named property with its
    * array index, or a shape key block (always without index), each with
    * its start and end value. */
  datatype PropChange =
    | NamedChange(name: string, index: int, start: real, end: real)
    | BlockChange(key: string, block: string, value: string, start: real, end: real)

  /** Where `createDriver` adds the driven curve. */
  datatype DriverAdd = DriverAdd(owner: Owner, path: string, index: int)
  datatype Owner = OnObject(obj: SdkObject) | OnBlock(key: string, block: string)

  /** `createDriver`: the driven property's curve is added on the object
    * (transforms by name, custom properties quoted) or on the shape key
    * block. */
  function CreateDriver(driven: SdkObject, change: PropChange): (r: DriverAdd)
    ensures change.NamedChange? ==> r == DriverAdd(OnObject(driven), PropPath(change.name), change.index)
    ensures change.BlockChange? ==> r == DriverAdd(OnBlock(change.key, change.block), change.value, -1)
  {
    match change
    case NamedChange(n, i, _, _) => DriverAdd(OnObject(driven), PropPath(n), i)
    case BlockChange(k, b, v, _, _) => DriverAdd(OnBlock(k, b), v, -1)
  }

  // ---------------------------------------------------------------------
  // addDriver
  // ---------------------------------------------------------------------

  datatype DriverKind = Average | Sum

  /** The id a variable reads from: an object (the armature for a pose
    * bone) or a shape key data block (`id_type` 'KEY'). */
  datatype TargetId = ObjectId(name: string) | KeyId(key: string)

  datatype Variable = Variable(name: string, id: TargetId, path: string)

  /** A created driver: its type, its variables, the two range keys (as
    * (driver value, driven value) points) and whether the curve
    * extrapolates linearly. */
  datatype DriverSetup = DriverSetup(kind: DriverKind, variables: seq<Variable>, keys: seq<(real, real)>, linear: bool)

  /** The name of the i-th variable (0-based): `var1`, `var2`, ... */
  function VarName(i: nat): string
  {
    "var" + NatToString(i + 1)
  }

  /** Variable names never repeat. */
  lemma VarNamesDistinct(i: nat, j: nat)
    requires i != j
    ensures VarName(i) != VarName(j)
  {
    VarSuffix(i);
    VarSuffix(j);
    ParseNatToString(i + 1);
    ParseNatToString(j + 1);
  }

  lemma VarSuffix(i: nat)
    ensures VarName(i)[3..] == NatToString(i + 1)
  {
  }

  /** The id of the driving object: the armature for a pose bone. */
  function BaseId(driver: SdkObject): TargetId
  {
    match FilterPoseBone(driver).0
    case ShapeKeyObj(k) => KeyId(k)
    case PoseBoneObj(a, _) => ObjectId(a)
    case PlainObj(n) => ObjectId(n)
  }

  /** The id the variable of the last change in `changes` reads from. A
    * shape key change switches the driving id to its key, and the switch
    * carries over to every later change. */
  function IdAfter(base: TargetId, changes: seq<PropChange>): (r: TargetId)
    ensures (forall k :: 0 <= k < |changes| ==> changes[k].NamedChange?) ==> r == base
  {
    if changes == [] then base
    else match changes[|changes| - 1]
      case BlockChange(k, _, _, _, _) => KeyId(k)
      case NamedChange(_, _, _, _) => IdAfter(base, changes[..|changes| - 1])
  }

  /** The target path of one driving change. */
  function ChangePath(prefix: string, change: PropChange): string
  {
    match change
    case NamedChange(n, i, _, _) => TargetPath(prefix, n, i)
    case BlockChange(_, b, v, _, _) => BlockPath(b, v)
  }

  function Starts(changes: seq<PropChange>): real
  {
    if changes == [] then 0.0 else Starts(changes[..|changes| - 1]) + changes[|changes| - 1].start
  }

  function Ends(changes: seq<PropChange>): real
  {
    if changes == [] then 0.0 else Ends(changes[..|changes| - 1]) + changes[|changes| - 1].end
  }

  /** The variable `addDriver` creates for the i-th driving change. */
  function VariableAt(driver: SdkObject, changes: seq<PropChange>, i: nat): Variable
    requires i < |changes|
  {
    Variable(VarName(i), IdAfter(BaseId(driver), changes[..i + 1]), ChangePath(FilterPoseBone(driver).1, changes[i]))
  }

  /** One more change: the id switches on a shape key change, and the
    * sums grow by its values. */
  lemma AddDriverStep(base: TargetId, changes: seq<PropChange>, i: nat)
    requires i < |changes|
    ensures IdAfter(base, changes[..i + 1]) ==
            if changes[i].BlockChange? then KeyId(changes[i].key) else IdAfter(base, changes[..i])
    ensures Starts(changes[..i + 1]) == Starts(changes[..i]) + changes[i].start
    ensures Ends(changes[..i + 1]) == Ends(changes[..i]) + changes[i].end
  {
    assert changes[..i + 1][..i] == changes[..i];
  }

  /** `addDriver`: one variable per driving change, named `var1`, ...; the
    * type is a sum for several drivers and an average for one; when the
    * new curve is found (`found`), its two keys map the summed start and
    * end values of the drivers to the driven start and end values, and
    * `outside` (the preference) makes it extrapolate. */
  method AddDriver(driver: SdkObject, changes: seq<PropChange>, drivenStart: real, drivenEnd: real,
                   found: bool, outside: bool) returns (d: DriverSetup)
    ensures d.kind == (if |changes| > 1 then Sum else Average)
    ensures |d.variables| == |changes|
    ensures forall i :: 0 <= i < |changes| ==> d.variables[i] == VariableAt(driver, changes, i)
    ensures found ==> d.keys == [(Starts(changes), drivenStart), (Ends(changes), drivenEnd)]
    ensures !found ==> d.keys == []
    ensures d.linear == (found && outside)
  {
    var kind := if |changes| > 1 then Sum else Average;
    var variables, minValue, maxValue := AddVariables(driver, changes);
    var keys: seq<(real, real)> := [];
    if found {
      keys := [(minValue, drivenStart), (maxValue, drivenEnd)];
    }
    d := DriverSetup(kind, variables, keys, found && outside);
  }

  lemma VariableAtIs(driver: SdkObject, changes: seq<PropChange>, i: nat, id: TargetId)
    requires i < |changes| && id == IdAfter(BaseId(driver), changes[..i + 1])
    ensures VariableAt(driver, changes, i) == Variable(VarName(i), id, ChangePath(FilterPoseBone(driver).1, changes[i]))
  {
  }

  /** The first i variables are those of the first i changes. */
  predicate VariablesUpTo(driver: SdkObject, changes: seq<PropChange>, variables: seq<Variable>, i: nat)
    requires i <= |changes|
  {
    |variables| == i && forall k :: 0 <= k < i ==> variables[k] == VariableAt(driver, changes, k)
  }

  lemma VariablesNext(driver: SdkObject, changes: seq<PropChange>, variables: seq<Variable>, i: nat, v: Variable)
    requires i < |changes| && VariablesUpTo(driver, changes, variables, i) && v == VariableAt(driver, changes, i)
    ensures VariablesUpTo(driver, changes, variables + [v], i + 1)
  {
  }

  /** The loop of `addDriver` over the driving changes. */
  method AddVariables(driver: SdkObject, changes: seq<PropChange>)
    returns (variables: seq<Variable>, minValue: real, maxValue: real)
    ensures |variables| == |changes|
    ensures forall i :: 0 <= i < |changes| ==> variables[i] == VariableAt(driver, changes, i)
    ensures minValue == Starts(changes) && maxValue == Ends(changes)
  {
    var bonePrefix := FilterPoseBone(driver).1;
    var id := BaseId(driver);
    variables := [];
    minValue := 0.0;
    maxValue := 0.0;
    var i := 0;
    while i < |changes|
      invariant 0 <= i <= |changes|
      invariant |variables| == i
      invariant id == IdAfter(BaseId(driver), changes[..i])
      invariant VariablesUpTo(driver, changes, variables, i)
      invariant minValue == Starts(changes[..i]) && maxValue == Ends(changes[..i])
    {
      var change := changes[i];
      AddDriverStep(BaseId(driver), changes, i);
      if change.BlockChange? {
        id := KeyId(change.key);
      }
      var v := Variable(VarName(i), id, ChangePath(bonePrefix, change));
      VariableAtIs(driver, changes, i, id);
      VariablesNext(driver, changes, variables, i, v);
      variables := variables + [v];
      minValue := minValue + change.start;
      maxValue := maxValue + change.end;
      i := i + 1;
    }
    assert changes[..i] == changes;
  }

  /** Every variable of a pose bone driver reads back, through
    * `getDriverData`, as the bone, the property and the index it was
    * written for. */
  lemma AddDriverTargetsRead(arm: string, bone: string, change: PropChange)
    requires change.NamedChange? && PlainName(bone) && PlainName(change.name) && change.index >= -1
    ensures ParseTarget(ChangePath(FilterPoseBone(PoseBoneObj(arm, bone)).1, change), true, false) ==
            Some(TargetData(change.name, change.index, bone))
  {
    ParseBoneTarget(bone, change.name, change.index);
  }

  /** The same for an object driver, which writes no bone prefix. */
  lemma AddDriverTargetsReadPlain(name: string, change: PropChange)
    requires change.NamedChange? && PlainName(change.name) && change.index >= -1
    ensures ParseTarget(ChangePath(FilterPoseBone(PlainObj(name)).1, change), false, false) ==
            Some(TargetData(change.name, change.index, ""))
  {
    ParsePlainTarget(change.name, change.index);
  }

  /** Summing the drivers one at a time: the start of a set-up with one
    * more driver is the old sum plus its start. */
  lemma {:induction false} StartsAppend(changes: seq<PropChange>, more: seq<PropChange>)
    ensures Starts(changes + more) == Starts(changes) + Starts(more)
    decreases |more|
  {
    if more == [] {
      assert changes + more == changes;
    } else {
      var n := |more| - 1;
      assert (changes + more)[..|changes + more| - 1] == changes + more[..n];
      StartsAppend(changes, more[..n]);
    }
  }

  // ---------------------------------------------------------------------
  // insertKey
  // ---------------------------------------------------------------------

  /** One source of a driver variable: the driving property, its index
    * and whether its id is a shape key block. */
  datatype Source = Source(prop: string, index: int, isKey: bool)

  /** The driving value a source contributes: shape key sources and
    * single properties are read whole, array properties at their index.
    * `value(p, -1)` stands for the current value of property p and
    * `value(p, i)` for its i-th component. */
  function SourceValue(s: Source, value: (string, int) -> real): real
  {
    if s.isKey then value(s.prop, -1) else value(s.prop, s.index)
  }

  function SumSources(vars: seq<seq<Source>>, value: (string, int) -> real): real
  {
    if vars == [] then 0.0
    else SumSources(vars[..|vars| - 1], value) + SumOne(vars[|vars| - 1], value)
  }

  function SumOne(sources: seq<Source>, value: (string, int) -> real): real
  {
    if sources == [] then 0.0
    else SumOne(sources[..|sources| - 1], value) + SourceValue(sources[|sources| - 1], value)
  }

  /** The current driving value `insertKey` computes for a driver: the
    * sum over all variables and all their sources. */
  method DrivingValue(vars: seq<seq<Source>>, value: (string, int) -> real) returns (dVal: real)
    ensures dVal == SumSources(vars, value)
  {
    dVal := 0.0;
    var v := 0;
    while v < |vars|
      invariant 0 <= v <= |vars|
      invariant dVal == SumSources(vars[..v], value)
    {
      assert vars[..v + 1][..v] == vars[..v];
      var sum := dVal;
      var s := 0;
      while s < |vars[v]|
        invariant 0 <= s <= |vars[v]|
        invariant dVal == sum + SumOne(vars[v][..s], value)
      {
        assert vars[v][..s + 1][..s] == vars[v][..s];
        var src := vars[v][s];
        if !src.isKey {
          if src.index == -1 {
            dVal := dVal + value(src.prop, -1);
          } else {
            dVal := dVal + value(src.prop, src.index);
          }
        } else {
          dVal := dVal + value(src.prop, -1);
        }
        s := s + 1;
      }
      assert vars[v][..s] == vars[v];
      v := v + 1;
    }
    assert vars[..v] == vars;
  }

  /** Some key of the curve lies at the driving value. */
  predicate HasCloseKey(keys: seq<(real, real)>, dVal: real, close: (real, real) -> bool)
  {
    exists i :: 0 <= i < |keys| && close(keys[i].0, dVal)
  }

  /** `insertKey` on one driver curve: every key at the driving value
    * (as `isClose` judges it) takes the new driven value; when there is
    * none, a key (driving value, driven value) is appended. */
  method InsertKey(keys: seq<(real, real)>, dVal: real, value: real, close: (real, real) -> bool)
    returns (r: seq<(real, real)>)
    ensures HasCloseKey(keys, dVal, close) ==> |r| == |keys|
    ensures HasCloseKey(keys, dVal, close) ==> forall i :: 0 <= i < |keys| ==>
              r[i] == if close(keys[i].0, dVal) then (keys[i].0, value) else keys[i]
    ensures !HasCloseKey(keys, dVal, close) ==> r == keys + [(dVal, value)]
  {
    var update := false;
    r := keys;
    var i := 0;
    while i < |keys|
      invariant 0 <= i <= |keys|
      invariant |r| == |keys|
      invariant update <==> exists k :: 0 <= k < i && close(keys[k].0, dVal)
      invariant forall k :: 0 <= k < i ==> r[k] == if close(keys[k].0, dVal) then (keys[k].0, value) else keys[k]
      invariant forall k :: i <= k < |keys| ==> r[k] == keys[k]
    {
      if close(r[i].0, dVal) {
        update := true;
        r := r[i := (r[i].0, value)];
      }
      i := i + 1;
    }
    if !update {
      assert r == keys;
      r := r + [(dVal, value)];
    }
  }

  /** After `insertKey` the curve has a key at the driving value holding
    * the driven value. */
  lemma InsertKeyHits(keys: seq<(real, real)>, r: seq<(real, real)>, dVal: real, value: real, close: (real, real) -> bool)
    requires forall x :: close(x, x)
    requires HasCloseKey(keys, dVal, close) ==> |r| == |keys| && forall i :: 0 <= i < |keys| ==>
               r[i] == if close(keys[i].0, dVal) then (keys[i].0, value) else keys[i]
    requires !HasCloseKey(keys, dVal, close) ==> r == keys + [(dVal, value)]
    ensures exists i :: 0 <= i < |r| && close(r[i].0, dVal) && r[i].1 == value
  {
    if HasCloseKey(keys, dVal, close) {
      var i :| 0 <= i < |keys| && close(keys[i].0, dVal);
      assert r[i] == (keys[i].0, value);
    } else {
      assert r[|keys|] == (dVal, value);
      assert close(dVal, dVal);
    }
  }

  // ---------------------------------------------------------------------
  // The operator state
  // ---------------------------------------------------------------------

  /** The position of the first occurrence of x. */
  function FirstIndex(s: seq<string>, x: string): (i: nat)
    requires x in s
    ensures i < |s| && s[i] == x && x !in s[..i]
  {
    if s[0] == x then 0
    else
      var i := FirstIndex(s[1..], x);
      assert s[..i + 1] == [s[0]] + s[1..][..i];
      i + 1
  }

  /** `list.remove`: the first occurrence of x taken out, the rest kept
    * in order. */
  function RemoveFirst(s: seq<string>, x: string): (r: seq<string>)
    requires x in s
    ensures |r| == |s| - 1
    ensures multiset(r) + multiset{x} == multiset(s)
  {
    var i := FirstIndex(s, x);
    assert s == s[..i] + [x] + s[i + 1..];
    s[..i] + s[i + 1..]
  }

  /** What the host reports to one call of the operator: whether any
    * driving and any driven property changed and is usable, whether the
    * selected object has driver curves to edit, and whether the edited
    * object's values changed. */
  datatype Host = Host(drivingChanged: bool, drivenChanged: bool, hasDrivers: bool, editChanged: bool)

  /** The report of one call. */
  datatype Outcome =
    | NoActiveWarning
    | RemoveFails
    | Started
    | NoDrivingWarning
    | NoDrivenWarning
    | Created
    | Inconclusive
    | NoDriversInfo
    | Editing
    | CurvesUpdated
    | EditCancelled
    | ResetCurves(names: seq<string>)
    | NothingSelectedWarning

  /** The state of the `RapidSDK` instance. */
  class RapidSdkState {
    var driver: Option<string>
    var driven: Option<seq<string>>
    var createMode: bool
    var editMode: bool

    /** In edit mode the edited object is the first driven. (Create mode
      * does not guarantee a stored driver: a failing `remove` sets the
      * mode without one.) */
    ghost predicate Valid()
      reads this
    {
      editMode ==> driven.Some? && |driven.value| >= 1
    }

    constructor ()
      ensures Valid() && driver.None? && driven.None? && !createMode && !editMode
    {
      driver := None;
      driven := None;
      createMode := false;
      editMode := false;
    }

    /** `resetDriverState`: the driven curves are enabled again and the
      * driven list and edit mode are cleared. */
    method ResetDriverState(objects: seq<string>) returns (outcome: Outcome)
      modifies this`driven, this`editMode
      ensures outcome == ResetCurves(objects)
      ensures driven.None? && !editMode
    {
      driven := None;
      editMode := false;
      outcome := ResetCurves(objects);
    }

    /** `initEdit`: without driver curves on the object nothing changes;
      * otherwise edit mode starts with the object as the only driven. */
    method InitEdit(obj: string, hasDrivers: bool) returns (outcome: Outcome)
      modifies this`driven, this`editMode
      ensures !hasDrivers ==> outcome == NoDriversInfo && driven == old(driven) && editMode == old(editMode)
      ensures hasDrivers ==> outcome == Editing && driven == Some([obj]) && editMode
    {
      if !hasDrivers {
        return NoDriversInfo;
      }
      editMode := true;
      driven := Some([obj]);
      outcome := Editing;
    }

    /** `execute` for the selection `objects` (as keys) and the active
      * object `active`. */
    method Execute(objects: seq<string>, active: Option<string>, host: Host) returns (outcome: Outcome)
      requires Valid()
      modifies this
      ensures Valid()
      // A selection without an active object only warns.
      ensures |objects| > 0 && active.None? ==>
                outcome == NoActiveWarning && driver == old(driver) && driven == old(driven) &&
                createMode == old(createMode) && editMode == old(editMode)
      // Two or more objects outside create mode start a setup.
      ensures active.Some? && |objects| > 1 && !old(createMode) && active.value in objects ==>
                outcome == Started && createMode && editMode == old(editMode) &&
                driver == active && driven == Some(RemoveFirst(objects, active.value))
      // A failing `remove` leaves create mode set without a new driver.
      ensures active.Some? && |objects| > 1 && !old(createMode) && active.value !in objects ==>
                outcome == RemoveFails && createMode && driver == old(driver) && driven == old(driven) &&
                editMode == old(editMode)
      // The next call in create mode ends it.
      ensures (|objects| == 0 || active.Some?) && old(createMode) ==>
                !createMode && driver == old(driver) && driven == old(driven) && editMode == old(editMode) &&
                outcome == (if !host.drivingChanged then NoDrivingWarning
                            else if !host.drivenChanged then NoDrivenWarning
                            else Created)
      // One object enters or leaves edit mode.
      ensures active.Some? && |objects| == 1 && !old(createMode) && active.value !in objects ==>
                outcome == Inconclusive && driven == old(driven) && editMode == old(editMode)
      ensures active.Some? && |objects| == 1 && !old(createMode) && active.value in objects && !old(editMode) ==>
                (if host.hasDrivers then outcome == Editing && editMode && driven == Some([active.value])
                 else outcome == NoDriversInfo && !editMode && driven == old(driven))
      ensures active.Some? && |objects| == 1 && !old(createMode) && active.value in objects && old(editMode) &&
              active.value == old(driven).value[0] ==>
                !editMode && driven == old(driven) &&
                outcome == (if host.editChanged then CurvesUpdated else EditCancelled)
      // Another object while editing only resets.
      ensures active.Some? && |objects| == 1 && !old(createMode) && active.value in objects && old(editMode) &&
              active.value != old(driven).value[0] ==>
                outcome == ResetCurves(old(driven).value) && !editMode && driven.None?
      // Nothing selected resets the last driven, if any.
      ensures |objects| == 0 && !old(createMode) ==>
                createMode == old(createMode) &&
                (if old(driven).Some? && old(driven).value != [] then outcome == ResetCurves(old(driven).value) && driven.None? && !editMode
                 else outcome == NothingSelectedWarning && driven == old(driven) && editMode == old(editMode))
      ensures !old(createMode) ==> driver == old(driver) || (outcome == Started && driver == active)
      ensures !old(createMode) && outcome != Started && outcome != RemoveFails ==> !createMode
    {
      if |objects| > 0 && active.None? {
        return NoActiveWarning;
      }
      if |objects| > 1 && !createMode {
        createMode := true;
        if active.value !in objects {
          return RemoveFails;
        }
        driver := active;
        driven := Some(RemoveFirst(objects, active.value));
        outcome := Started;
      } else if createMode {
        createMode := false;
        if !host.drivingChanged {
          return NoDrivingWarning;
        }
        if !host.drivenChanged {
          return NoDrivenWarning;
        }
        outcome := Created;
      } else if |objects| == 1 {
        if active.value !in objects {
          return Inconclusive;
        }
        if !editMode {
          outcome := InitEdit(active.value, host.hasDrivers);
        } else if active.value == driven.value[0] {
          editMode := false;
          outcome := if host.editChanged then CurvesUpdated else EditCancelled;
        } else {
          outcome := ResetDriverState(driven.value);
        }
      } else {
        if driven.Some? && driven.value != [] {
          outcome := ResetDriverState(driven.value);
        } else {
          outcome := NothingSelectedWarning;
        }
      }
    }
  }
}
