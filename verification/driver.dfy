// Driver bookkeeping of the RBF output nodes (RBFNodes/core/driver.py):
// finding a driver F-Curve by its paths, creating and deleting one driver
// per output component, and muting the drivers recorded in a node's
// `driverIndex` slots.

module RbfDriver {
  import opened Wrappers
  import opened PyStr

  /** A driver F-Curve of an animation data-block: the driven path and
    * array index, the data paths of the targets of all its variables (in
    * variable order), and its mute flag. */
  datatype FCurve = FCurve(dataPath: string, arrayIndex: int, targets: seq<string>, mute: bool)

  /** What receives a driver: an object (or a node tree), or a pose bone,
    * whose drivers live on the armature object under a bone-prefixed path. */
  datatype Driven = ObjectDriven | PoseBoneDriven(bone: string) | NodeTreeDriven

  /** A single property driven with index -1 reports array index 0. */
  function StoredIndex(index: int): int
  {
    if index == -1 then 0 else index
  }

  function PoseBonePrefix(bone: string): string
  {
    "pose.bones[\"" + bone + "\"]"
  }

  /** The path under which the driven property's drivers are found in the
    * data-block of `driven`. */
  function DriverPath(driven: Driven, prop: string): (r: string)
    ensures driven.PoseBoneDriven? ==> StartsWith(r, PoseBonePrefix(driven.bone)) && EndsWith(r, prop)
    ensures !driven.PoseBoneDriven? ==> r == prop
  {
    match driven
    case PoseBoneDriven(bone) =>
      var sep := if StartsWith(prop, "[") then "" else ".";
      assert PoseBonePrefix(bone) + (sep + prop) == PoseBonePrefix(bone) + sep + prop;
      PoseBonePrefix(bone) + sep + prop
    case _ => prop
  }

  /** The property part of a bone-prefixed path. */
  function PropOfBonePath(bone: string, path: string): string
    requires |path| > |PoseBonePrefix(bone)|
  {
    var rest := path[|PoseBonePrefix(bone)|..];
    if rest[0] == '[' then rest else rest[1..]
  }

  /** The bone prefix and separator are added so that the property can be
    * read back from the path. */
  lemma BonePathRoundTrip(bone: string, prop: string)
    ensures |DriverPath(PoseBoneDriven(bone), prop)| > |PoseBonePrefix(bone)|
    ensures PropOfBonePath(bone, DriverPath(PoseBoneDriven(bone), prop)) == prop
  {
    var path := DriverPath(PoseBoneDriven(bone), prop);
    var n := |PoseBonePrefix(bone)|;
    if StartsWith(prop, "[") {
      assert path == PoseBonePrefix(bone) + prop;
      assert path[n..] == prop;
    } else {
      assert path == PoseBonePrefix(bone) + "." + prop;
      assert path[n..] == "." + prop;
    }
  }

  /** The data path a driver variable reads: output component `k` of the
    * output node called `name`. */
  function OutputPath(name: string, k: nat): string
  {
    "nodes[\"" + name + "\"].output[" + NatToString(k) + "]"
  }

  /** The driver sought by `getDriverIndex`. */
  predicate Matches(f: FCurve, path: string, index: int, target: string)
  {
    f.dataPath == path && f.arrayIndex == StoredIndex(index) && target in f.targets
  }

  /** `getDriverIndex`: the first driver of the block with the driven path
    * and index and a target reading `driverPath`, or -1. */
  method GetDriverIndex(drivers: seq<FCurve>, driven: Driven, driverPath: string, drivenProp: string, propertyIndex: int)
    returns (r: int)
    ensures -1 <= r < |drivers|
    ensures r == -1 <==> forall k :: 0 <= k < |drivers| ==> !Matches(drivers[k], DriverPath(driven, drivenProp), propertyIndex, driverPath)
    ensures r >= 0 ==> Matches(drivers[r], DriverPath(driven, drivenProp), propertyIndex, driverPath)
    ensures r >= 0 ==> forall k :: 0 <= k < r ==> !Matches(drivers[k], DriverPath(driven, drivenProp), propertyIndex, driverPath)
  {
    var path := DriverPath(driven, drivenProp);
    var i := 0;
    while i < |drivers|
      invariant 0 <= i <= |drivers|
      invariant forall k :: 0 <= k < i ==> !Matches(drivers[k], path, propertyIndex, driverPath)
    {
      var index := StoredIndex(propertyIndex);
      if drivers[i].dataPath == path && drivers[i].arrayIndex == index {
        var t := 0;
        while t < |drivers[i].targets|
          invariant 0 <= t <= |drivers[i].targets|
          invariant forall u :: 0 <= u < t ==> drivers[i].targets[u] != driverPath
        {
          if drivers[i].targets[t] == driverPath {
            return i;
          }
          t := t + 1;
        }
      }
      i := i + 1;
    }
    return -1;
  }

  /** `getShapeKeyDriverIndex`: the first driver with a target reading
    * `driverPath`, whatever it drives, or nothing. */
  method GetShapeKeyDriverIndex(drivers: seq<FCurve>, driverPath: string) returns (r: Option<nat>)
    ensures r.None? <==> forall k :: 0 <= k < |drivers| ==> driverPath !in drivers[k].targets
    ensures r.Some? ==> r.value < |drivers| && driverPath in drivers[r.value].targets
    ensures r.Some? ==> forall k :: 0 <= k < r.value ==> driverPath !in drivers[k].targets
  {
    var i := 0;
    while i < |drivers|
      invariant 0 <= i <= |drivers|
      invariant forall k :: 0 <= k < i ==> driverPath !in drivers[k].targets
    {
      var t := 0;
      while t < |drivers[i].targets|
        invariant 0 <= t <= |drivers[i].targets|
        invariant forall u :: 0 <= u < t ==> drivers[i].targets[u] != driverPath
      {
        if drivers[i].targets[t] == driverPath {
          return Some(i);
        }
        t := t + 1;
      }
      i := i + 1;
    }
    return None;
  }

  /** `g` is `f` with possibly more targets. */
  predicate Extends(f: FCurve, g: FCurve)
  {
    g.dataPath == f.dataPath && g.arrayIndex == f.arrayIndex && g.mute == f.mute && f.targets <= g.targets
  }

  lemma ExtendsMatches(f: FCurve, g: FCurve, path: string, index: int, target: string)
    requires Extends(f, g) && Matches(f, path, index, target)
    ensures Matches(g, path, index, target)
  {
    var u :| 0 <= u < |f.targets| && f.targets[u] == target;
    assert g.targets[u] == target;
  }

  /** The position of the first F-Curve with the path and stored index,
    * or the length of the list when there is none. */
  function AddSlot(ds: seq<FCurve>, path: string, index: int): (k: nat)
    ensures k <= |ds|
    ensures k < |ds| ==> ds[k].dataPath == path && ds[k].arrayIndex == StoredIndex(index)
    ensures forall j :: 0 <= j < k ==> !(ds[j].dataPath == path && ds[j].arrayIndex == StoredIndex(index))
  {
    if ds == [] then 0
    else if ds[0].dataPath == path && ds[0].arrayIndex == StoredIndex(index) then 0
    else 1 + AddSlot(ds[1..], path, index)
  }

  /** The host's `driver_add(path, index)` followed by a new variable whose
    * target reads `target`: the F-Curve for the path and stored index is
    * reused when there is one, otherwise a new one is appended. */
  function DriverAdd(ds: seq<FCurve>, path: string, index: int, target: string): (r: seq<FCurve>)
    ensures |r| == if AddSlot(ds, path, index) < |ds| then |ds| else |ds| + 1
    ensures forall k :: 0 <= k < |ds| && k != AddSlot(ds, path, index) ==> r[k] == ds[k]
    ensures forall k :: 0 <= k < |ds| ==> Extends(ds[k], r[k])
    ensures AddSlot(ds, path, index) < |r| && Matches(r[AddSlot(ds, path, index)], path, index, target)
  {
    var k := AddSlot(ds, path, index);
    if k < |ds| then
      var f := ds[k].(targets := ds[k].targets + [target]);
      assert f.targets[|ds[k].targets|] == target;
      ds[k := f]
    else
      ds + [FCurve(path, StoredIndex(index), [target], false)]
  }

  /** The host's `driver_remove(path, index)`: with index -1 every F-Curve
    * of the path goes, otherwise the first one with the path and index. */
  function DriverRemove(ds: seq<FCurve>, path: string, index: int): (r: seq<FCurve>)
    ensures forall k :: 0 <= k < |r| ==> r[k] in ds
    ensures index == -1 ==> forall k :: 0 <= k < |r| ==> r[k].dataPath != path
    ensures index == -1 ==> forall k :: 0 <= k < |ds| && ds[k].dataPath != path ==> ds[k] in r
    ensures index != -1 ==> |r| == |ds| - (if exists k :: 0 <= k < |ds| && ds[k].dataPath == path && ds[k].arrayIndex == index then 1 else 0)
  {
    if ds == [] then []
    else if index == -1 then
      var tail := DriverRemove(ds[1..], path, index);
      assert forall k :: 1 <= k < |ds| ==> ds[k] == ds[1..][k - 1];
      (if ds[0].dataPath == path then [] else [ds[0]]) + tail
    else if ds[0].dataPath == path && ds[0].arrayIndex == index then ds[1..]
    else
      assert forall k :: 1 <= k < |ds| ==> ds[k] == ds[1..][k - 1];
      [ds[0]] + DriverRemove(ds[1..], path, index)
  }

  /** The animation data-block holding the drivers. */
  class DriverBlock {
    var drivers: seq<FCurve>

    constructor (drivers: seq<FCurve>)
      ensures this.drivers == drivers
    {
      this.drivers := drivers;
    }
  }

  /** The driver state of an output node: its name, the driver index
    * recorded per output slot (-1 for none) and whether it drives. */
  class OutputNode {
    const name: string
    var driverIndex: seq<int>
    var isDriver: bool

    constructor (name: string, slots: nat)
      ensures this.name == name && driverIndex == Cleared(slots) && !isDriver
    {
      this.name := name;
      driverIndex := Cleared(slots);
      isDriver := false;
    }
  }

  function Cleared(n: nat): (r: seq<int>)
    ensures |r| == n && forall k :: 0 <= k < n ==> r[k] == -1
  {
    seq(n, _ => -1)
  }

  /** One driver to create: the node slot that records it, the output
    * component that feeds it, and the driven property and index. */
  datatype Step = Step(slot: nat, output: nat, drivenPath: string, drivenIndex: int)

  predicate DistinctSlots(steps: seq<Step>)
  {
    forall j, k :: 0 <= j < k < |steps| ==> steps[j].slot != steps[k].slot
  }

  /** The slots the steps record into. */
  function SlotsOf(steps: seq<Step>): set<nat>
  {
    if steps == [] then {} else SlotsOf(steps[..|steps| - 1]) + {steps[|steps| - 1].slot}
  }

  lemma {:induction false} SlotsOfMembers(steps: seq<Step>)
    ensures forall k :: 0 <= k < |steps| ==> steps[k].slot in SlotsOf(steps)
    ensures forall s :: s in SlotsOf(steps) ==> exists k :: 0 <= k < |steps| && steps[k].slot == s
  {
    if steps != [] {
      var init := steps[..|steps| - 1];
      SlotsOfMembers(init);
      assert forall k :: 0 <= k < |init| ==> init[k] == steps[k];
    }
  }

  /** The driver recorded for step `s` in `slots` is one created for it. */
  predicate Created(slots: seq<int>, ds: seq<FCurve>, driven: Driven, name: string, s: Step)
  {
    s.slot < |slots| && 0 <= slots[s.slot] < |ds| &&
    Matches(ds[slots[s.slot]], DriverPath(driven, s.drivenPath), s.drivenIndex, OutputPath(name, s.output))
  }

  /** The drivers after `createNodeGroupDriver` for each step in turn. */
  function AddAll(ds: seq<FCurve>, driven: Driven, name: string, steps: seq<Step>): seq<FCurve>
  {
    if steps == [] then ds
    else
      var s := steps[|steps| - 1];
      DriverAdd(AddAll(ds, driven, name, steps[..|steps| - 1]), DriverPath(driven, s.drivenPath), s.drivenIndex, OutputPath(name, s.output))
  }

  /** The drivers after `driver_remove` for each (path, index) in turn. */
  function RemoveAll(ds: seq<FCurve>, removals: seq<(string, int)>): seq<FCurve>
  {
    if removals == [] then ds
    else
      var p := removals[|removals| - 1];
      DriverRemove(RemoveAll(ds, removals[..|removals| - 1]), p.0, p.1)
  }

  /** The (path, index) pairs that delete the drivers of a plan. */
  function Removals(driven: Driven, steps: seq<Step>): (r: seq<(string, int)>)
    ensures |r| == |steps|
    ensures forall k :: 0 <= k < |steps| ==> r[k] == (DriverPath(driven, steps[k].drivenPath), steps[k].drivenIndex)
  {
    seq(|steps|, k requires 0 <= k < |steps| => (DriverPath(driven, steps[k].drivenPath), steps[k].drivenIndex))
  }

  /** The loop shared by the output nodes' `createDriver`: for each step,
    * create the driver, look it up with `getDriverIndex` and record the
    * index in the step's slot. A slot beyond the node's slots is the
    * IndexError of the slot assignment, raised after the driver exists. */
  method CreateDrivers(node: OutputNode, block: DriverBlock, driven: Driven, steps: seq<Step>) returns (ok: bool)
    requires DistinctSlots(steps)
    modifies node`driverIndex, node`isDriver, block`drivers
    ensures |node.driverIndex| == |old(node.driverIndex)|
    ensures ok <==> forall k :: 0 <= k < |steps| ==> steps[k].slot < |old(node.driverIndex)|
    ensures ok ==> block.drivers == AddAll(old(block.drivers), driven, node.name, steps)
    ensures ok ==> forall k :: 0 <= k < |steps| ==> Created(node.driverIndex, block.drivers, driven, node.name, steps[k])
    ensures ok ==> forall s :: 0 <= s < |node.driverIndex| && s !in SlotsOf(steps) ==> node.driverIndex[s] == old(node.driverIndex)[s]
    ensures ok ==> node.isDriver == (old(node.isDriver) || |steps| > 0)
    ensures !ok ==> exists j :: 0 <= j < |steps| && steps[j].slot >= |old(node.driverIndex)| &&
                      (forall k :: 0 <= k < j ==> steps[k].slot < |old(node.driverIndex)|) &&
                      block.drivers == AddAll(old(block.drivers), driven, node.name, steps[..j + 1])
  {
    var slots, ds, made;
    ok, slots, ds, made := CreateAll(node.driverIndex, block.drivers, driven, node.name, steps);
    block.drivers := ds;
    node.driverIndex := slots;
    node.isDriver := node.isDriver || made;
  }

  /** The loop of `CreateDrivers` on the slots and drivers as values;
    * `made` tells whether a slot was written. */
  method CreateAll(slots0: seq<int>, ds0: seq<FCurve>, driven: Driven, name: string, steps: seq<Step>)
    returns (ok: bool, slots: seq<int>, ds: seq<FCurve>, made: bool)
    requires DistinctSlots(steps)
    ensures |slots| == |slots0|
    ensures ok <==> forall k :: 0 <= k < |steps| ==> steps[k].slot < |slots0|
    ensures ok ==> ds == AddAll(ds0, driven, name, steps)
    ensures ok ==> forall k :: 0 <= k < |steps| ==> Created(slots, ds, driven, name, steps[k])
    ensures ok ==> forall s :: 0 <= s < |slots| && s !in SlotsOf(steps) ==> slots[s] == slots0[s]
    ensures ok ==> made == (|steps| > 0)
    ensures !ok ==> exists j :: 0 <= j < |steps| && steps[j].slot >= |slots0| &&
                      (forall k :: 0 <= k < j ==> steps[k].slot < |slots0|) &&
                      ds == AddAll(ds0, driven, name, steps[..j + 1])
  {
    slots, ds, made := slots0, ds0, false;
    var i := 0;
    while i < |steps|
      invariant 0 <= i <= |steps|
      invariant Recorded(slots0, ds0, driven, name, steps, i, slots, ds)
      invariant made == (i > 0)
    {
      var s := steps[i];
      var before := ds;
      var index;
      ds, index := AddAndFind(ds, driven, name, s);
      AddAllStep(ds0, driven, name, steps, i);
      if s.slot >= |slots| {
        return false, slots, ds, made;
      }
      RecordedStep(slots0, ds0, driven, name, steps, i, slots, before, ds, index);
      slots := slots[s.slot := index];
      made := true;
      i := i + 1;
    }
    assert steps[..i] == steps;
    return true, slots, ds, made;
  }

  /** The loop invariant of `CreateAll` after i steps. */
  ghost predicate Recorded(slots0: seq<int>, ds0: seq<FCurve>, driven: Driven, name: string, steps: seq<Step>, i: nat,
                           slots: seq<int>, ds: seq<FCurve>)
  {
    i <= |steps| && |slots| == |slots0| &&
    (forall k :: 0 <= k < i ==> steps[k].slot < |slots|) &&
    ds == AddAll(ds0, driven, name, steps[..i]) &&
    (forall k :: 0 <= k < i ==> Created(slots, ds, driven, name, steps[k])) &&
    (forall s :: 0 <= s < |slots| && s !in SlotsOf(steps[..i]) ==> slots[s] == slots0[s])
  }

  lemma RecordedStep(slots0: seq<int>, ds0: seq<FCurve>, driven: Driven, name: string, steps: seq<Step>, i: nat,
                     slots: seq<int>, before: seq<FCurve>, ds: seq<FCurve>, index: int)
    requires i < |steps| && DistinctSlots(steps) && steps[i].slot < |slots|
    requires Recorded(slots0, ds0, driven, name, steps, i, slots, before)
    requires ds == DriverAdd(before, DriverPath(driven, steps[i].drivenPath), steps[i].drivenIndex, OutputPath(name, steps[i].output))
    requires 0 <= index < |ds| && Matches(ds[index], DriverPath(driven, steps[i].drivenPath), steps[i].drivenIndex, OutputPath(name, steps[i].output))
    ensures Recorded(slots0, ds0, driven, name, steps, i + 1, slots[steps[i].slot := index], ds)
  {
    AddAllStep(ds0, driven, name, steps, i);
    AddKeepsCreated(slots, before, ds, driven, name, steps, i);
    SetKeepsCreated(slots, ds, driven, name, steps, i, index);
  }

  /** `createNodeGroupDriver` for one step, then `getDriverIndex`, which
    * finds a driver for it. */
  method AddAndFind(ds0: seq<FCurve>, driven: Driven, name: string, s: Step) returns (ds: seq<FCurve>, index: int)
    ensures ds == DriverAdd(ds0, DriverPath(driven, s.drivenPath), s.drivenIndex, OutputPath(name, s.output))
    ensures 0 <= index < |ds| && Matches(ds[index], DriverPath(driven, s.drivenPath), s.drivenIndex, OutputPath(name, s.output))
  {
    var target := OutputPath(name, s.output);
    ds := DriverAdd(ds0, DriverPath(driven, s.drivenPath), s.drivenIndex, target);
    index := GetDriverIndex(ds, driven, target, s.drivenPath, s.drivenIndex);
  }

  lemma AddAllStep(ds0: seq<FCurve>, driven: Driven, name: string, steps: seq<Step>, i: nat)
    requires i < |steps|
    ensures AddAll(ds0, driven, name, steps[..i + 1]) ==
            DriverAdd(AddAll(ds0, driven, name, steps[..i]), DriverPath(driven, steps[i].drivenPath), steps[i].drivenIndex, OutputPath(name, steps[i].output))
  {
    assert steps[..i + 1][..i] == steps[..i];
  }

  /** Recording step i in its own slot keeps the earlier steps recorded,
    * and the slots no step has used yet unchanged. */
  lemma SetKeepsCreated(slots: seq<int>, ds: seq<FCurve>, driven: Driven, name: string, steps: seq<Step>, i: nat, index: int)
    requires i < |steps| && DistinctSlots(steps) && steps[i].slot < |slots|
    requires 0 <= index < |ds| && Matches(ds[index], DriverPath(driven, steps[i].drivenPath), steps[i].drivenIndex, OutputPath(name, steps[i].output))
    requires forall k :: 0 <= k < i ==> Created(slots, ds, driven, name, steps[k])
    ensures forall k :: 0 <= k <= i ==> Created(slots[steps[i].slot := index], ds, driven, name, steps[k])
    ensures SlotsOf(steps[..i + 1]) == SlotsOf(steps[..i]) + {steps[i].slot}
  {
    assert steps[..i + 1][..i] == steps[..i];
    assert steps[..i + 1][i] == steps[i];
  }

  /** Adding a driver keeps every recorded driver a match. */
  lemma AddKeepsCreated(slots: seq<int>, before: seq<FCurve>, after: seq<FCurve>, driven: Driven, name: string, steps: seq<Step>, n: nat)
    requires n <= |steps|
    requires |before| <= |after| && forall k :: 0 <= k < |before| ==> Extends(before[k], after[k])
    requires forall k :: 0 <= k < n ==> Created(slots, before, driven, name, steps[k])
    ensures forall k :: 0 <= k < n ==> Created(slots, after, driven, name, steps[k])
  {
    forall k | 0 <= k < n
      ensures Created(slots, after, driven, name, steps[k])
    {
      var idx := slots[steps[k].slot];
      ExtendsMatches(before[idx], after[idx], DriverPath(driven, steps[k].drivenPath), steps[k].drivenIndex, OutputPath(name, steps[k].output));
    }
  }

  /** The loop shared by the output nodes' `deleteDriver`: remove each
    * (path, index) in turn, then clear the slots when `reset`. */
  method DeleteDrivers(node: OutputNode, block: DriverBlock, removals: seq<(string, int)>, reset: bool)
    modifies node`driverIndex, block`drivers
    ensures block.drivers == RemoveAll(old(block.drivers), removals)
    ensures node.driverIndex == if reset then Cleared(|old(node.driverIndex)|) else old(node.driverIndex)
  {
    var i := 0;
    while i < |removals|
      invariant 0 <= i <= |removals|
      invariant block.drivers == RemoveAll(old(block.drivers), removals[..i])
      invariant node.driverIndex == old(node.driverIndex)
    {
      assert removals[..i + 1][..i] == removals[..i];
      block.drivers := DriverRemove(block.drivers, removals[i].0, removals[i].1);
      i := i + 1;
    }
    assert removals[..i] == removals;
    if reset {
      node.driverIndex := Cleared(|node.driverIndex|);
    }
  }

  /** A step for flag k: slot slotBase + k drives component k. */
  predicate AxisStep(flags: seq<bool>, slotBase: nat, path: string, s: Step)
  {
    s.output < |flags| && flags[s.output] && s == Step(slotBase + s.output, s.output, path, s.output)
  }

  /** The steps of a node whose enabled flag k drives component k of
    * `path`, recorded in slot `slotBase + k`, in flag order. */
  function AxisPlan(flags: seq<bool>, slotBase: nat, path: string): (r: seq<Step>)
    ensures forall j :: 0 <= j < |r| ==> AxisStep(flags, slotBase, path, r[j])
    decreases |flags|
  {
    if flags == [] then []
    else
      var init := AxisPlan(flags[..|flags| - 1], slotBase, path);
      var k := |flags| - 1;
      assert forall j :: 0 <= j < k ==> flags[..k][j] == flags[j];
      init + (if flags[k] then [Step(slotBase + k, k, path, k)] else [])
  }

  lemma {:induction false} AxisPlanSlots(flags: seq<bool>, slotBase: nat, path: string)
    ensures forall k :: 0 <= k < |flags| ==> (slotBase + k in SlotsOf(AxisPlan(flags, slotBase, path)) <==> flags[k])
    ensures forall s :: s in SlotsOf(AxisPlan(flags, slotBase, path)) ==> slotBase <= s < slotBase + |flags|
    decreases |flags|
  {
    var r := AxisPlan(flags, slotBase, path);
    if flags != [] {
      var k := |flags| - 1;
      var init := AxisPlan(flags[..k], slotBase, path);
      AxisPlanSlots(flags[..k], slotBase, path);
      assert forall j :: 0 <= j < k ==> flags[..k][j] == flags[j];
      if flags[k] {
        assert r[..|r| - 1] == init;
        assert SlotsOf(r) == SlotsOf(init) + {slotBase + k};
      } else {
        assert r == init;
      }
    }
  }

  /** Each slot is used once, and some slot is used iff some flag is set. */
  lemma {:induction false} AxisPlanDistinct(flags: seq<bool>, slotBase: nat, path: string)
    ensures DistinctSlots(AxisPlan(flags, slotBase, path))
    ensures |AxisPlan(flags, slotBase, path)| > 0 <==> true in flags
    decreases |flags|
  {
    if flags != [] {
      var k := |flags| - 1;
      AxisPlanDistinct(flags[..k], slotBase, path);
      assert flags == flags[..k] + [flags[k]];
    }
  }

  /** After `CreateDrivers` on an axis plan, from slots cleared to -1: an
    * enabled flag's slot records its driver, a disabled flag's slot stays
    * -1. */
  lemma AxisPlanRecorded(flags: seq<bool>, slotBase: nat, path: string, slots: seq<int>, ds: seq<FCurve>, driven: Driven, name: string)
    requires |slots| == slotBase + |flags|
    requires forall j :: 0 <= j < |AxisPlan(flags, slotBase, path)| ==> Created(slots, ds, driven, name, AxisPlan(flags, slotBase, path)[j])
    requires forall s :: 0 <= s < |slots| && s !in SlotsOf(AxisPlan(flags, slotBase, path)) ==> slots[s] == -1
    ensures forall k :: 0 <= k < |flags| && flags[k] ==> Created(slots, ds, driven, name, Step(slotBase + k, k, path, k))
    ensures forall k :: 0 <= k < |flags| && !flags[k] ==> slots[slotBase + k] == -1
  {
    var plan := AxisPlan(flags, slotBase, path);
    AxisPlanSlots(flags, slotBase, path);
    forall k | 0 <= k < |flags| && flags[k]
      ensures Created(slots, ds, driven, name, Step(slotBase + k, k, path, k))
    {
      var j := AxisPlanIndex(flags, slotBase, path, k);
      assert Created(slots, ds, driven, name, plan[j]);
    }
  }

  /** Where an enabled flag's step sits in the plan. */
  lemma {:induction false} AxisPlanIndex(flags: seq<bool>, slotBase: nat, path: string, k: nat) returns (j: nat)
    requires k < |flags| && flags[k]
    ensures j < |AxisPlan(flags, slotBase, path)| && AxisPlan(flags, slotBase, path)[j] == Step(slotBase + k, k, path, k)
    decreases |flags|
  {
    var n := |flags| - 1;
    var init := AxisPlan(flags[..n], slotBase, path);
    if k == n {
      j := |init|;
    } else {
      j := AxisPlanIndex(flags[..n], slotBase, path, k);
    }
  }

  /** The transform axes x, y, z in the order `createTransformDriver`
    * visits them. */
  function TransformPlan(x: bool, y: bool, z: bool, transform: string): seq<Step>
  {
    AxisPlan([x, y, z], 0, transform)
  }

  /** `deleteTransformDriver`: remove the driver of each enabled axis, then
    * clear all three slots. */
  method DeleteTransformDriver(node: OutputNode, block: DriverBlock, driven: Driven, transform: string, x: bool, y: bool, z: bool)
    modifies node`driverIndex, block`drivers
    ensures block.drivers == RemoveAll(old(block.drivers), Removals(driven, TransformPlan(x, y, z, transform)))
    ensures node.driverIndex == [-1, -1, -1]
  {
    DeleteDrivers(node, block, Removals(driven, TransformPlan(x, y, z, transform)), false);
    node.driverIndex := [-1, -1, -1];
  }

  /** `CreateDrivers` on an axis plan, from slots cleared to -1. */
  method CreateAxisDrivers(node: OutputNode, block: DriverBlock, driven: Driven, flags: seq<bool>, slotBase: nat, path: string)
    requires |node.driverIndex| == slotBase + |flags| && forall k :: 0 <= k < |node.driverIndex| ==> node.driverIndex[k] == -1
    modifies node`driverIndex, node`isDriver, block`drivers
    ensures |node.driverIndex| == slotBase + |flags|
    ensures forall k :: 0 <= k < |flags| && flags[k] ==> Created(node.driverIndex, block.drivers, driven, node.name, Step(slotBase + k, k, path, k))
    ensures forall k :: 0 <= k < |flags| && !flags[k] ==> node.driverIndex[slotBase + k] == -1
    ensures forall k :: 0 <= k < slotBase ==> node.driverIndex[k] == -1
    ensures block.drivers == AddAll(old(block.drivers), driven, node.name, AxisPlan(flags, slotBase, path))
    ensures node.isDriver == (old(node.isDriver) || true in flags)
  {
    var plan := AxisPlan(flags, slotBase, path);
    AxisPlanDistinct(flags, slotBase, path);
    AxisPlanSlots(flags, slotBase, path);
    assert forall j :: 0 <= j < |plan| ==> AxisStep(flags, slotBase, path, plan[j]);
    assert forall j :: 0 <= j < |plan| ==> plan[j].slot < |node.driverIndex|;
    var ok := CreateDrivers(node, block, driven, plan);
    assert ok;
    assert forall s :: 0 <= s < |node.driverIndex| && s !in SlotsOf(plan) ==> node.driverIndex[s] == -1;
    AxisPlanRecorded(flags, slotBase, path, node.driverIndex, block.drivers, driven, node.name);
  }

  /** The first part of `createTransformDriver`: clear the slots, and
    * delete the existing drivers when the RBF node is active. */
  method ClearTransformDriver(node: OutputNode, block: DriverBlock, driven: Driven, transform: string,
                              x: bool, y: bool, z: bool, rbfActive: bool)
    modifies node`driverIndex, block`drivers
    ensures node.driverIndex == [-1, -1, -1]
    ensures block.drivers == if rbfActive then RemoveAll(old(block.drivers), Removals(driven, TransformPlan(x, y, z, transform)))
                             else old(block.drivers)
  {
    node.driverIndex := [-1, -1, -1];
    if rbfActive {
      DeleteTransformDriver(node, block, driven, transform, x, y, z);
    }
  }

  /** `createTransformDriver`: clear the slots, delete the existing drivers
    * when the RBF node is active, then drive component k of `transform`
    * from output k for each enabled axis and record it in slot k. */
  method CreateTransformDriver(node: OutputNode, block: DriverBlock, driven: Driven, transform: string,
                               x: bool, y: bool, z: bool, rbfActive: bool)
    modifies node`driverIndex, node`isDriver, block`drivers
    ensures |node.driverIndex| == 3
    ensures x ==> Created(node.driverIndex, block.drivers, driven, node.name, Step(0, 0, transform, 0))
    ensures y ==> Created(node.driverIndex, block.drivers, driven, node.name, Step(1, 1, transform, 1))
    ensures z ==> Created(node.driverIndex, block.drivers, driven, node.name, Step(2, 2, transform, 2))
    ensures !x ==> node.driverIndex[0] == -1
    ensures !y ==> node.driverIndex[1] == -1
    ensures !z ==> node.driverIndex[2] == -1
    ensures block.drivers == AddAll(if rbfActive then RemoveAll(old(block.drivers), Removals(driven, TransformPlan(x, y, z, transform)))
                                    else old(block.drivers), driven, node.name, TransformPlan(x, y, z, transform))
    ensures node.isDriver == (old(node.isDriver) || x || y || z)
  {
    ClearTransformDriver(node, block, driven, transform, x, y, z, rbfActive);
    assert true in [x, y, z] <==> x || y || z;
    CreateAxisDrivers(node, block, driven, [x, y, z], 0, transform);
    assert [x, y, z][0] == x && [x, y, z][1] == y && [x, y, z][2] == z;
  }

  /** Python's index into a list of length n, for -n <= i < n. */
  function PyIndex(i: int, n: nat): int
  {
    if i < 0 then i + n else i
  }

  /** Some recorded slot other than -1 names driver k of a block of n. */
  predicate Targeted(slots: seq<int>, n: nat, k: nat)
  {
    exists i :: 0 <= i < |slots| && slots[i] != -1 && -(n as int) <= slots[i] < n && PyIndex(slots[i], n) == k
  }

  /** `enableDriver`: every recorded slot other than -1 mutes or unmutes
    * its driver; an index outside the block is ignored (the IndexError is
    * caught). */
  method EnableDriver(slots: seq<int>, block: DriverBlock, enable: bool)
    modifies block`drivers
    ensures |block.drivers| == |old(block.drivers)|
    ensures forall k :: 0 <= k < |block.drivers| ==>
      block.drivers[k] == old(block.drivers)[k].(mute := if Targeted(slots, |old(block.drivers)|, k) then !enable
                                                         else old(block.drivers)[k].mute)
  {
    var n := |block.drivers|;
    var i := 0;
    while i < |slots|
      invariant 0 <= i <= |slots|
      invariant |block.drivers| == n
      invariant forall k :: 0 <= k < n ==>
        block.drivers[k] == old(block.drivers)[k].(mute := if Targeted(slots[..i], n, k) then !enable
                                                           else old(block.drivers)[k].mute)
    {
      var index := slots[i];
      if index != -1 && -(n as int) <= index < n {
        var k := PyIndex(index, n);
        block.drivers := block.drivers[k := block.drivers[k].(mute := !enable)];
      }
      forall k | 0 <= k < n
        ensures Targeted(slots[..i + 1], n, k) <==> Targeted(slots[..i], n, k) || (index != -1 && -(n as int) <= index < n && PyIndex(index, n) == k)
      {
        if Targeted(slots[..i + 1], n, k) && !(index != -1 && -(n as int) <= index < n && PyIndex(index, n) == k) {
          var u :| 0 <= u < i + 1 && slots[..i + 1][u] != -1 && -(n as int) <= slots[..i + 1][u] < n && PyIndex(slots[..i + 1][u], n) == k;
          assert u < i && slots[..i][u] == slots[u];
        }
        if Targeted(slots[..i], n, k) {
          var u :| 0 <= u < i && slots[..i][u] != -1 && -(n as int) <= slots[..i][u] < n && PyIndex(slots[..i][u], n) == k;
          assert slots[..i + 1][u] == slots[u];
        }
        if index != -1 && -(n as int) <= index < n && PyIndex(index, n) == k {
          assert slots[..i + 1][i] == index;
        }
      }
      i := i + 1;
    }
    assert slots[..i] == slots;
  }
}
