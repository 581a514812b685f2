// The driver bookkeeping of the rotation, custom property and node output
// nodes (RBFNodes/editor/nodes/rotation_output.py, custom_output.py,
// node_output.py): which components they read back, which drivers they
// create in which slots, and which drivers they delete.

module RbfOutputNodes {
  import opened Wrappers
  import opened PyStr
  import opened RbfDriver

  // ------------------------------------------------------------------
  // Rotation output node
  // ------------------------------------------------------------------

  datatype RotationMode = Euler | Quaternion | AxisAngle

  /** The driven rotation property of each mode (`var.ROTATIONS`). */
  function RotationPath(mode: RotationMode): string
  {
    match mode
    case Euler => "rotation_euler"
    case Quaternion => "rotation_quaternion"
    case AxisAngle => "rotation_axis_angle"
  }

  /** The output components of a plan, in order. */
  function Outputs(steps: seq<Step>): (r: seq<nat>)
    ensures |r| == |steps| && forall j :: 0 <= j < |steps| ==> r[j] == steps[j].output
  {
    seq(|steps|, j requires 0 <= j < |steps| => steps[j].output)
  }

  /** The loop of the rotation node's `createDriver` from axis `index`
    * on: in Euler mode w (index 0) is skipped and the component is one
    * less than the slot; otherwise all four slots drive their own
    * component. */
  function RotationSteps(mode: RotationMode, axes: seq<bool>, index: nat): seq<Step>
    requires |axes| == 4
    decreases 4 - index
  {
    if index >= 4 then [] else RotationStepAt(mode, axes, index) + RotationSteps(mode, axes, index + 1)
  }

  /** One pass of that loop: nothing for w in Euler mode or for a
    * disabled axis. */
  function RotationStepAt(mode: RotationMode, axes: seq<bool>, index: nat): seq<Step>
    requires |axes| == 4 && index < 4
  {
    var shift := if mode == Euler then 1 else 0;
    if ((mode != Euler && index == 0) || index > 0) && axes[index]
    then [Step(index, index - shift, RotationPath(mode), index - shift)] else []
  }

  /** Four enabled components. */
  function FourOn(): (r: seq<bool>)
    ensures |r| == 4 && forall k :: 0 <= k < 4 ==> r[k]
  {
    seq(4, _ => true)
  }

  function RotationAxes(mode: RotationMode, w: bool, x: bool, y: bool, z: bool): seq<bool>
  {
    if mode == Euler then [w, x, y, z] else FourOn()
  }

  function RotationPlan(mode: RotationMode, w: bool, x: bool, y: bool, z: bool): seq<Step>
  {
    RotationSteps(mode, RotationAxes(mode, w, x, y, z), 0)
  }

  /** The loop of the rotation node's `deleteDriver`, written separately
    * in the source. */
  function RotationRemovalSteps(mode: RotationMode, axes: seq<bool>, driven: Driven, index: nat): seq<(string, int)>
    requires |axes| == 4
    decreases 4 - index
  {
    if index >= 4 then [] else RotationRemovalAt(mode, axes, driven, index) + RotationRemovalSteps(mode, axes, driven, index + 1)
  }

  function RotationRemovalAt(mode: RotationMode, axes: seq<bool>, driven: Driven, index: nat): seq<(string, int)>
    requires |axes| == 4 && index < 4
  {
    var shift := if mode == Euler then 1 else 0;
    if ((mode != Euler && index == 0) || index > 0) && axes[index]
    then [(DriverPath(driven, RotationPath(mode)), index - shift)] else []
  }

  function RotationRemovals(mode: RotationMode, w: bool, x: bool, y: bool, z: bool, driven: Driven): seq<(string, int)>
  {
    RotationRemovalSteps(mode, RotationAxes(mode, w, x, y, z), driven, 0)
  }

  lemma RemovalsAppend(driven: Driven, a: seq<Step>, b: seq<Step>)
    ensures Removals(driven, a + b) == Removals(driven, a) + Removals(driven, b)
  {
  }

  lemma {:induction false} RotationRemovalsMatch(mode: RotationMode, axes: seq<bool>, driven: Driven, index: nat)
    requires |axes| == 4
    ensures RotationRemovalSteps(mode, axes, driven, index) == Removals(driven, RotationSteps(mode, axes, index))
    decreases 4 - index
  {
    if index < 4 {
      RotationRemovalsMatch(mode, axes, driven, index + 1);
      RemovalsAppend(driven, RotationStepAt(mode, axes, index), RotationSteps(mode, axes, index + 1));
      assert RotationRemovalAt(mode, axes, driven, index) == Removals(driven, RotationStepAt(mode, axes, index));
    }
  }

  /** `deleteDriver` removes exactly the drivers `createDriver` adds. */
  lemma RotationDeleteMatchesCreate(mode: RotationMode, w: bool, x: bool, y: bool, z: bool, driven: Driven)
    ensures RotationRemovals(mode, w, x, y, z, driven) == Removals(driven, RotationPlan(mode, w, x, y, z))
  {
    RotationRemovalsMatch(mode, RotationAxes(mode, w, x, y, z), driven, 0);
  }

  lemma AxisPlan3(a: bool, b: bool, c: bool, slotBase: nat, path: string)
    ensures AxisPlan([a, b, c], slotBase, path) ==
            (if a then [Step(slotBase, 0, path, 0)] else []) + (if b then [Step(slotBase + 1, 1, path, 1)] else []) +
            (if c then [Step(slotBase + 2, 2, path, 2)] else [])
  {
    assert [a, b, c][..2] == [a, b];
    assert [a, b][..1] == [a];
    assert [a][..0] == [];
    var p0 := AxisPlan([], slotBase, path);
    assert p0 == [];
    var p1 := AxisPlan([a], slotBase, path);
    assert p1 == p0 + (if [a][0] then [Step(slotBase, 0, path, 0)] else []);
    var p2 := AxisPlan([a, b], slotBase, path);
    assert p1 == [] + (if a then [Step(slotBase, 0, path, 0)] else []);
    assert p2 == p1 + (if b then [Step(slotBase + 1, 1, path, 1)] else []);
    assert AxisPlan([a, b, c], slotBase, path) == p2 + (if c then [Step(slotBase + 2, 2, path, 2)] else []);
  }

  /** In Euler mode w is ignored and x, y, z drive components 0, 1, 2
    * recorded in slots 1, 2, 3; in the other modes components 0..3 are
    * driven and recorded in slots 0..3. */
  lemma RotationPlanShape(mode: RotationMode, w: bool, x: bool, y: bool, z: bool)
    ensures mode == Euler ==> RotationPlan(mode, w, x, y, z) == AxisPlan([x, y, z], 1, RotationPath(mode))
    ensures mode != Euler ==> RotationPlan(mode, w, x, y, z) == AxisPlan(FourOn(), 0, RotationPath(mode))
  {
    if mode == Euler {
      EulerPlanShape(w, x, y, z);
    } else {
      FourPlanShape(mode);
    }
  }

  lemma EulerPlanShape(w: bool, x: bool, y: bool, z: bool)
    ensures RotationPlan(Euler, w, x, y, z) == AxisPlan([x, y, z], 1, "rotation_euler")
  {
    var p := RotationPath(Euler);
    var a := RotationAxes(Euler, w, x, y, z);
    var s3 := RotationSteps(Euler, a, 3);
    var s2 := RotationSteps(Euler, a, 2);
    var s1 := RotationSteps(Euler, a, 1);
    assert RotationSteps(Euler, a, 4) == [];
    assert s3 == (if z then [Step(3, 2, p, 2)] else []) + [];
    assert s2 == (if y then [Step(2, 1, p, 1)] else []) + s3;
    assert s1 == (if x then [Step(1, 0, p, 0)] else []) + s2;
    assert RotationSteps(Euler, a, 0) == [] + s1;
    AxisPlan3(x, y, z, 1, p);
  }

  /** The plan of the four driven components, written out. */
  lemma FourPlanShape(mode: RotationMode)
    requires mode != Euler
    ensures RotationPlan(mode, true, true, true, true) == AxisPlan(FourOn(), 0, RotationPath(mode))
    ensures forall w, x, y, z :: RotationPlan(mode, w, x, y, z) == RotationPlan(mode, true, true, true, true)
    ensures RotationPlan(mode, true, true, true, true) ==
      [Step(0, 0, RotationPath(mode), 0), Step(1, 1, RotationPath(mode), 1),
       Step(2, 2, RotationPath(mode), 2), Step(3, 3, RotationPath(mode), 3)]
  {
    var p := RotationPath(mode);
    var a := FourOn();
    assert RotationAxes(mode, true, true, true, true) == a;
    var s3 := RotationSteps(mode, a, 3);
    var s2 := RotationSteps(mode, a, 2);
    var s1 := RotationSteps(mode, a, 1);
    assert RotationSteps(mode, a, 4) == [];
    assert s3 == [Step(3, 3, p, 3)] + [];
    assert s2 == [Step(2, 2, p, 2)] + s3;
    assert s1 == [Step(1, 1, p, 1)] + s2;
    assert RotationSteps(mode, a, 0) == [Step(0, 0, p, 0)] + s1;
    AxisPlan3(true, true, true, 0, p);
    assert a[..3] == [true, true, true];
  }

  /** The components a rotation node drives, in order. */
  lemma RotationOutputs(mode: RotationMode, w: bool, x: bool, y: bool, z: bool)
    ensures Outputs(RotationPlan(mode, w, x, y, z)) ==
      if mode == Euler then (if x then [0] else []) + (if y then [1] else []) + (if z then [2] else [])
      else [0, 1, 2, 3]
  {
    var p := RotationPath(mode);
    if mode == Euler {
      EulerPlanShape(w, x, y, z);
      AxisPlan3(x, y, z, 1, p);
      var a, b, c := (if x then [Step(1, 0, p, 0)] else []), (if y then [Step(2, 1, p, 1)] else []),
                     (if z then [Step(3, 2, p, 2)] else []);
      OutputsAppend(a + b, c);
      OutputsAppend(a, b);
      assert Outputs(a) == if x then [0] else [];
      assert Outputs(b) == if y then [1] else [];
      assert Outputs(c) == if z then [2] else [];
    } else {
      FourPlanShape(mode);
    }
  }

  lemma OutputsAppend(a: seq<Step>, b: seq<Step>)
    ensures Outputs(a + b) == Outputs(a) + Outputs(b)
  {
  }

  /** `getOutputProperties` of the rotation node. */
  function RotationOutputProperties(mode: RotationMode, x: bool, y: bool, z: bool): (r: seq<nat>)
    ensures forall w :: r == Outputs(RotationPlan(mode, w, x, y, z))
  {
    forall w ensures Outputs(RotationPlan(mode, w, x, y, z)) == (if mode == Euler then
        (if x then [0] else []) + (if y then [1] else []) + (if z then [2] else []) else [0, 1, 2, 3]) {
      RotationOutputs(mode, w, x, y, z);
    }
    if mode == Euler then
      (if x then [0] else []) + (if y then [1] else []) + (if z then [2] else [])
    else [0, 1, 2, 3]
  }

  /** The first part of the rotation node's `createDriver`: clear the four
    * slots and delete the existing drivers when the RBF node is active. */
  method ClearRotationDriver(node: OutputNode, block: DriverBlock, driven: Driven, mode: RotationMode,
                             w: bool, x: bool, y: bool, z: bool, rbfActive: bool)
    modifies node`driverIndex, block`drivers
    ensures node.driverIndex == [-1, -1, -1, -1]
    ensures block.drivers == if rbfActive then RemoveAll(old(block.drivers), RotationRemovals(mode, w, x, y, z, driven))
                             else old(block.drivers)
  {
    node.driverIndex := [-1, -1, -1, -1];
    if rbfActive {
      DeleteRotationDriver(node, block, driven, mode, w, x, y, z);
    }
  }

  /** The rotation node's `deleteDriver`. */
  method DeleteRotationDriver(node: OutputNode, block: DriverBlock, driven: Driven, mode: RotationMode, w: bool, x: bool, y: bool, z: bool)
    modifies node`driverIndex, block`drivers
    ensures block.drivers == RemoveAll(old(block.drivers), RotationRemovals(mode, w, x, y, z, driven))
    ensures node.driverIndex == [-1, -1, -1, -1]
  {
    DeleteDrivers(node, block, RotationRemovals(mode, w, x, y, z, driven), false);
    node.driverIndex := [-1, -1, -1, -1];
  }

  /** Euler drivers on cleared slots: slot 0 (w) stays empty, x, y, z
    * drive components 0, 1, 2 from slots 1, 2, 3. */
  method CreateEulerDrivers(node: OutputNode, block: DriverBlock, driven: Driven, x: bool, y: bool, z: bool)
    requires node.driverIndex == [-1, -1, -1, -1]
    modifies node`driverIndex, node`isDriver, block`drivers
    ensures |node.driverIndex| == 4 && node.driverIndex[0] == -1
    ensures x ==> Created(node.driverIndex, block.drivers, driven, node.name, Step(1, 0, "rotation_euler", 0))
    ensures y ==> Created(node.driverIndex, block.drivers, driven, node.name, Step(2, 1, "rotation_euler", 1))
    ensures z ==> Created(node.driverIndex, block.drivers, driven, node.name, Step(3, 2, "rotation_euler", 2))
    ensures !x ==> node.driverIndex[1] == -1
    ensures !y ==> node.driverIndex[2] == -1
    ensures !z ==> node.driverIndex[3] == -1
    ensures block.drivers == AddAll(old(block.drivers), driven, node.name, AxisPlan([x, y, z], 1, "rotation_euler"))
    ensures node.isDriver == (old(node.isDriver) || x || y || z)
  {
    assert true in [x, y, z] <==> x || y || z;
    CreateAxisDrivers(node, block, driven, [x, y, z], 1, "rotation_euler");
    assert [x, y, z][0] == x && [x, y, z][1] == y && [x, y, z][2] == z;
  }

  /** Quaternion or axis-angle drivers on cleared slots: slot k drives
    * component k. */
  method CreateFourDrivers(node: OutputNode, block: DriverBlock, driven: Driven, path: string)
    requires node.driverIndex == [-1, -1, -1, -1]
    modifies node`driverIndex, node`isDriver, block`drivers
    ensures |node.driverIndex| == 4
    ensures forall k :: 0 <= k < 4 ==> Created(node.driverIndex, block.drivers, driven, node.name, Step(k, k, path, k))
    ensures block.drivers == AddAll(old(block.drivers), driven, node.name, AxisPlan(FourOn(), 0, path))
    ensures node.isDriver
  {
    var all := FourOn();
    assert true in all by {
      assert all[0];
    }
    CreateAxisDrivers(node, block, driven, all, 0, path);
    forall k | 0 <= k < 4
      ensures Created(node.driverIndex, block.drivers, driven, node.name, Step(k, k, path, k))
    {
      assert all[k];
    }
  }

  /** The rotation node's `createDriver`. */
  method CreateRotationDriver(node: OutputNode, block: DriverBlock, driven: Driven, mode: RotationMode,
                              w: bool, x: bool, y: bool, z: bool, rbfActive: bool)
    modifies node`driverIndex, node`isDriver, block`drivers
    ensures |node.driverIndex| == 4
    ensures mode == Euler ==> node.driverIndex[0] == -1
    ensures mode == Euler && x ==> Created(node.driverIndex, block.drivers, driven, node.name, Step(1, 0, "rotation_euler", 0))
    ensures mode == Euler && y ==> Created(node.driverIndex, block.drivers, driven, node.name, Step(2, 1, "rotation_euler", 1))
    ensures mode == Euler && z ==> Created(node.driverIndex, block.drivers, driven, node.name, Step(3, 2, "rotation_euler", 2))
    ensures mode == Euler && !x ==> node.driverIndex[1] == -1
    ensures mode == Euler && !y ==> node.driverIndex[2] == -1
    ensures mode == Euler && !z ==> node.driverIndex[3] == -1
    ensures mode != Euler ==> forall k :: 0 <= k < 4 ==>
              Created(node.driverIndex, block.drivers, driven, node.name, Step(k, k, RotationPath(mode), k))
    ensures block.drivers == AddAll(if rbfActive then RemoveAll(old(block.drivers), RotationRemovals(mode, w, x, y, z, driven))
                                    else old(block.drivers), driven, node.name, RotationPlan(mode, w, x, y, z))
    ensures node.isDriver == (old(node.isDriver) || mode != Euler || x || y || z)
  {
    ClearRotationDriver(node, block, driven, mode, w, x, y, z, rbfActive);
    RotationPlanShape(mode, w, x, y, z);
    if mode == Euler {
      CreateEulerDrivers(node, block, driven, x, y, z);
    } else {
      CreateFourDrivers(node, block, driven, RotationPath(mode));
    }
  }

  // ------------------------------------------------------------------
  // Custom property and node output nodes
  // ------------------------------------------------------------------

  datatype PropertyMode = ListMode | ManualMode

  /** `getPropertyName` of the custom property node. */
  function GetPropertyName(mode: PropertyMode, propertyEnum: string, propertyName: string): (r: string)
    ensures r == "" || (mode == ListMode && r == propertyEnum) || (mode == ManualMode && r == propertyName)
    ensures r == "" <==> (mode == ListMode && (propertyEnum == "NONE" || propertyEnum == "")) || (mode == ManualMode && propertyName == "")
  {
    match mode
    case ListMode => if propertyEnum != "NONE" then propertyEnum else ""
    case ManualMode => if propertyName != "" then propertyName else ""
  }

  /** `getOutputProperties` of the custom property and node output nodes:
    * the slots among the first n that record a driver. */
  method OutputProperties(driverIndex: seq<int>, n: nat) returns (r: seq<nat>)
    requires n <= |driverIndex|
    ensures forall i: nat :: i in r <==> i < n && driverIndex[i] != -1
    ensures forall a, b :: 0 <= a < b < |r| ==> r[a] < r[b]
  {
    r := [];
    var i := 0;
    while i < n
      invariant 0 <= i <= n
      invariant forall j: nat :: j in r <==> j < i && driverIndex[j] != -1
      invariant forall a, b :: 0 <= a < b < |r| ==> r[a] < r[b]
      invariant forall a :: 0 <= a < |r| ==> r[a] < i
    {
      if driverIndex[i] != -1 {
        r := r + [i];
      }
      i := i + 1;
    }
  }

  /** The counter loop of `createDriver` of the custom property and node
    * output nodes, at step i with counters `index` and `drivenIndex`:
    * with several properties both counters advance together, with one
    * they stay at slot 0 and driven index -1. */
  function CountedSteps(paths: seq<string>, i: nat, index: nat, drivenIndex: int): seq<Step>
    decreases |paths| - i
  {
    if i >= |paths| then []
    else
      var more := |paths| > 1;
      [Step(index, index, paths[i], drivenIndex)] +
      CountedSteps(paths, i + 1, if more then index + 1 else index, if more then drivenIndex + 1 else drivenIndex)
  }

  function CountedPlan(paths: seq<string>): seq<Step>
  {
    CountedSteps(paths, 0, 0, if |paths| > 1 then 0 else -1)
  }

  lemma {:induction false} CountedStepsMany(paths: seq<string>, i: nat)
    requires |paths| > 1 && i <= |paths|
    ensures |CountedSteps(paths, i, i, i)| == |paths| - i
    ensures forall j :: 0 <= j < |paths| - i ==> CountedSteps(paths, i, i, i)[j] == Step(i + j, i + j, paths[i + j], i + j)
    decreases |paths| - i
  {
    if i < |paths| {
      CountedStepsMany(paths, i + 1);
    }
  }

  /** One property is driven with index -1 from output 0 into slot 0;
    * several use slot, output and driven index i for property i. */
  lemma CountedPlanShape(paths: seq<string>)
    ensures |paths| == 0 ==> CountedPlan(paths) == []
    ensures |paths| == 1 ==> CountedPlan(paths) == [Step(0, 0, paths[0], -1)]
    ensures |paths| > 1 ==> |CountedPlan(paths)| == |paths|
    ensures |paths| > 1 ==> forall i :: 0 <= i < |paths| ==> CountedPlan(paths)[i] == Step(i, i, paths[i], i)
    ensures DistinctSlots(CountedPlan(paths))
  {
    if |paths| == 1 {
      assert CountedSteps(paths, 1, 0, -1) == [];
    } else if |paths| > 1 {
      CountedStepsMany(paths, 0);
      assert forall j :: 0 <= j < |paths| ==> CountedPlan(paths)[j].slot == j;
    }
  }

  /** The driven-index sequence of `deleteDriver` of the custom property
    * and node output nodes, written separately in the source. */
  function CountedRemovalSteps(driven: Driven, paths: seq<string>, i: nat, drivenIndex: int): seq<(string, int)>
    decreases |paths| - i
  {
    if i >= |paths| then []
    else [(DriverPath(driven, paths[i]), drivenIndex)] + CountedRemovalSteps(driven, paths, i + 1, if |paths| > 1 then drivenIndex + 1 else drivenIndex)
  }

  function CountedRemovals(driven: Driven, paths: seq<string>): seq<(string, int)>
  {
    CountedRemovalSteps(driven, paths, 0, if |paths| > 1 then 0 else -1)
  }

  lemma {:induction false} CountedRemovalsMatch(driven: Driven, paths: seq<string>, i: nat, index: nat, drivenIndex: int)
    ensures CountedRemovalSteps(driven, paths, i, drivenIndex) == Removals(driven, CountedSteps(paths, i, index, drivenIndex))
    decreases |paths| - i
  {
    if i < |paths| {
      var more := |paths| > 1;
      CountedRemovalsMatch(driven, paths, i + 1, if more then index + 1 else index, if more then drivenIndex + 1 else drivenIndex);
      RemovalsAppend(driven, [Step(index, index, paths[i], drivenIndex)],
                     CountedSteps(paths, i + 1, if more then index + 1 else index, if more then drivenIndex + 1 else drivenIndex));
    }
  }

  /** `deleteDriver` walks the same driven indices as `createDriver`. */
  lemma CountedDeleteMatchesCreate(driven: Driven, paths: seq<string>)
    ensures CountedRemovals(driven, paths) == Removals(driven, CountedPlan(paths))
  {
    CountedRemovalsMatch(driven, paths, 0, 0, if |paths| > 1 then 0 else -1);
  }

  /** The counter loop on cleared slots. A property beyond the node's
    * slots is the IndexError of the slot assignment. */
  method CreateCountedDrivers(node: OutputNode, block: DriverBlock, driven: Driven, paths: seq<string>) returns (ok: bool)
    requires |node.driverIndex| > 0 && forall k :: 0 <= k < |node.driverIndex| ==> node.driverIndex[k] == -1
    modifies node`driverIndex, node`isDriver, block`drivers
    ensures |node.driverIndex| == |old(node.driverIndex)|
    ensures ok <==> |paths| <= |node.driverIndex|
    ensures ok && |paths| == 1 ==> Created(node.driverIndex, block.drivers, driven, node.name, Step(0, 0, paths[0], -1))
    ensures ok && |paths| > 1 ==> forall i :: 0 <= i < |paths| ==>
              Created(node.driverIndex, block.drivers, driven, node.name, Step(i, i, paths[i], i))
    ensures ok ==> forall s :: |paths| <= s < |node.driverIndex| ==> node.driverIndex[s] == -1
    ensures ok ==> block.drivers == AddAll(old(block.drivers), driven, node.name, CountedPlan(paths))
    ensures ok ==> node.isDriver == (old(node.isDriver) || |paths| > 0)
  {
    var plan := CountedPlan(paths);
    CountedPlanShape(paths);
    assert |plan| == |paths|;
    assert forall j :: 0 <= j < |plan| ==> plan[j].slot == j;
    ok := CreateDrivers(node, block, driven, plan);
    if ok {
      SlotsOfMembers(plan);
      forall s | |paths| <= s < |node.driverIndex|
        ensures node.driverIndex[s] == -1
      {
        assert s !in SlotsOf(plan);
      }
      if |paths| > 1 {
        forall i | 0 <= i < |paths|
          ensures Created(node.driverIndex, block.drivers, driven, node.name, Step(i, i, paths[i], i))
        {
          assert plan[i] == Step(i, i, paths[i], i);
        }
      }
    } else {
      assert plan[|paths| - 1].slot == |paths| - 1;
    }
  }

  /** The driven path of the custom property node: `["<name>"]`. */
  function PropString(name: string): string
  {
    "[\"" + name + "\"]"
  }

  function CustomPaths(size: nat, name: string): (r: seq<string>)
    ensures |r| == size && forall i :: 0 <= i < size ==> r[i] == PropString(name)
  {
    seq(size, _ => PropString(name))
  }

  /** The custom property node's `deleteDriver`: remove the drivers of the
    * property's `size` values from the driven object or pose bone (a pose
    * bone's drivers live on its armature under the bone-prefixed path),
    * then clear the three slots. */
  method DeleteCustomDriver(node: OutputNode, block: DriverBlock, driven: Driven, size: nat, name: string)
    modifies node`driverIndex, block`drivers
    ensures block.drivers == RemoveAll(old(block.drivers), Removals(driven, CountedPlan(CustomPaths(size, name))))
    ensures node.driverIndex == [-1, -1, -1]
  {
    CountedDeleteMatchesCreate(driven, CustomPaths(size, name));
    DeleteDrivers(node, block, CountedRemovals(driven, CustomPaths(size, name)), false);
    node.driverIndex := [-1, -1, -1];
  }

  /** The first part of the custom property node's `createDriver`: clear
    * the slots and delete the existing drivers when the RBF node is
    * active. */
  method ClearCustomDriver(node: OutputNode, block: DriverBlock, driven: Driven, size: nat, name: string, rbfActive: bool)
    modifies node`driverIndex, block`drivers
    ensures node.driverIndex == [-1, -1, -1]
    ensures block.drivers == if rbfActive then RemoveAll(old(block.drivers), Removals(driven, CountedPlan(CustomPaths(size, name))))
                             else old(block.drivers)
  {
    node.driverIndex := [-1, -1, -1];
    if rbfActive {
      DeleteCustomDriver(node, block, driven, size, name);
    }
  }

  /** The custom property node's `createDriver`, for a property with
    * `size` values on an object, whose drivers are found under the plain
    * property path, or on a pose bone, whose drivers are found under the
    * bone-prefixed path. More than three values fail on the fourth slot. */
  method CreateCustomDriver(node: OutputNode, block: DriverBlock, driven: Driven, size: nat, name: string, rbfActive: bool)
    returns (ok: bool)
    modifies node`driverIndex, node`isDriver, block`drivers
    ensures |node.driverIndex| == 3
    ensures ok <==> size <= 3
    ensures ok && size == 1 ==> Created(node.driverIndex, block.drivers, driven, node.name, Step(0, 0, PropString(name), -1))
    ensures ok && size > 1 ==> forall i :: 0 <= i < size ==>
              Created(node.driverIndex, block.drivers, driven, node.name, Step(i, i, PropString(name), i))
    ensures ok ==> forall s :: size <= s < 3 ==> node.driverIndex[s] == -1
    ensures ok ==> block.drivers == AddAll(if rbfActive then RemoveAll(old(block.drivers), Removals(driven, CountedPlan(CustomPaths(size, name))))
                                           else old(block.drivers), driven, node.name, CountedPlan(CustomPaths(size, name)))
    ensures ok ==> node.isDriver == (old(node.isDriver) || size > 0)
  {
    ClearCustomDriver(node, block, driven, size, name, rbfActive);
    var paths := CustomPaths(size, name);
    ok := CreateCountedDrivers(node, block, driven, paths);
    if ok && size > 1 {
      forall i | 0 <= i < size
        ensures Created(node.driverIndex, block.drivers, driven, node.name, Step(i, i, PropString(name), i))
      {
        assert paths[i] == PropString(name);
      }
    }
  }

  /** The parts `_buildDriverItems` takes from a node property string
    * `<node path>:<socket>.<property>`: the node path, the socket, the
    * socket's property, and the property path below the node tree. */
  datatype DriverItems = DriverItems(nodePath: string, socket: string, propString: string, propStringLong: string)

  function Last(parts: seq<string>): string
    requires |parts| > 0
  {
    parts[|parts| - 1]
  }

  /** The path of a node property below its node tree: for a material,
    * the node path after `node_tree.`; for a node group, `nodes` and the
    * node path after `.nodes`; followed by "." and the plug. */
  function LongPath(nodePath: string, plug: string): string
  {
    if StartsWith(nodePath, "bpy.data.materials")
    then Last(Split(nodePath, "node_tree.")) + "." + plug
    else "nodes" + Last(Split(nodePath, ".nodes")) + "." + plug
  }

  /** `_buildDriverItems`; nothing when the string has no ":" or its plug
    * has no ".", where the source raises IndexError. */
  function BuildDriverItems(prop: string): (r: Option<DriverItems>)
    ensures r.Some? <==> |Split(prop, ":")| >= 2 && |Split(Split(prop, ":")[1], ".")| >= 2
  {
    var items := Split(prop, ":");
    if |items| < 2 then None
    else
      var propItems := Split(items[1], ".");
      if |propItems| < 2 then None
      else Some(DriverItems(items[0], propItems[0], propItems[1], LongPath(items[0], items[1])))
  }

  /** A property string `<node>:<socket>.<prop>[.<more>]` is taken apart
    * into its node path, socket, second plug segment and long path. */
  lemma BuildDriverItemsParts(node: string, socket: string, prop: string, tail: string)
    requires ':' !in node && ':' !in socket + "." + prop + tail
    requires '.' !in socket && '.' !in prop && (tail == [] || tail[0] == '.')
    ensures var r := BuildDriverItems(node + ":" + socket + "." + prop + tail);
            r.Some? && r.value.nodePath == node && r.value.socket == socket && r.value.propString == prop &&
            r.value.propStringLong == LongPath(node, socket + "." + prop + tail)
  {
    var plug := socket + "." + prop + tail;
    WholeString(node, socket, prop, tail);
    SplitPair(node, plug, ":");
    PlugParts(socket, prop, tail);
    ItemsFromSplits(node + ":" + plug, node, plug);
  }

  lemma WholeString(node: string, socket: string, prop: string, tail: string)
    ensures node + ":" + socket + "." + prop + tail == node + ":" + (socket + "." + prop + tail)
  {
  }

  /** The plug splits at its first "." into the socket and the property. */
  lemma PlugParts(socket: string, prop: string, tail: string)
    requires '.' !in socket && '.' !in prop && (tail == [] || tail[0] == '.')
    ensures var parts := Split(socket + "." + prop + tail, ".");
      |parts| >= 2 && parts[0] == socket && parts[1] == prop
  {
    assert socket + "." + prop + tail == socket + "." + (prop + tail);
    SplitAfterPart(socket, ".", prop + tail);
    if tail == [] {
      assert prop + tail == prop;
      SplitPlain(prop, ".");
    } else {
      assert prop + tail == prop + "." + tail[1..];
      SplitAfterPart(prop, ".", tail[1..]);
    }
  }

  lemma ItemsFromSplits(s: string, node: string, plug: string)
    requires Split(s, ":") == [node, plug] && |Split(plug, ".")| >= 2
    ensures BuildDriverItems(s) == Some(DriverItems(node, Split(plug, ".")[0], Split(plug, ".")[1], LongPath(node, plug)))
  {
  }

  /** No occurrence of `sep` starts inside the first n characters of s. */
  predicate NoneBefore(s: string, sep: string, n: nat)
  {
    forall p :: 0 <= p < n ==> !HasAt(s, sep, p)
  }

  /** For a material, the long path is the node path after `node_tree.`. */
  lemma MaterialLongPath(base: string, nodes: string, plug: string)
    requires StartsWith(base, "bpy.data.materials")
    requires NoneBefore(base + "node_tree." + nodes, "node_tree.", |base|) && NoneBefore(nodes, "node_tree.", |nodes|)
    ensures LongPath(base + "node_tree." + nodes, plug) == nodes + "." + plug
  {
    var path := base + "node_tree." + nodes;
    assert StartsWith(path, "bpy.data.materials") by {
      assert path[..|"bpy.data.materials"|] == base[..|"bpy.data.materials"|];
    }
    SplitPrefix(base, "node_tree.", nodes);
    SplitWhole(nodes, "node_tree.");
  }

  /** For a node group, the long path is `nodes` followed by the node path
    * after `.nodes`. */
  lemma NodeGroupLongPath(base: string, nodes: string, plug: string)
    requires !StartsWith(base + ".nodes" + nodes, "bpy.data.materials")
    requires NoneBefore(base + ".nodes" + nodes, ".nodes", |base|) && NoneBefore(nodes, ".nodes", |nodes|)
    ensures LongPath(base + ".nodes" + nodes, plug) == "nodes" + nodes + "." + plug
  {
    SplitPrefix(base, ".nodes", nodes);
    SplitWhole(nodes, ".nodes");
  }

  /** The node output node's `deleteDriver`: remove the drivers of its
    * properties; unlike the other output nodes it leaves the slots as
    * they are. */
  method DeleteNodeOutputDriver(node: OutputNode, block: DriverBlock, longPaths: seq<string>)
    modifies node`driverIndex, block`drivers
    ensures block.drivers == RemoveAll(old(block.drivers), Removals(NodeTreeDriven, CountedPlan(longPaths)))
    ensures node.driverIndex == old(node.driverIndex)
  {
    CountedDeleteMatchesCreate(NodeTreeDriven, longPaths);
    DeleteDrivers(node, block, CountedRemovals(NodeTreeDriven, longPaths), false);
  }

  /** The long paths of the node output node's properties. */
  function LongPaths(props: seq<string>): (r: seq<string>)
    requires forall i :: 0 <= i < |props| ==> BuildDriverItems(props[i]).Some?
    ensures |r| == |props| && forall i :: 0 <= i < |props| ==> r[i] == BuildDriverItems(props[i]).value.propStringLong
  {
    seq(|props|, i requires 0 <= i < |props| => BuildDriverItems(props[i]).value.propStringLong)
  }

  /** The node output node's `createDriver`, for its property strings; all
    * properties live in the node tree whose drivers `block` holds. More
    * than four properties fail on the fifth slot. */
  method CreateNodeOutputDriver(node: OutputNode, block: DriverBlock, props: seq<string>, rbfActive: bool) returns (ok: bool)
    requires forall i :: 0 <= i < |props| ==> BuildDriverItems(props[i]).Some?
    modifies node`driverIndex, node`isDriver, block`drivers
    ensures |node.driverIndex| == 4
    ensures ok <==> |props| <= 4
    ensures ok && |props| == 1 ==>
              Created(node.driverIndex, block.drivers, NodeTreeDriven, node.name, Step(0, 0, LongPaths(props)[0], -1))
    ensures ok && |props| > 1 ==> forall i :: 0 <= i < |props| ==>
              Created(node.driverIndex, block.drivers, NodeTreeDriven, node.name, Step(i, i, LongPaths(props)[i], i))
    ensures ok ==> forall s :: |props| <= s < 4 ==> node.driverIndex[s] == -1
    ensures ok ==> block.drivers == AddAll(if rbfActive then RemoveAll(old(block.drivers), Removals(NodeTreeDriven, CountedPlan(LongPaths(props))))
                                           else old(block.drivers), NodeTreeDriven, node.name, CountedPlan(LongPaths(props)))
    ensures ok ==> node.isDriver == (old(node.isDriver) || |props| > 0)
  {
    node.driverIndex := [-1, -1, -1, -1];
    var paths := LongPaths(props);
    if rbfActive {
      DeleteNodeOutputDriver(node, block, paths);
    }
    ok := CreateCountedDrivers(node, block, NodeTreeDriven, paths);
  }
}
