// Queries and edits on the RBF node tree (RBFNodes/core/nodeTree.py):
// finding the solver node, the sorted pose nodes, the placement of new
// nodes, the driven output nodes and the editable flags.

module RbfNodeTree {
  import opened Wrappers
  import opened RbfPlugs

  const SolverId := "RBFSolverNode"
  const PoseId := "RBFPoseNode"
  const NodeInputId := "RBFNodeInputNode"
  const NodeOutputId := "RBFNodeOutputNode"

  predicate IsSolver(g: Graph, n: nat)
  {
    n < |g.nodes| && g.nodes[n].idName == SolverId
  }

  /** `getRBFFromTree`: the solver nodes of the tree, in tree order. */
  method GetRBFFromTree(g: Graph) returns (r: seq<nat>)
    ensures forall k :: 0 <= k < |r| ==> IsSolver(g, r[k])
    ensures forall n :: 0 <= n < |g.nodes| && IsSolver(g, n) ==> n in r
    ensures forall a, b :: 0 <= a < b < |r| ==> r[a] < r[b]
  {
    r := [];
    var i := 0;
    while i < |g.nodes|
      invariant 0 <= i <= |g.nodes|
      invariant forall k :: 0 <= k < |r| ==> IsSolver(g, r[k]) && r[k] < i
      invariant forall n :: 0 <= n < i && IsSolver(g, n) ==> n in r
      invariant forall a, b :: 0 <= a < b < |r| ==> r[a] < r[b]
    {
      if g.nodes[i].idName == SolverId {
        r := r + [i];
      }
      i := i + 1;
    }
  }

  /** The nodes of type `nodeId` reached from the sockets of node `n`,
    * through nodes of other types (the `allNodes` search). */
  function Neighbourhood(g: Graph, n: nat, nodeId: string, fuel: nat): (r: seq<nat>)
    requires ValidGraph(g) && n < |g.nodes|
    ensures AllFound(g, r, nodeId)
  {
    FromPlugs(g, Upstream, g.nodes[n].inputs, nodeId, true, fuel) +
    FromPlugs(g, Downstream, g.nodes[n].outputs, nodeId, true, fuel)
  }

  /** `findConnectedNode(context, nodeId)`: nothing without an active
    * node; the active node itself when it has type `nodeId`; otherwise
    * the solver nodes (whatever `nodeId` is) found from all its inputs
    * and then all its outputs, or nothing when there are none. */
  method FindConnectedNode(g: Graph, active: Option<nat>, nodeId: string, fuel: nat) returns (r: Option<seq<nat>>)
    requires ValidGraph(g) && (active.Some? ==> active.value < |g.nodes|)
    ensures active.None? ==> r.None?
    ensures active.Some? && g.nodes[active.value].idName == nodeId ==> r == Some([active.value])
    ensures active.Some? && g.nodes[active.value].idName != nodeId ==>
      r == (if |Neighbourhood(g, active.value, SolverId, fuel)| > 0 then Some(Neighbourhood(g, active.value, SolverId, fuel)) else None)
    ensures r.Some? && (active.Some? && g.nodes[active.value].idName != nodeId) ==> forall k :: 0 <= k < |r.value| ==> IsSolver(g, r.value[k])
    ensures r.Some? ==> |r.value| > 0
  {
    if active.None? {
      return None;
    }
    var node := active.value;
    if g.nodes[node].idName == nodeId {
      return Some([node]);
    }
    var nodes: seq<nat> := [];
    var inputs := g.nodes[node].inputs;
    var i := 0;
    while i < |inputs|
      invariant 0 <= i <= |inputs|
      invariant nodes + FromPlugs(g, Upstream, inputs[i..], SolverId, true, fuel) == FromPlugs(g, Upstream, inputs, SolverId, true, fuel)
    {
      assert inputs[i..][1..] == inputs[i + 1..];
      nodes := nodes + GetInputNodes(g, inputs[i], SolverId, true, fuel);
      i := i + 1;
    }
    assert inputs[|inputs|..] == [];
    var outputs := g.nodes[node].outputs;
    ghost var before := nodes;
    var j := 0;
    while j < |outputs|
      invariant 0 <= j <= |outputs|
      invariant nodes + FromPlugs(g, Downstream, outputs[j..], SolverId, true, fuel) == before + FromPlugs(g, Downstream, outputs, SolverId, true, fuel)
    {
      assert outputs[j..][1..] == outputs[j + 1..];
      nodes := nodes + GetOutputNodes(g, outputs[j], SolverId, true, fuel);
      j := j + 1;
    }
    assert outputs[|outputs|..] == [];
    assert FromPlugs(g, Downstream, [], SolverId, true, fuel) == [];
    assert FromPlugs(g, Upstream, [], SolverId, true, fuel) == [];
    assert before == FromPlugs(g, Upstream, inputs, SolverId, true, fuel);
    assert nodes == before + FromPlugs(g, Downstream, outputs, SolverId, true, fuel);
    if |nodes| > 0 {
      r := Some(nodes);
    } else {
      r := None;
    }
  }

  /** `getRBFNode(context)`: the first solver node connected to the active
    * node; failing that, the tree's solver node when there is exactly
    * one. */
  method GetRBFNode(g: Graph, active: Option<nat>, hasTree: bool, fuel: nat) returns (r: Option<nat>)
    requires ValidGraph(g) && (active.Some? ==> active.value < |g.nodes|)
    ensures r.Some? ==> IsSolver(g, r.value)
    ensures active.Some? && g.nodes[active.value].idName == SolverId ==> r == active
    ensures active.Some? && g.nodes[active.value].idName != SolverId && |Neighbourhood(g, active.value, SolverId, fuel)| > 0 ==>
      r == Some(Neighbourhood(g, active.value, SolverId, fuel)[0])
    ensures (active.None? || (g.nodes[active.value].idName != SolverId && |Neighbourhood(g, active.value, SolverId, fuel)| == 0)) ==>
      (r.Some? <==> hasTree && exists n :: IsSolver(g, n) && forall m :: IsSolver(g, m) ==> m == n)
  {
    var connected := FindConnectedNode(g, active, SolverId, fuel);
    if connected.Some? {
      return Some(connected.value[0]);
    }
    r := None;
    if hasTree {
      var nodes := GetRBFFromTree(g);
      if |nodes| == 1 {
        r := Some(nodes[0]);
        forall m | IsSolver(g, m)
          ensures m == nodes[0]
        {
          assert m in nodes;
        }
      } else if |nodes| == 0 {
        forall n | IsSolver(g, n)
          ensures n in nodes
        {
        }
      } else {
        forall n | IsSolver(g, n)
          ensures exists m :: IsSolver(g, m) && m != n
        {
          if n == nodes[0] {
            assert IsSolver(g, nodes[1]) && nodes[1] != n;
          } else {
            assert IsSolver(g, nodes[0]);
          }
        }
      }
    }
  }

  // ------------------------------------------------------------------
  // Pose nodes sorted by index.
  // ------------------------------------------------------------------

  predicate SortedByPoseIndex(g: Graph, s: seq<nat>)
  {
    forall a, b :: 0 <= a < b < |s| && s[a] < |g.nodes| && s[b] < |g.nodes| ==>
      g.nodes[s[a]].poseIndex <= g.nodes[s[b]].poseIndex
  }

  predicate InTree(g: Graph, s: seq<nat>)
  {
    forall k :: 0 <= k < |s| ==> s[k] < |g.nodes|
  }

  /** Inserts a node in front of the first node with a larger index. */
  function Insert(g: Graph, x: nat, s: seq<nat>): (r: seq<nat>)
    requires x < |g.nodes| && InTree(g, s)
    ensures multiset(r) == multiset(s) + multiset{x}
    ensures |r| == |s| + 1 && (r[0] == x || (|s| > 0 && r[0] == s[0]))
    ensures InTree(g, r)
  {
    if s == [] then [x]
    else if g.nodes[x].poseIndex <= g.nodes[s[0]].poseIndex then [x] + s
    else
      assert s == [s[0]] + s[1..];
      [s[0]] + Insert(g, x, s[1..])
  }

  /** Inserting into a sorted sequence keeps it sorted. */
  lemma {:induction false} InsertSorted(g: Graph, x: nat, s: seq<nat>)
    requires x < |g.nodes| && InTree(g, s) && SortedByPoseIndex(g, s)
    ensures SortedByPoseIndex(g, Insert(g, x, s))
  {
    if s != [] && g.nodes[x].poseIndex > g.nodes[s[0]].poseIndex {
      var rest := Insert(g, x, s[1..]);
      InsertSorted(g, x, s[1..]);
      var r := [s[0]] + rest;
      assert g.nodes[s[0]].poseIndex <= g.nodes[rest[0]].poseIndex;
      forall a, b | 0 <= a < b < |r|
        ensures g.nodes[r[a]].poseIndex <= g.nodes[r[b]].poseIndex
      {
        if a == 0 && b > 1 {
          assert r[b] == rest[b - 1];
        } else if a > 0 {
          assert r[a] == rest[a - 1] && r[b] == rest[b - 1];
        }
      }
    }
  }

  /** The sort of `getPoseNodes`, by ascending pose index. */
  function SortByPoseIndex(g: Graph, s: seq<nat>): (r: seq<nat>)
    requires InTree(g, s)
    ensures multiset(r) == multiset(s)
    ensures InTree(g, r) && SortedByPoseIndex(g, r)
  {
    if s == [] then []
    else
      assert s == [s[0]] + s[1..];
      var sorted := SortByPoseIndex(g, s[1..]);
      InsertSorted(g, s[0], sorted);
      Insert(g, s[0], sorted)
  }

  /** `getPoseNodes(rbfNode)`: the pose nodes on the third input of the
    * solver node, a permutation of them sorted by pose index. */
  function GetPoseNodes(g: Graph, rbf: nat, fuel: nat): (r: seq<nat>)
    requires ValidGraph(g) && rbf < |g.nodes| && |g.nodes[rbf].inputs| > 2
    ensures multiset(r) == multiset(GetInputNodes(g, g.nodes[rbf].inputs[2], PoseId, false, fuel))
    ensures SortedByPoseIndex(g, r)
    ensures forall k :: 0 <= k < |r| ==> Found(g, r[k], PoseId)
  {
    var nodes := GetInputNodes(g, g.nodes[rbf].inputs[2], PoseId, false, fuel);
    var r := SortByPoseIndex(g, nodes);
    assert forall k :: 0 <= k < |r| ==> r[k] in multiset(nodes);
    r
  }

  // ------------------------------------------------------------------
  // Placement of a new node.
  // ------------------------------------------------------------------

  datatype Location = Location(x: real, y: real)

  /** `sourceNodePosition`: nothing without a reference node; the first
    * node is offset from the reference node, later nodes from the last
    * one (with `useHeight`, by twice the vertical offset less the last
    * node's height); the horizontal offset points left for `left` and
    * right otherwise. */
  function SourceNodePosition(lastNode: Option<(Location, real)>, reference: Option<Location>,
                              offset1: Location, offset2: Location, useHeight: bool, left: bool): (r: Option<Location>)
    ensures reference.None? <==> r.None?
  {
    var side := if left then 1.0 else -1.0;
    if reference.None? then None
    else if lastNode.None? then
      Some(Location(reference.value.x + offset1.x * side, reference.value.y + offset1.y))
    else
      var (last, height) := lastNode.value;
      var oy := if useHeight then offset2.y * 2.0 - height else offset2.y;
      Some(Location(last.x + offset2.x * side, last.y + oy))
  }

  /** A node placed to the right is the mirror image, about the base
    * node, of one placed to the left, at the same height. */
  lemma PlacementMirrors(lastNode: Option<(Location, real)>, reference: Location,
                         offset1: Location, offset2: Location, useHeight: bool)
    ensures var l := SourceNodePosition(lastNode, Some(reference), offset1, offset2, useHeight, true).value;
      var r := SourceNodePosition(lastNode, Some(reference), offset1, offset2, useHeight, false).value;
      var base := if lastNode.None? then reference.x else lastNode.value.0.x;
      l.y == r.y && l.x - base == -(r.x - base)
  {
  }

  // ------------------------------------------------------------------
  // Driven output nodes.
  // ------------------------------------------------------------------

  /** A key of the `getRBFOutputNodes` dictionary: a driven object, or
    * the "NodeOutput" entry. */
  datatype OutKey = ObjectKey(name: string) | NodeOutputKey

  /** The property output nodes of object output node `n`: those found on
    * each of its output sockets in turn. */
  function PropertyOutputs(g: Graph, n: nat, fuel: nat): seq<nat>
    requires ValidGraph(g) && n < |g.nodes|
  {
    FromPlugs(g, Downstream, g.nodes[n].outputs, "", false, fuel)
  }

  predicate HasOutputs(g: Graph, rbf: nat)
  {
    rbf < |g.nodes| && |g.nodes[rbf].outputs| > 1
  }

  /** The object entries of the dictionary after visiting `objs` in
    * order: an object node with an object assigns its property output
    * nodes to that object's key. */
  function ObjectOutputsMap(g: Graph, objs: seq<nat>, fuel: nat): map<OutKey, seq<nat>>
    requires ValidGraph(g) && forall k :: 0 <= k < |objs| ==> objs[k] < |g.nodes|
  {
    if objs == [] then map[]
    else
      var m := ObjectOutputsMap(g, objs[..|objs| - 1], fuel);
      var last := objs[|objs| - 1];
      if g.nodes[last].obj.Some? then m[ObjectKey(g.nodes[last].obj.value) := PropertyOutputs(g, last, fuel)] else m
  }

  /** Node k is the last visited node with object `o`. */
  predicate LastWith(g: Graph, objs: seq<nat>, o: string, k: nat)
    requires forall k :: 0 <= k < |objs| ==> objs[k] < |g.nodes|
  {
    k < |objs| && g.nodes[objs[k]].obj == Some(o) &&
    forall k' :: k < k' < |objs| ==> g.nodes[objs[k']].obj != Some(o)
  }

  /** The dictionary has a key for each object of the visited nodes and
    * no other. */
  lemma {:induction false} ObjectOutputsMapKeys(g: Graph, objs: seq<nat>, fuel: nat)
    requires ValidGraph(g) && forall k :: 0 <= k < |objs| ==> objs[k] < |g.nodes|
    ensures NodeOutputKey !in ObjectOutputsMap(g, objs, fuel)
    ensures forall o :: ObjectKey(o) in ObjectOutputsMap(g, objs, fuel) <==>
      exists k :: 0 <= k < |objs| && g.nodes[objs[k]].obj == Some(o)
  {
    if objs != [] {
      var init := objs[..|objs| - 1];
      ObjectOutputsMapKeys(g, init, fuel);
      var m := ObjectOutputsMap(g, objs, fuel);
      forall o | ObjectKey(o) in m
        ensures exists k :: 0 <= k < |objs| && g.nodes[objs[k]].obj == Some(o)
      {
        if g.nodes[objs[|objs| - 1]].obj != Some(o) {
          var k :| 0 <= k < |init| && g.nodes[init[k]].obj == Some(o);
          assert objs[k] == init[k];
        }
      }
      forall o | exists k :: 0 <= k < |objs| && g.nodes[objs[k]].obj == Some(o)
        ensures ObjectKey(o) in m
      {
        var k :| 0 <= k < |objs| && g.nodes[objs[k]].obj == Some(o);
        if k < |init| {
          assert init[k] == objs[k];
        }
      }
    }
  }

  /** The entry of an object holds the property outputs of the LAST
    * visited node with that object. */
  lemma {:induction false} ObjectOutputsMapEntries(g: Graph, objs: seq<nat>, fuel: nat)
    requires ValidGraph(g) && forall k :: 0 <= k < |objs| ==> objs[k] < |g.nodes|
    ensures forall o :: ObjectKey(o) in ObjectOutputsMap(g, objs, fuel) ==>
      exists k: nat :: k < |objs| && LastWith(g, objs, o, k) &&
        ObjectOutputsMap(g, objs, fuel)[ObjectKey(o)] == PropertyOutputs(g, objs[k], fuel)
  {
    if objs != [] {
      var init := objs[..|objs| - 1];
      var last := objs[|objs| - 1];
      ObjectOutputsMapEntries(g, init, fuel);
      var m := ObjectOutputsMap(g, objs, fuel);
      forall o | ObjectKey(o) in m
        ensures exists k: nat :: k < |objs| && LastWith(g, objs, o, k) && m[ObjectKey(o)] == PropertyOutputs(g, objs[k], fuel)
      {
        if g.nodes[last].obj == Some(o) {
          assert LastWith(g, objs, o, |objs| - 1);
        } else {
          var k: nat :| k < |init| && LastWith(g, init, o, k) &&
            ObjectOutputsMap(g, init, fuel)[ObjectKey(o)] == PropertyOutputs(g, init[k], fuel);
          assert objs[k] == init[k];
          forall k' | k < k' < |objs|
            ensures g.nodes[objs[k']].obj != Some(o)
          {
            if k' < |init| {
              assert objs[k'] == init[k'];
            }
          }
          assert LastWith(g, objs, o, k);
        }
      }
    }
  }

  /** The loop over the output sockets of an object output node. */
  method PropertyOutputsOf(g: Graph, node: nat, fuel: nat) returns (outs: seq<nat>)
    requires ValidGraph(g) && node < |g.nodes|
    ensures outs == PropertyOutputs(g, node, fuel)
  {
    outs := [];
    var sockets := g.nodes[node].outputs;
    var j := 0;
    while j < |sockets|
      invariant 0 <= j <= |sockets|
      invariant outs + FromPlugs(g, Downstream, sockets[j..], "", false, fuel) == PropertyOutputs(g, node, fuel)
    {
      assert sockets[j..][1..] == sockets[j + 1..];
      outs := outs + GetOutputNodes(g, sockets[j], "", false, fuel);
      j := j + 1;
    }
    assert sockets[|sockets|..] == [];
  }

  /** The node output nodes that have properties. */
  method WithProperties(g: Graph, nodes: seq<nat>) returns (r: seq<nat>)
    requires forall k :: 0 <= k < |nodes| ==> nodes[k] < |g.nodes|
    ensures forall n :: n in r <==> n in nodes && g.nodes[n].hasProperties
    ensures |r| == 0 <==> forall k :: 0 <= k < |nodes| ==> !g.nodes[nodes[k]].hasProperties
  {
    r := [];
    var k := 0;
    while k < |nodes|
      invariant 0 <= k <= |nodes|
      invariant forall n :: n in r <==> n in nodes[..k] && g.nodes[n].hasProperties
      invariant |r| == 0 <==> forall k' :: 0 <= k' < k ==> !g.nodes[nodes[k']].hasProperties
    {
      if g.nodes[nodes[k]].hasProperties {
        assert nodes[k] in r + [nodes[k]];
        r := r + [nodes[k]];
      }
      assert nodes[..k + 1] == nodes[..k] + [nodes[k]];
      k := k + 1;
    }
    assert nodes[..|nodes|] == nodes;
  }

  /** The loop over the object output nodes. */
  method ObjectOutputs(g: Graph, objNodes: seq<nat>, fuel: nat) returns (r: map<OutKey, seq<nat>>)
    requires ValidGraph(g) && forall k :: 0 <= k < |objNodes| ==> objNodes[k] < |g.nodes|
    ensures r == ObjectOutputsMap(g, objNodes, fuel)
  {
    r := map[];
    var i := 0;
    while i < |objNodes|
      invariant 0 <= i <= |objNodes|
      invariant r == ObjectOutputsMap(g, objNodes[..i], fuel)
    {
      assert objNodes[..i + 1][..i] == objNodes[..i];
      var node := objNodes[i];
      if g.nodes[node].obj.Some? {
        var outs := PropertyOutputsOf(g, node, fuel);
        r := r[ObjectKey(g.nodes[node].obj.value) := outs];
      }
      i := i + 1;
    }
    assert objNodes[..|objNodes|] == objNodes;
  }

  /** `getRBFOutputNodes(rbfNode)`: the object entries of the object
    * output nodes on the first output (see `ObjectOutputsMapKeys` and
    * `ObjectOutputsMapEntries`);
    * and the "NodeOutput" entry, holding the node output nodes on the
    * second output that have properties, only when there are any. */
  method GetRBFOutputNodes(g: Graph, rbf: nat, fuel: nat) returns (r: map<OutKey, seq<nat>>)
    requires ValidGraph(g) && HasOutputs(g, rbf)
    ensures r - {NodeOutputKey} == ObjectOutputsMap(g, GetOutputNodes(g, g.nodes[rbf].outputs[0], ObjectOutputId, false, fuel), fuel)
    ensures var nodeOuts := GetOutputNodes(g, g.nodes[rbf].outputs[1], NodeOutputId, false, fuel);
      NodeOutputKey in r <==> exists k :: 0 <= k < |nodeOuts| && g.nodes[nodeOuts[k]].hasProperties
    ensures var nodeOuts := GetOutputNodes(g, g.nodes[rbf].outputs[1], NodeOutputId, false, fuel);
      NodeOutputKey in r ==> forall n :: n in r[NodeOutputKey] <==> n in nodeOuts && g.nodes[n].hasProperties
  {
    var objNodes := GetOutputNodes(g, g.nodes[rbf].outputs[0], ObjectOutputId, false, fuel);
    r := ObjectOutputs(g, objNodes, fuel);
    ObjectOutputsMapKeys(g, objNodes, fuel);
    var nodeOuts := GetOutputNodes(g, g.nodes[rbf].outputs[1], NodeOutputId, false, fuel);
    var withProps := WithProperties(g, nodeOuts);
    if |withProps| > 0 {
      r := r[NodeOutputKey := withProps];
    }
  }

  // ------------------------------------------------------------------
  // Editable flags.
  // ------------------------------------------------------------------

  /** The object and node input (output) nodes on the first two inputs
    * (outputs) of the solver node, in the order they are visited. */
  function EditTargets(g: Graph, rbf: nat, dir: Direction, fuel: nat): (r: seq<nat>)
    requires ValidGraph(g) && rbf < |g.nodes| && |Sockets(g, rbf, dir)| > 1
    ensures forall k :: 0 <= k < |r| ==> r[k] < |g.nodes|
  {
    var sockets := Sockets(g, rbf, dir);
    var objectId := if dir == Upstream then ObjectInputId else ObjectOutputId;
    var nodeId := if dir == Upstream then NodeInputId else NodeOutputId;
    Collect(g, dir, sockets[0], objectId, false, fuel) + Collect(g, dir, sockets[1], nodeId, false, fuel)
  }

  /** The property nodes of an object node: those on its sockets. */
  function PropertyNodes(g: Graph, n: nat, dir: Direction, fuel: nat): (r: seq<nat>)
    requires ValidGraph(g) && n < |g.nodes|
    ensures forall k :: 0 <= k < |r| ==> r[k] < |g.nodes|
  {
    FromPlugs(g, dir, Sockets(g, n, dir), "", false, fuel)
  }

  predicate IsObjectNode(g: Graph, n: nat, dir: Direction)
  {
    n < |g.nodes| && g.nodes[n].idName == (if dir == Upstream then ObjectInputId else ObjectOutputId)
  }

  /** A node whose flag `setInputNodesEditable` (Upstream) or
    * `setOutputNodesEditable` (Downstream) sets: a target, or a property
    * node of an object target. */
  ghost predicate Affected(g: Graph, rbf: nat, dir: Direction, fuel: nat, n: nat)
    requires ValidGraph(g) && rbf < |g.nodes| && |Sockets(g, rbf, dir)| > 1
  {
    var targets := EditTargets(g, rbf, dir, fuel);
    n in targets ||
    exists k :: 0 <= k < |targets| && IsObjectNode(g, targets[k], dir) && n in PropertyNodes(g, targets[k], dir, fuel)
  }

  /** Sets the flag of every node of `nodes`. */
  method SetAll(editable: array<bool>, nodes: seq<nat>, state: bool)
    requires forall k :: 0 <= k < |nodes| ==> nodes[k] < editable.Length
    modifies editable
    ensures forall n :: 0 <= n < editable.Length ==> editable[n] == if n in nodes then state else old(editable[n])
  {
    var i := 0;
    while i < |nodes|
      invariant 0 <= i <= |nodes|
      invariant forall n :: 0 <= n < editable.Length ==> editable[n] == if n in nodes[..i] then state else old(editable[n])
    {
      editable[nodes[i]] := state;
      i := i + 1;
    }
    assert nodes[..|nodes|] == nodes;
  }

  /** A node that the first `i` targets set: one of them, or a property
    * node of one that is an object node. */
  ghost predicate AffectedBy(g: Graph, targets: seq<nat>, i: nat, dir: Direction, fuel: nat, n: nat)
    requires ValidGraph(g) && i <= |targets|
    requires forall k :: 0 <= k < |targets| ==> targets[k] < |g.nodes|
  {
    n in targets[..i] ||
    exists k :: 0 <= k < i && IsObjectNode(g, targets[k], dir) && n in PropertyNodes(g, targets[k], dir, fuel)
  }

  /** The nodes one target sets. */
  ghost predicate SetByTarget(g: Graph, t: nat, dir: Direction, fuel: nat, n: nat)
    requires ValidGraph(g) && t < |g.nodes|
  {
    n == t || (IsObjectNode(g, t, dir) && n in PropertyNodes(g, t, dir, fuel))
  }

  lemma AffectedByNext(g: Graph, targets: seq<nat>, i: nat, dir: Direction, fuel: nat, n: nat)
    requires ValidGraph(g) && i < |targets|
    requires forall k :: 0 <= k < |targets| ==> targets[k] < |g.nodes|
    ensures AffectedBy(g, targets, i + 1, dir, fuel, n) <==>
      AffectedBy(g, targets, i, dir, fuel, n) || SetByTarget(g, targets[i], dir, fuel, n)
  {
    assert targets[..i + 1] == targets[..i] + [targets[i]];
  }

  /** Sets the flags of one target and of its property nodes. */
  method MarkTarget(g: Graph, t: nat, dir: Direction, state: bool, editable: array<bool>, fuel: nat)
    requires ValidGraph(g) && t < |g.nodes| && editable.Length == |g.nodes|
    modifies editable
    ensures forall n :: 0 <= n < editable.Length ==>
      editable[n] == if SetByTarget(g, t, dir, fuel, n) then state else old(editable[n])
  {
    editable[t] := state;
    if IsObjectNode(g, t, dir) {
      SetAll(editable, PropertyNodes(g, t, dir, fuel), state);
    }
  }

  /** `setInputNodesEditable` / `setOutputNodesEditable`: `state` on the
    * affected nodes, every other flag unchanged. */
  method SetNodesEditable(g: Graph, rbf: nat, dir: Direction, state: bool, editable: array<bool>, fuel: nat)
    requires ValidGraph(g) && rbf < |g.nodes| && |Sockets(g, rbf, dir)| > 1
    requires editable.Length == |g.nodes|
    modifies editable
    ensures forall n :: 0 <= n < editable.Length ==>
      editable[n] == if Affected(g, rbf, dir, fuel, n) then state else old(editable[n])
  {
    var targets := EditTargets(g, rbf, dir, fuel);
    var i := 0;
    while i < |targets|
      invariant 0 <= i <= |targets|
      invariant forall n :: 0 <= n < editable.Length ==>
        editable[n] == if AffectedBy(g, targets, i, dir, fuel, n) then state else old(editable[n])
    {
      MarkTarget(g, targets[i], dir, state, editable, fuel);
      forall n | 0 <= n < editable.Length
        ensures AffectedBy(g, targets, i + 1, dir, fuel, n) <==>
          AffectedBy(g, targets, i, dir, fuel, n) || SetByTarget(g, targets[i], dir, fuel, n)
      {
        AffectedByNext(g, targets, i, dir, fuel, n);
      }
      i := i + 1;
    }
    assert targets[..|targets|] == targets;
  }
}
