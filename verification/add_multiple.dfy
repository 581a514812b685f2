// Adding object nodes for the current selection to the RBF node tree
// (RBFNodes/core/add_multiple.py): which objects and bones are taken, where
// each new node is placed, and how it is linked to the active RBF node.

module RbfAddMultiple {
  import opened Wrappers

  datatype EditBone = EditBone(name: string, armature: string)
  /** A selected pose bone with the object it belongs to (`id_data`). */
  datatype PoseBone = PoseBone(name: string, owner: string)
  datatype SceneObject = SceneObject(name: string, data: string)

  /** An entry of `objects_to_process`: an object, and a bone name for
    * bones. */
  datatype Entry = Entry(obj: string, bone: Option<string>)

  /** `edit_bone__get_owner_object`: the first selected object whose data
    * is the bone's armature. */
  function EditBoneOwner(bone: EditBone, selected: seq<SceneObject>): (r: Option<string>)
    ensures r.None? <==> forall k :: 0 <= k < |selected| ==> selected[k].data != bone.armature
    ensures r.Some? ==> exists k :: 0 <= k < |selected| && selected[k].data == bone.armature && r.value == selected[k].name &&
                          forall j :: 0 <= j < k ==> selected[j].data != bone.armature
  {
    if selected == [] then None
    else if selected[0].data == bone.armature then Some(selected[0].name)
    else
      var r := EditBoneOwner(bone, selected[1..]);
      assert forall j :: 0 < j < |selected| ==> selected[j] == selected[1..][j - 1];
      r
  }

  /** The entries of the selected edit bones that have an owner, in
    * selection order. */
  function EditBoneEntries(bones: seq<EditBone>, selected: seq<SceneObject>): seq<Entry>
  {
    if bones == [] then []
    else
      var last := bones[|bones| - 1];
      var owner := EditBoneOwner(last, selected);
      EditBoneEntries(bones[..|bones| - 1], selected) + (if owner.Some? then [Entry(owner.value, Some(last.name))] else [])
  }

  /** Every edit-bone entry is a selected bone with its owner, and every
    * selected bone with an owner has its entry. */
  lemma {:induction false} EditBoneEntriesOwned(bones: seq<EditBone>, selected: seq<SceneObject>)
    ensures forall e :: e in EditBoneEntries(bones, selected) ==>
              e.bone.Some? && exists k :: 0 <= k < |bones| && bones[k].name == e.bone.value && EditBoneOwner(bones[k], selected) == Some(e.obj)
    ensures forall k :: 0 <= k < |bones| && EditBoneOwner(bones[k], selected).Some? ==>
              Entry(EditBoneOwner(bones[k], selected).value, Some(bones[k].name)) in EditBoneEntries(bones, selected)
    decreases |bones|
  {
    if bones != [] {
      var init := bones[..|bones| - 1];
      EditBoneEntriesOwned(init, selected);
      forall e | e in EditBoneEntries(bones, selected)
        ensures e.bone.Some? && exists k :: 0 <= k < |bones| && bones[k].name == e.bone.value && EditBoneOwner(bones[k], selected) == Some(e.obj)
      {
        if e in EditBoneEntries(init, selected) {
          var k :| 0 <= k < |init| && init[k].name == e.bone.value && EditBoneOwner(init[k], selected) == Some(e.obj);
          assert bones[k] == init[k];
        } else {
          assert bones[|bones| - 1].name == e.bone.value;
        }
      }
      forall k | 0 <= k < |bones| && EditBoneOwner(bones[k], selected).Some?
        ensures Entry(EditBoneOwner(bones[k], selected).value, Some(bones[k].name)) in EditBoneEntries(bones, selected)
      {
        if k < |init| {
          assert bones[k] == init[k];
        }
      }
    }
  }

  /** `get__objects_to_process_list__from_selected_objects`: selected edit
    * bones take priority over pose bones, which take priority over
    * objects. */
  method ObjectsToProcess(bones: seq<EditBone>, poseBones: seq<PoseBone>, objects: seq<SceneObject>) returns (r: seq<Entry>)
    ensures |bones| > 0 ==> r == EditBoneEntries(bones, objects)
    ensures |bones| == 0 && |poseBones| > 0 ==>
              |r| == |poseBones| && forall k :: 0 <= k < |r| ==> r[k] == Entry(poseBones[k].owner, Some(poseBones[k].name))
    ensures |bones| == 0 && |poseBones| == 0 ==>
              |r| == |objects| && forall k :: 0 <= k < |r| ==> r[k] == Entry(objects[k].name, None)
  {
    r := [];
    if |bones| > 0 {
      var i := 0;
      while i < |bones|
        invariant 0 <= i <= |bones|
        invariant r == EditBoneEntries(bones[..i], objects)
      {
        var owner := EditBoneOwner(bones[i], objects);
        assert bones[..i + 1][..i] == bones[..i];
        if owner.Some? {
          r := r + [Entry(owner.value, Some(bones[i].name))];
        }
        i := i + 1;
      }
      assert bones[..i] == bones;
    } else if |poseBones| > 0 {
      var i := 0;
      while i < |poseBones|
        invariant 0 <= i <= |poseBones| && |r| == i
        invariant forall k :: 0 <= k < i ==> r[k] == Entry(poseBones[k].owner, Some(poseBones[k].name))
      {
        r := r + [Entry(poseBones[i].owner, Some(poseBones[i].name))];
        i := i + 1;
      }
    } else {
      var i := 0;
      while i < |objects|
        invariant 0 <= i <= |objects| && |r| == i
        invariant forall k :: 0 <= k < i ==> r[k] == Entry(objects[k].name, None)
      {
        r := r + [Entry(objects[i].name, None)];
        i := i + 1;
      }
    }
  }

  // ------------------------------------------------------------------
  // Placement
  // ------------------------------------------------------------------

  /** A node's location and dimensions. */
  datatype Rect = Rect(x: real, y: real, width: real, height: real)

  /** `abs(NODE_OFFSET[0])` and `abs(NODE_OFFSET[1])`. */
  const OffsetX: real := 0.0
  const OffsetY: real := 60.0

  /** The connected node with the strictly smallest y, the first on ties. */
  predicate IsLowest(nodes: seq<Rect>, k: nat)
  {
    k < |nodes| && (forall j :: 0 <= j < |nodes| ==> nodes[k].y <= nodes[j].y) &&
    (forall j :: 0 <= j < k ==> nodes[j].y > nodes[k].y)
  }

  function LowestIndex(nodes: seq<Rect>): (k: Option<nat>)
    ensures k.None? <==> nodes == []
    ensures k.Some? ==> IsLowest(nodes, k.value)
  {
    if nodes == [] then None
    else
      var init := nodes[..|nodes| - 1];
      var last := |nodes| - 1;
      var k := LowestIndex(init);
      if k.Some? && init[k.value].y <= nodes[last].y then
        assert forall j :: 0 <= j < last ==> nodes[j] == init[j];
        k
      else
        assert forall j :: 0 <= j < last ==> nodes[j] == init[j];
        Some(last)
  }

  /** The scan of the connected nodes in `rbf_tree_place_new_node`. */
  method Lowest(nodes: seq<Rect>) returns (k: Option<nat>)
    ensures k.None? <==> nodes == []
    ensures k.Some? ==> IsLowest(nodes, k.value)
  {
    k := None;
    var i := 0;
    while i < |nodes|
      invariant 0 <= i <= |nodes|
      invariant k.None? <==> i == 0
      invariant k.Some? ==> IsLowest(nodes[..i], k.value)
    {
      if k.None? || nodes[i].y < nodes[k.value].y {
        k := Some(i);
      }
      i := i + 1;
    }
    assert nodes[..i] == nodes;
  }

  /** The location `rbf_tree_place_new_node` gives a new node of the given
    * width: below the lowest connected node on its side, or beside the
    * RBF node when that side has none. */
  function Placement(rbf: Rect, connected: seq<Rect>, isInput: bool, width: real): (real, real)
  {
    match LowestIndex(connected)
    case Some(k) => (connected[k].x, connected[k].y - connected[k].height - OffsetY)
    case None =>
      (if isInput then rbf.x - width - OffsetX else rbf.x + rbf.width + OffsetX, rbf.y)
  }

  /** With connected nodes of non-negative height the new node goes in
    * the column of the lowest one and below all of them; without, it goes
    * left of an input side or right of an output side, level with the
    * RBF node. */
  lemma PlacementSides(rbf: Rect, connected: seq<Rect>, isInput: bool, width: real)
    requires forall j :: 0 <= j < |connected| ==> connected[j].height >= 0.0
    ensures connected != [] ==> exists k: nat :: IsLowest(connected, k) && Placement(rbf, connected, isInput, width).0 == connected[k].x
    ensures forall j :: 0 <= j < |connected| ==> Placement(rbf, connected, isInput, width).1 < connected[j].y
    ensures connected == [] && isInput ==> Placement(rbf, connected, isInput, width) == (rbf.x - width, rbf.y)
    ensures connected == [] && !isInput ==> Placement(rbf, connected, isInput, width) == (rbf.x + rbf.width, rbf.y)
  {
    if connected != [] {
      var k := LowestIndex(connected).value;
      assert IsLowest(connected, k);
    }
  }

  /** A node being added; Blender creates it at the origin. */
  class NewNode {
    var x: real
    var y: real
    const width: real
    const height: real

    constructor (width: real, height: real)
      ensures x == 0.0 && y == 0.0 && this.width == width && this.height == height
    {
      x := 0.0;
      y := 0.0;
      this.width := width;
      this.height := height;
    }
  }

  /** `rbf_tree_place_new_node`: nothing moves without an RBF node. */
  method PlaceNewNode(node: NewNode, rbf: Option<Rect>, connected: seq<Rect>, isInput: bool)
    modifies node
    ensures rbf.None? ==> node.x == old(node.x) && node.y == old(node.y)
    ensures rbf.Some? ==> (node.x, node.y) == Placement(rbf.value, connected, isInput, node.width)
  {
    if rbf.Some? {
      var k := Lowest(connected);
      if k.Some? {
        var anchor := connected[k.value];
        node.y := anchor.y - anchor.height - OffsetY;
        node.x := anchor.x;
      } else {
        node.y := rbf.value.y;
        if isInput {
          node.x := rbf.value.x - node.width - OffsetX;
        } else {
          node.x := rbf.value.x + rbf.value.width + OffsetX;
        }
      }
      assert k == LowestIndex(connected) by {
        LowestUnique(connected, k, LowestIndex(connected));
      }
    }
  }

  lemma LowestUnique(nodes: seq<Rect>, a: Option<nat>, b: Option<nat>)
    requires a.None? <==> nodes == []
    requires b.None? <==> nodes == []
    requires a.Some? ==> IsLowest(nodes, a.value)
    requires b.Some? ==> IsLowest(nodes, b.value)
    ensures a == b
  {
    if a.Some? && b.Some? {
      var x, y := a.value, b.value;
      assert nodes[x].y == nodes[y].y;
      assert !(x < y);
      assert !(y < x);
    }
  }

  const InputNodeId := "RBFObjectInputNode"
  const OutputNodeId := "RBFObjectOutputNode"

  /** A node created by `create_and_link_nodes_from_objects_to_process_list`:
    * its type, object, bone, location and dimensions, and whether it was
    * linked to the active RBF node. */
  datatype Added = Added(idName: string, obj: string, bone: Option<string>, at: Rect, linked: bool)

  function Rects(nodes: seq<Added>): (r: seq<Rect>)
    ensures |r| == |nodes| && forall k :: 0 <= k < |nodes| ==> r[k] == nodes[k].at
  {
    seq(|nodes|, k requires 0 <= k < |nodes| => nodes[k].at)
  }

  /** The node made for an entry: type, object, bone (only for a
    * non-empty name), dimensions, and whether it is linked. */
  predicate Made(isInput: bool, e: Entry, size: (real, real), active: Option<Rect>, a: Added)
  {
    a.idName == (if isInput then InputNodeId else OutputNodeId) && a.obj == e.obj &&
    a.bone == (if e.bone.Some? && e.bone.value != "" then e.bone else None) &&
    a.linked == active.Some? && a.at.width == size.0 && a.at.height == size.1
  }

  /** Node j sits where the placement puts it among the connected nodes
    * and the nodes added and linked before it, or at the origin without
    * an active node. */
  predicate PlacedAt(isInput: bool, active: Option<Rect>, connected: seq<Rect>, sizes: seq<(real, real)>, added: seq<Added>, j: nat)
    requires j < |added| && j < |sizes|
  {
    if active.Some? then (added[j].at.x, added[j].at.y) == Placement(active.value, connected + Rects(added[..j]), isInput, sizes[j].0)
    else added[j].at.x == 0.0 && added[j].at.y == 0.0
  }

  /** One node of the loop, for entry i. */
  method AddOne(isInput: bool, e: Entry, size: (real, real), active: Option<Rect>, side: seq<Rect>) returns (a: Added)
    ensures Made(isInput, e, size, active, a)
    ensures active.Some? ==> (a.at.x, a.at.y) == Placement(active.value, side, isInput, size.0)
    ensures active.None? ==> a.at.x == 0.0 && a.at.y == 0.0
  {
    var node := new NewNode(size.0, size.1);
    var bone := if e.bone.Some? && e.bone.value != "" then e.bone else None;
    PlaceNewNode(node, active, side, isInput);
    a := Added(if isInput then InputNodeId else OutputNodeId, e.obj, bone, Rect(node.x, node.y, node.width, node.height), active.Some?);
  }

  /** `create_and_link_nodes_from_objects_to_process_list`: without a
    * tree nothing is created; otherwise one node per entry, in order. With
    * an active node each new node is linked to it on its side, so it
    * joins the nodes the next one is placed under. `sizes` holds the
    * dimensions Blender gives each new node after the redraw. */
  method CreateAndLink(isInput: bool, entries: seq<Entry>, treeExists: bool, active: Option<Rect>,
                       connected: seq<Rect>, sizes: seq<(real, real)>) returns (added: seq<Added>)
    requires |sizes| == |entries|
    ensures !treeExists ==> added == []
    ensures treeExists ==> |added| == |entries|
    ensures treeExists ==> forall i :: 0 <= i < |added| ==> Made(isInput, entries[i], sizes[i], active, added[i])
    ensures treeExists ==> forall i :: 0 <= i < |added| ==> PlacedAt(isInput, active, connected, sizes, added, i)
  {
    added := [];
    if !treeExists {
      return;
    }
    var side := connected;
    var i := 0;
    while i < |entries|
      invariant 0 <= i <= |entries| && |added| == i
      invariant active.Some? ==> side == connected + Rects(added)
      invariant forall j :: 0 <= j < i ==> Made(isInput, entries[j], sizes[j], active, added[j])
      invariant forall j :: 0 <= j < i ==> PlacedAt(isInput, active, connected, sizes, added, j)
    {
      var a := AddOne(isInput, entries[i], sizes[i], active, side);
      var next := added + [a];
      assert next[..i] == added;
      forall j | 0 <= j < i
        ensures PlacedAt(isInput, active, connected, sizes, next, j)
      {
        assert next[..j] == added[..j];
        assert next[j] == added[j];
        assert PlacedAt(isInput, active, connected, sizes, added, j);
      }
      assert PlacedAt(isInput, active, connected, sizes, next, i);
      added := next;
      if active.Some? {
        side := side + [a.at];
        assert Rects(added) == Rects(added[..i]) + [a.at];
      }
      i := i + 1;
    }
  }
}
