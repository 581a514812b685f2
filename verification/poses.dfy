// Pose bookkeeping of the RBF nodes (RBFNodes/core/poses.py): value
// counts, the size check against existing poses, the next pose index,
// the checks of `createPose`, the object strings, the command strings
// built when a pose is recalled, and the cache of the pose in edit mode.

module RbfPoses {
  import opened Wrappers
  import opened PyStr

  /** One driving or driven property: its path, its value and, for a
    * twist rotation, the full pose value. */
  datatype PropEntry = PropEntry(prop: string, value: real, poseValue: seq<real>)

  /** One object (or node path) of the pose data with its properties. */
  datatype ObjectEntry = ObjectEntry(name: string, props: seq<PropEntry>)

  type PoseData = seq<ObjectEntry>

  /** `getPoseInputData`/`getPoseOutputData` give either the data or a
    * (warning, message) pair. */
  datatype DataResult = Data(data: PoseData) | DataError(message: string)

  /** The stored fields of a pose node; the JSON text of the data is
    * represented by the data itself. */
  datatype PoseNode = PoseNode(nodeLabel: string, poseIndex: int, driverData: PoseData,
                               drivenData: PoseData, driverSize: nat, drivenSize: nat)

  /** A thing that `objectToString` can name. */
  datatype HostObject = NameString(s: string) | PoseBone(armature: string, bone: string) | Object(name: string)

  /** The values of a property list, in order. */
  function PropValues(props: seq<PropEntry>): (v: seq<real>)
    ensures |v| == |props|
    ensures forall k :: 0 <= k < |props| ==> v[k] == props[k].value
  {
    seq(|props|, k requires 0 <= k < |props| => props[k].value)
  }

  /** All values of the pose data, object by object: the row of the pose
    * in the solver's input or output matrix. */
  function Values(data: PoseData): seq<real>
  {
    if data == [] then [] else PropValues(data[0].props) + Values(data[1..])
  }

  /** `poseDataSize` (and the identical `getPropertyCount`): the number
    * of values in the pose data, which is the length of its value row. */
  function PoseDataSize(data: PoseData): (n: nat)
    ensures n == |Values(data)|
  {
    if data == [] then 0 else |data[0].props| + PoseDataSize(data[1..])
  }

  const DriverSizeMessage := "The number of driver values differs from existing poses"
  const DrivenSizeMessage := "The number of driven values differs from existing poses"

  /** `comparePoseSize`: the driver count is checked first, then the
    * driven count; no message when both match the node. */
  function ComparePoseSize(driver: PoseData, driven: PoseData, node: PoseNode): (r: Option<string>)
    ensures r.None? <==> node.driverSize == |Values(driver)| && node.drivenSize == |Values(driven)|
    ensures node.driverSize != |Values(driver)| ==> r == Some(DriverSizeMessage)
    ensures node.driverSize == |Values(driver)| && node.drivenSize != |Values(driven)| ==> r == Some(DrivenSizeMessage)
  {
    if node.driverSize != PoseDataSize(driver) then Some(DriverSizeMessage)
    else if node.drivenSize != PoseDataSize(driven) then Some(DrivenSizeMessage)
    else None
  }

  /** `lastPoseIndex`: −1 without poses, otherwise the largest pose index
    * (the last element of the sorted index list). */
  function LastPoseIndex(nodes: seq<PoseNode>): (r: int)
    ensures |nodes| == 0 ==> r == -1
    ensures |nodes| > 0 ==> exists k :: 0 <= k < |nodes| && nodes[k].poseIndex == r
    ensures forall k :: 0 <= k < |nodes| ==> nodes[k].poseIndex <= r
  {
    if |nodes| == 0 then -1
    else if |nodes| == 1 then nodes[0].poseIndex
    else
      var rest := LastPoseIndex(nodes[1..]);
      assert forall k :: 1 <= k < |nodes| ==> nodes[k] == nodes[1..][k - 1];
      if nodes[0].poseIndex >= rest then nodes[0].poseIndex else rest
  }

  datatype CreateResult = Created(node: PoseNode) | CreateWarning(message: string)

  const NoRbfNodeMessage := "No RBF node to add pose to"
  const NoDriverMessage := "No driver object or properties defined"
  const NoDrivenMessage := "No driven object or properties defined"

  /** `createPose` without the node creation: `rbfFound` says whether
    * there is an RBF node, `driver`/`driven` are the current pose data and
    * `poseNodes` the existing poses sorted by index. */
  function CreatePose(rbfFound: bool, driver: DataResult, driven: DataResult, poseNodes: seq<PoseNode>): (r: CreateResult)
    ensures !rbfFound ==> r == CreateWarning(NoRbfNodeMessage)
    ensures r.Created? <==>
      rbfFound && driver.Data? && driven.Data? && |driver.data| > 0 && |driven.data| > 0 &&
      (|poseNodes| > 0 ==> ComparePoseSize(driver.data, driven.data, poseNodes[|poseNodes| - 1]).None?)
    ensures r.Created? ==> forall k :: 0 <= k < |poseNodes| ==> poseNodes[k].poseIndex < r.node.poseIndex
    ensures r.Created? ==> r.node.nodeLabel == "Pose " + IntToString(r.node.poseIndex)
    ensures r.Created? ==> r.node.driverData == driver.data && r.node.drivenData == driven.data
    ensures r.Created? ==> r.node.driverSize == |Values(driver.data)| && r.node.drivenSize == |Values(driven.data)|
    ensures r.Created? && |poseNodes| > 0 ==>
      r.node.driverSize == poseNodes[|poseNodes| - 1].driverSize &&
      r.node.drivenSize == poseNodes[|poseNodes| - 1].drivenSize
  {
    if !rbfFound then CreateWarning(NoRbfNodeMessage)
    else if driver.DataError? then CreateWarning(driver.message)
    else if driven.DataError? then CreateWarning(driven.message)
    else if |driver.data| == 0 then CreateWarning(NoDriverMessage)
    else if |driven.data| == 0 then CreateWarning(NoDrivenMessage)
    else
      var index := LastPoseIndex(poseNodes) + 1;
      var check := if |poseNodes| > 0 then ComparePoseSize(driver.data, driven.data, poseNodes[|poseNodes| - 1]) else None;
      if check.Some? then CreateWarning(check.value)
      else Created(PoseNode("Pose " + IntToString(index), index, driver.data, driven.data,
                            PoseDataSize(driver.data), PoseDataSize(driven.data)))
  }

  /** `objectToString`: strings pass through, a pose bone becomes
    * "armature:bone", any other object its name. */
  function ObjectToString(obj: HostObject): (r: string)
    ensures obj.NameString? ==> r == obj.s
    ensures obj.Object? ==> r == obj.name
  {
    match obj
    case NameString(s) => s
    case PoseBone(armature, bone) => Join([armature, bone], ":")
    case Object(name) => name
  }

  /** The object string of a pose bone is parsed back by the
    * `name.split(":")` of a recalled pose: two items, the armature and the
    * bone, whenever neither name contains ":". */
  lemma BoneStringSplits(armature: string, bone: string)
    requires ':' !in armature && ':' !in bone
    ensures Split(ObjectToString(PoseBone(armature, bone)), ":") == [armature, bone]
  {
    assert [armature, bone][1..] == [bone];
    assert Join([armature, bone], ":") == armature + ":" + bone;
    SplitPair(armature, bone, ":");
  }

  // ------------------------------------------------------------------
  // Command strings of a recalled pose (the `asString` results). The
  // value is passed in as the text Python's format gives it.
  // ------------------------------------------------------------------

  /** `recallCustom`: `prop[9:]` without its last character is split at
    * "]["; one item is a plain property, two an indexed one, anything
    * else gives "". */
  function RecallCustom(objString: string, prop: string, valueText: string): string
  {
    var items := Split(Slice(From(prop, 9), 0, -1), "][");
    if |items| == 1 then objString + "[\"" + Slice(items[0], 2, -1) + "\"] = " + valueText
    else if |items| == 2 then objString + "[\"" + Slice(items[0], 2, -1) + "\"][" + items[1] + "] = " + valueText
    else ""
  }

  /** `recallShapeKey`: the key name is everything after "shapeKey:". */
  function RecallShapeKey(objString: string, prop: string, valueText: string): string
  {
    objString + ".data.shape_keys.key_blocks[\"" + From(prop, 9) + "\"].value = " + valueText
  }

  /** `recallModifier`: "modifier:M:p" names modifier M and its property
    * p. A path without a second ":" has no item 1 and fails (None). */
  function RecallModifier(objString: string, prop: string, valueText: string): (r: Option<string>)
    ensures r.None? <==> |Split(From(prop, 9), ":")| < 2
  {
    var items := Split(From(prop, 9), ":");
    if |items| < 2 then None
    else Some(objString + ".modifiers[\"" + items[0] + "\"]." + items[1] + " = " + valueText)
  }

  /** `recallTransform`: "location[2]" without its last character is
    * split at "["; a path without "[" has no item 1 and fails (None). */
  function RecallTransform(objString: string, prop: string, valueText: string): (r: Option<string>)
    ensures r.None? <==> |Split(Slice(prop, 0, -1), "[")| < 2
  {
    var items := Split(Slice(prop, 0, -1), "[");
    if |items| < 2 then None
    else Some(objString + "." + items[0] + "[" + items[1] + "] = " + valueText)
  }

  /** One line of `recallTwist`: component j of the quaternion. */
  function TwistLine(objString: string, j: nat, valueText: string): string
  {
    objString + ".rotation_quaternion[" + NatToString(j) + "] = " + valueText
  }

  /** The lines of `recallTwist`, one per component, in order. */
  function TwistLines(objString: string, valueTexts: seq<string>): (r: seq<string>)
    ensures |r| == |valueTexts|
  {
    seq(|valueTexts|, j requires 0 <= j < |valueTexts| => TwistLine(objString, j, valueTexts[j]))
  }

  /** `recallTwist`: the loop that appends one line per component of the
    * rotation; `valueTexts` are the components as Python formats them. */
  method RecallTwist(objString: string, valueTexts: seq<string>) returns (lines: seq<string>)
    ensures lines == TwistLines(objString, valueTexts)
  {
    lines := [];
    var j := 0;
    while j < |valueTexts|
      invariant 0 <= j <= |valueTexts|
      invariant lines == TwistLines(objString, valueTexts[..j])
    {
      lines := lines + [TwistLine(objString, j, valueTexts[j])];
      j := j + 1;
    }
    assert valueTexts[..j] == valueTexts;
  }

  /** Every line of a twist writes to the object's quaternion: the text
    * before the first "[" is the quaternion's path. */
  lemma TwistLinesIndex(objString: string, valueTexts: seq<string>, j: nat)
    requires j < |valueTexts| && '[' !in objString
    ensures var line := TwistLines(objString, valueTexts)[j];
            Split(line, "[")[0] == objString + ".rotation_quaternion"
  {
    var line := TwistLines(objString, valueTexts)[j];
    var head := objString + ".rotation_quaternion";
    assert '[' !in head by {
      forall k | 0 <= k < |head| ensures head[k] != '[' {
        if k >= |objString| {
          assert head[k] == ".rotation_quaternion"[k - |objString|];
        }
      }
    }
    assert line == head + "[" + (NatToString(j) + "] = " + valueTexts[j]);
    SplitHeadBefore(head, '[', NatToString(j) + "] = " + valueTexts[j]);
  }

  /** `recallProperty`: the path after "rna_property:" names a property of
    * the object's data. With a "[" in it, the text before the "[" is the
    * property, the text inside the brackets its index, and the whole
    * value list (`listText`, as Python formats the host's values) is
    * written; without one, the single value. None where the source
    * raises: no text after the "[" (an IndexError) or an index `int()`
    * rejects (a ValueError). */
  function RecallProperty(objString: string, prop: string, valueText: string, listText: string): (r: Option<string>)
    ensures '[' !in From(prop, 13) ==> r == Some(objString + ".data." + From(prop, 13) + " = " + valueText)
    ensures '[' in From(prop, 13) ==>
              (r.Some? <==> |Split(Slice(From(prop, 13), 0, -1), "[")| >= 2 &&
                            ParseInt(Split(Slice(From(prop, 13), 0, -1), "[")[1]).Some?)
  {
    var p := From(prop, 13);
    if '[' in p then
      var items := Split(Slice(p, 0, -1), "[");
      if |items| < 2 || ParseInt(items[1]).None? then None
      else Some(objString + ".data." + items[0] + "[" + items[1] + "] = " + listText)
    else Some(objString + ".data." + p + " = " + valueText)
  }

  /** An indexed object property "rna_property:name[i]" recalls
    * component i of `name` when the name contains no "[". */
  lemma RecallPropertyParts(objString: string, name: string, index: nat, valueText: string, listText: string)
    requires '[' !in name
    ensures RecallProperty(objString, "rna_property:" + name + "[" + NatToString(index) + "]", valueText, listText) ==
      Some(objString + ".data." + name + "[" + NatToString(index) + "] = " + listText)
  {
    var digits := NatToString(index);
    var rest := name + "[" + digits + "]";
    assert "rna_property:" + name + "[" + digits + "]" == "rna_property:" + rest;
    FromPrefix("rna_property:", rest);
    RecallPropertyIndexed(objString, "rna_property:" + rest, name, index, valueText, listText);
  }

  /** The indexed case of `recallProperty` once the prefix is off. */
  lemma RecallPropertyIndexed(objString: string, prop: string, name: string, index: nat, valueText: string, listText: string)
    requires '[' !in name && From(prop, 13) == name + "[" + NatToString(index) + "]"
    ensures RecallProperty(objString, prop, valueText, listText) ==
      Some(objString + ".data." + name + "[" + NatToString(index) + "] = " + listText)
  {
    var digits := NatToString(index);
    var p := From(prop, 13);
    assert p[|name|] == '[';
    assert p == (name + "[" + digits) + [']'];
    DropLast(name + "[" + digits, ']');
    NatToStringDigits(index, '[');
    SplitPair(name, digits, "[");
    var items := Split(Slice(p, 0, -1), "[");
    assert items == [name, digits];
    assert ParseInt(digits) == Some(ParseNat(digits));
  }

  /** `recallNode`: the object string is the node's path and the property
    * the socket path; the socket is the text before the first ".", and
    * an array socket gets the element index. */
  function RecallNode(prop: string, valueText: string, objString: string, propArray: bool, propArrayIndex: nat): string
  {
    var plugItems := Split(prop, ".");
    if propArray then Join([objString, plugItems[0]], ".") + ".default_value[" + NatToString(propArrayIndex) + "] = " + valueText
    else Join([objString, plugItems[0]], ".") + ".default_value = " + valueText
  }

  /** The socket path stored by `expandNodeProperty` (a socket such as
    * "inputs[1]" followed by ".default_value") is the socket `recallNode`
    * writes to, when the socket string has no ".". */
  lemma RecallNodeSocket(plugString: string, valueText: string, objString: string, propArray: bool, propArrayIndex: nat)
    requires '.' !in plugString
    ensures RecallNode(plugString + ".default_value", valueText, objString, propArray, propArrayIndex) ==
      objString + "." + plugString +
      (if propArray then ".default_value[" + NatToString(propArrayIndex) + "]" else ".default_value") + " = " + valueText
  {
    assert plugString + ".default_value" == plugString + ['.'] + "default_value";
    SplitHeadBefore(plugString, '.', "default_value");
    assert Join([objString, plugString], ".") == objString + "." + plugString;
  }

  lemma FromPrefix(prefix: string, rest: string)
    ensures From(prefix + rest, |prefix|) == rest
  {
    assert (prefix + rest)[|prefix|..] == rest;
  }

  lemma DropLast(s: string, c: char)
    ensures Slice(s + [c], 0, -1) == s
  {
    assert (s + [c])[..|s|] == s;
  }

  /** A shape-key path recalls the key it names. */
  lemma RecallShapeKeyName(objString: string, key: string, valueText: string)
    ensures RecallShapeKey(objString, "shapeKey:" + key, valueText) ==
      objString + ".data.shape_keys.key_blocks[\"" + key + "\"].value = " + valueText
  {
    FromPrefix("shapeKey:", key);
  }

  /** A modifier path "modifier:M:p" recalls property p of modifier M
    * when neither contains ":". */
  lemma RecallModifierParts(objString: string, modifier: string, property: string, valueText: string)
    requires ':' !in modifier && ':' !in property
    ensures RecallModifier(objString, "modifier:" + modifier + ":" + property, valueText) ==
      Some(objString + ".modifiers[\"" + modifier + "\"]." + property + " = " + valueText)
  {
    assert "modifier:" + modifier + ":" + property == "modifier:" + (modifier + ":" + property);
    FromPrefix("modifier:", modifier + ":" + property);
    SplitPair(modifier, property, ":");
  }

  /** A transform path "name[i]" recalls component i of `name` when the
    * name contains no "[". */
  lemma RecallTransformParts(objString: string, name: string, index: nat, valueText: string)
    requires '[' !in name
    ensures RecallTransform(objString, name + "[" + NatToString(index) + "]", valueText) ==
      Some(objString + "." + name + "[" + NatToString(index) + "] = " + valueText)
  {
    var digits := NatToString(index);
    assert name + "[" + digits + "]" == (name + "[" + digits) + [']'];
    DropLast(name + "[" + digits, ']');
    NatToStringDigits(index, '[');
    SplitPair(name, digits, "[");
  }

  // ------------------------------------------------------------------
  // Recalling the pose of every stored object (`recallPoseForObject`).
  // ------------------------------------------------------------------

  /** One stored property of a recalled object: its path, its value and
    * its pose value as Python formats them, and `listText`, the host's
    * current value list with the stored value put in, which
    * `recallProperty` writes for an indexed property. */
  datatype RecallItem = RecallItem(prop: string, valueText: string, poseValueTexts: seq<string>, listText: string)

  /** A stored object name and its properties. */
  type RecallEntry = (string, seq<RecallItem>)

  /** The object string of a stored name and whether it is a node: "a:b"
    * is bone b of armature a, a first item starting with "bpy" is the
    * path of a node, anything else an object. */
  function RecallTarget(name: string): (string, bool)
  {
    var nameItems := Split(name, ":");
    if |nameItems| == 2 then ("bpy.data.objects[\"" + nameItems[0] + "\"].pose.bones[\"" + nameItems[1] + "\"]", false)
    else if StartsWith(nameItems[0], "bpy") then (nameItems[0], true)
    else ("bpy.data.objects[\"" + nameItems[0] + "\"]", false)
  }

  /** The bone string written by `objectToString` is recalled as that
    * bone of that armature. */
  lemma RecallTargetBone(armature: string, bone: string)
    requires ':' !in armature && ':' !in bone
    ensures RecallTarget(ObjectToString(PoseBone(armature, bone))) ==
      ("bpy.data.objects[\"" + armature + "\"].pose.bones[\"" + bone + "\"]", false)
  {
    BoneStringSplits(armature, bone);
  }

  /** Which builder a property goes to, tested in the order of the
    * source: any transform name inside the path, then the prefixes,
    * then the node sockets; anything else is skipped. */
  datatype RecallKind = TransformKind | TwistKind | RnaKind | CustomKind | ShapeKeyKind | ModifierKind | NodeKind | Skipped

  function Kind(prop: string, isNode: bool): RecallKind
  {
    if Contains(prop, "location") || Contains(prop, "rotation_euler") || Contains(prop, "rotation_quaternion") ||
       Contains(prop, "rotation_axis_angle") || Contains(prop, "scale") then TransformKind
    else if StartsWith(prop, "twist_") then TwistKind
    else if StartsWith(prop, "rna_property:") then RnaKind
    else if StartsWith(prop, "property:") then CustomKind
    else if StartsWith(prop, "shapeKey:") then ShapeKeyKind
    else if StartsWith(prop, "modifier:") then ModifierKind
    else if isNode then NodeKind
    else Skipped
  }

  /** The lines one property adds; None where its builder raises. */
  function ItemLines(objString: string, isNode: bool, propArray: bool, index: nat, it: RecallItem): Option<seq<string>>
  {
    match Kind(it.prop, isNode)
    case TransformKind =>
      var line := RecallTransform(objString, it.prop, it.valueText);
      if line.None? then None else Some([line.value])
    case TwistKind => Some(TwistLines(objString, it.poseValueTexts))
    case RnaKind =>
      var line := RecallProperty(objString, it.prop, it.valueText, it.listText);
      if line.None? then None else Some([line.value])
    case CustomKind => Some([RecallCustom(objString, it.prop, it.valueText)])
    case ShapeKeyKind => Some([RecallShapeKey(objString, it.prop, it.valueText)])
    case ModifierKind =>
      var line := RecallModifier(objString, it.prop, it.valueText);
      if line.None? then None else Some([line.value])
    case NodeKind => Some([RecallNode(it.prop, it.valueText, objString, propArray, index)])
    case Skipped => Some([])
  }

  /** The number of node sockets among `items`: the `propArrayIndex` the
    * next array socket gets. */
  function NodeCount(items: seq<RecallItem>, isNode: bool): (n: nat)
    ensures n <= |items|
  {
    if |items| == 0 then 0
    else NodeCount(items[..|items| - 1], isNode) + (if Kind(items[|items| - 1].prop, isNode) == NodeKind then 1 else 0)
  }

  /** The socket index handed to the property after `items`. */
  function NodeIndex(items: seq<RecallItem>, isNode: bool, propArray: bool): nat
  {
    if propArray then NodeCount(items, isNode) else 0
  }

  /** The lines of one object's properties, in order; None as soon as a
    * builder raises. */
  function ObjectLines(objString: string, isNode: bool, propArray: bool, items: seq<RecallItem>): Option<seq<string>>
  {
    if |items| == 0 then Some([])
    else
      var init := items[..|items| - 1];
      var prefix := ObjectLines(objString, isNode, propArray, init);
      if prefix.None? then None
      else
        var more := ItemLines(objString, isNode, propArray, NodeIndex(init, isNode, propArray), items[|items| - 1]);
        if more.None? then None else Some(prefix.value + more.value)
  }

  /** The lines of one stored object: its target, and the array flag a
    * node gets when it has more than one property. */
  function EntryLines(entry: RecallEntry): Option<seq<string>>
  {
    var (objString, isNode) := RecallTarget(entry.0);
    ObjectLines(objString, isNode, isNode && |entry.1| > 1, entry.1)
  }

  /** The lines of all stored objects, in order. */
  function PoseLines(poseData: seq<RecallEntry>): Option<seq<string>>
  {
    if |poseData| == 0 then Some([])
    else
      var prefix := PoseLines(poseData[..|poseData| - 1]);
      if prefix.None? then None
      else
        var more := EntryLines(poseData[|poseData| - 1]);
        if more.None? then None else Some(prefix.value + more.value)
  }

  /** `recallPoseForObject(poseData, asString=True)`: the command strings
    * of every property of every stored object, or None when a builder
    * raises. */
  method RecallPoseForObject(poseData: seq<RecallEntry>) returns (r: Option<seq<string>>)
    ensures r == PoseLines(poseData)
  {
    var lines: seq<string> := [];
    var j := 0;
    while j < |poseData|
      invariant 0 <= j <= |poseData|
      invariant PoseLines(poseData[..j]) == Some(lines)
    {
      var (name, data) := poseData[j];
      var objString, isNode := RecallTarget(name).0, RecallTarget(name).1;
      var propArray := isNode && |data| > 1;
      var objectLines := RecallObject(objString, isNode, propArray, data);
      if objectLines.None? {
        assert poseData[..j + 1][..j] == poseData[..j];
        PoseLinesFailKeeps(poseData, j + 1);
        return None;
      }
      assert poseData[..j + 1][..j] == poseData[..j];
      lines := lines + objectLines.value;
      j := j + 1;
    }
    assert poseData[..j] == poseData;
    r := Some(lines);
  }

  /** The inner loop of `recallPoseForObject`, over one object's
    * properties, counting the node sockets as it goes. */
  method RecallObject(objString: string, isNode: bool, propArray: bool, items: seq<RecallItem>) returns (r: Option<seq<string>>)
    ensures r == ObjectLines(objString, isNode, propArray, items)
  {
    var lines: seq<string> := [];
    var propArrayIndex := 0;
    var k := 0;
    while k < |items|
      invariant 0 <= k <= |items|
      invariant ObjectLines(objString, isNode, propArray, items[..k]) == Some(lines)
      invariant propArrayIndex == NodeIndex(items[..k], isNode, propArray)
    {
      assert items[..k + 1][..k] == items[..k];
      var more := ItemLines(objString, isNode, propArray, propArrayIndex, items[k]);
      if more.None? {
        ObjectLinesFailKeeps(objString, isNode, propArray, items, k + 1);
        return None;
      }
      lines := lines + more.value;
      if Kind(items[k].prop, isNode) == NodeKind && propArray {
        propArrayIndex := propArrayIndex + 1;
      }
      k := k + 1;
    }
    assert items[..k] == items;
    r := Some(lines);
  }

  /** Once a prefix of the objects fails, the whole recall fails. */
  lemma {:induction false} PoseLinesFailKeeps(poseData: seq<RecallEntry>, n: nat)
    requires n <= |poseData| && PoseLines(poseData[..n]).None?
    ensures PoseLines(poseData).None?
    decreases |poseData| - n
  {
    if n < |poseData| {
      assert poseData[..n + 1][..n] == poseData[..n];
      PoseLinesFailKeeps(poseData, n + 1);
    } else {
      assert poseData[..n] == poseData;
    }
  }

  /** Once a prefix of the properties fails, the object fails. */
  lemma {:induction false} ObjectLinesFailKeeps(objString: string, isNode: bool, propArray: bool, items: seq<RecallItem>, n: nat)
    requires n <= |items| && ObjectLines(objString, isNode, propArray, items[..n]).None?
    ensures ObjectLines(objString, isNode, propArray, items).None?
    decreases |items| - n
  {
    if n < |items| {
      assert items[..n + 1][..n] == items[..n];
      ObjectLinesFailKeeps(objString, isNode, propArray, items, n + 1);
    } else {
      assert items[..n] == items;
    }
  }

  /** The recall fails exactly when the builder of some property raises. */
  lemma {:induction false} ObjectLinesFail(objString: string, isNode: bool, propArray: bool, items: seq<RecallItem>)
    ensures ObjectLines(objString, isNode, propArray, items).None? <==>
      exists k :: 0 <= k < |items| && ItemLines(objString, isNode, propArray, NodeIndex(items[..k], isNode, propArray), items[k]).None?
    decreases |items|
  {
    if |items| > 0 {
      var init := items[..|items| - 1];
      ObjectLinesFail(objString, isNode, propArray, init);
      ObjectLinesNoneStep(objString, isNode, propArray, items);
      forall k | 0 <= k < |init| ensures init[..k] == items[..k] && init[k] == items[k] { }
      assert items[..|init|] == init;
    }
  }

  /** The recall of one more property fails when the others fail or its
    * own builder raises. */
  lemma ObjectLinesNoneStep(objString: string, isNode: bool, propArray: bool, items: seq<RecallItem>)
    requires |items| > 0
    ensures ObjectLines(objString, isNode, propArray, items).None? <==>
      ObjectLines(objString, isNode, propArray, items[..|items| - 1]).None? ||
      ItemLines(objString, isNode, propArray, NodeIndex(items[..|items| - 1], isNode, propArray), items[|items| - 1]).None?
  {
  }

  /** The array sockets of a node are numbered 0, 1, 2, ... in order: when
    * every property of a node goes to `recallNode`, line k writes
    * element k of property k's socket. */
  lemma {:induction false} NodeSocketsNumbered(objString: string, items: seq<RecallItem>)
    requires forall k :: 0 <= k < |items| ==> Kind(items[k].prop, true) == NodeKind
    ensures var r := ObjectLines(objString, true, true, items);
            r.Some? && |r.value| == |items| &&
            forall k :: 0 <= k < |items| ==> r.value[k] == RecallNode(items[k].prop, items[k].valueText, objString, true, k)
    decreases |items|
  {
    if |items| > 0 {
      var init := items[..|items| - 1];
      var last := items[|items| - 1];
      forall k | 0 <= k < |init| ensures init[k].prop == items[k].prop && init[k].valueText == items[k].valueText { }
      NodeSocketsNumbered(objString, init);
      NodeCountAll(init);
      NodeItemLine(objString, |init|, last);
      var prefix := ObjectLines(objString, true, true, init).value;
      var line := RecallNode(last.prop, last.valueText, objString, true, |init|);
      ObjectLinesSnoc(objString, true, true, items, prefix, [line]);
      NumberedStep(objString, items, prefix, line);
    }
  }

  /** Appending the line of the last socket keeps the numbering. */
  lemma NumberedStep(objString: string, items: seq<RecallItem>, prefix: seq<string>, line: string)
    requires |items| > 0 && |prefix| == |items| - 1
    requires forall k :: 0 <= k < |prefix| ==> prefix[k] == RecallNode(items[k].prop, items[k].valueText, objString, true, k)
    requires line == RecallNode(items[|prefix|].prop, items[|prefix|].valueText, objString, true, |prefix|)
    ensures forall k :: 0 <= k < |items| ==> (prefix + [line])[k] == RecallNode(items[k].prop, items[k].valueText, objString, true, k)
  {
  }

  /** One more property appends its lines to those of the others. */
  lemma ObjectLinesSnoc(objString: string, isNode: bool, propArray: bool, items: seq<RecallItem>, prefix: seq<string>, more: seq<string>)
    requires |items| > 0
    requires ObjectLines(objString, isNode, propArray, items[..|items| - 1]) == Some(prefix)
    requires ItemLines(objString, isNode, propArray, NodeIndex(items[..|items| - 1], isNode, propArray), items[|items| - 1]) == Some(more)
    ensures ObjectLines(objString, isNode, propArray, items) == Some(prefix + more)
  {
  }

  /** A node socket's property gives the one `recallNode` line. */
  lemma NodeItemLine(objString: string, index: nat, it: RecallItem)
    requires Kind(it.prop, true) == NodeKind
    ensures ItemLines(objString, true, true, index, it) == Some([RecallNode(it.prop, it.valueText, objString, true, index)])
  {
  }

  /** With only node sockets, the count is the number of properties. */
  lemma {:induction false} NodeCountAll(items: seq<RecallItem>)
    requires forall k :: 0 <= k < |items| ==> Kind(items[k].prop, true) == NodeKind
    ensures NodeCount(items, true) == |items|
    decreases |items|
  {
    if |items| > 0 {
      NodeCountAll(items[..|items| - 1]);
    }
  }

  // ------------------------------------------------------------------
  // The pose in edit mode.
  // ------------------------------------------------------------------

  /** What `updatePose` does to the edited pose node: nothing, both data
    * written, or a `TypeError` from `json.dumps` on an error pair (whose
    * first item is a set). In the last case the driver data were already
    * written when only the driven side failed. */
  datatype PoseUpdate =
    | Unchanged
    | Wrote(poseNode: string, driverData: PoseData, drivenData: PoseData)
    | DumpRaises(poseNode: string, driverWritten: Option<PoseData>)

  /** `editCache`: the RBF node and the pose node being edited. */
  class EditCache {
    var rbfNode: Option<string>
    var poseNode: Option<string>

    constructor ()
      ensures rbfNode.None? && poseNode.None?
    {
      rbfNode := None;
      poseNode := None;
    }

    /** `editPose`: fails without an RBF node and leaves the cache alone;
      * otherwise both fields are set. */
    method EditPose(rbf: Option<string>, node: string) returns (ok: bool)
      modifies this
      ensures ok == rbf.Some?
      ensures ok ==> rbfNode == rbf && poseNode == Some(node)
      ensures !ok ==> rbfNode == old(rbfNode) && poseNode == old(poseNode)
    {
      if rbf.None? {
        return false;
      }
      rbfNode := rbf;
      poseNode := Some(node);
      ok := true;
    }

    /** `updatePose`: with a field missing both are cleared and nothing is
      * written. Otherwise, when one side is an empty list, nothing happens.
      * The source's test for an error result compares the driven result
      * with a string, which a (warning, message) pair never is, and a pair
      * is never empty; so an error pair reaches `json.dumps`, which raises
      * before the cache is cleared. With data on both sides both are
      * written and both fields are cleared. */
    method UpdatePose(driver: DataResult, driven: DataResult) returns (u: PoseUpdate)
      modifies this
      ensures old(rbfNode).None? || old(poseNode).None? ==> u == Unchanged && rbfNode.None? && poseNode.None?
      ensures old(rbfNode).Some? && old(poseNode).Some? && !u.Wrote? ==> rbfNode == old(rbfNode) && poseNode == old(poseNode)
      ensures old(rbfNode).Some? && old(poseNode).Some? ==>
        u == (if driver == Data([]) || driven == Data([]) then Unchanged
              else if driver.DataError? then DumpRaises(old(poseNode).value, None)
              else if driven.DataError? then DumpRaises(old(poseNode).value, Some(driver.data))
              else Wrote(old(poseNode).value, driver.data, driven.data))
      ensures u.Wrote? ==> rbfNode.None? && poseNode.None?
    {
      if rbfNode.None? || poseNode.None? {
        rbfNode := None;
        poseNode := None;
        return Unchanged;
      }
      if driver == Data([]) || driven == Data([]) {
        return Unchanged;
      }
      if driver.DataError? {
        return DumpRaises(poseNode.value, None);
      }
      if driven.DataError? {
        return DumpRaises(poseNode.value, Some(driver.data));
      }
      u := Wrote(poseNode.value, driver.data, driven.data);
      rbfNode := None;
      poseNode := None;
    }
  }
}
