// The string side of Rapid SDK (rapidSDK.py): the keys under which
// selected objects are stored, the clean-up of variable names, and the
// data paths a driver target is written with and read back from.

module RapidPaths {
  import opened Wrappers
  import opened PyStr

  /** The key separator and the three kind tags (`SEPARATOR`, `POSEBONE`,
    * `OBJECT`, `SHAPEKEY`). */
  const Separator: string := "::"
  const PoseBoneTag: string := "POSEBONE"
  const ObjectTag: string := "OBJECT"
  const ShapeKeyTag: string := "SHAPEKEY"

  /** A selectable entity: a pose bone of an armature, a shape key data
    * block, or any other object. */
  datatype SdkObject =
    | PoseBoneObj(armature: string, bone: string)
    | ShapeKeyObj(key: string)
    | PlainObj(name: string)

  /** `objectToString` for one object. */
  function ObjectToString(o: SdkObject): (r: string)
    ensures o.PoseBoneObj? ==> StartsWith(r, PoseBoneTag + Separator)
    ensures o.ShapeKeyObj? ==> StartsWith(r, ShapeKeyTag + Separator)
    ensures o.PlainObj? ==> StartsWith(r, ObjectTag + Separator)
  {
    match o
    case PoseBoneObj(a, b) => Join([PoseBoneTag, a, b], Separator)
    case ShapeKeyObj(k) => Join([ShapeKeyTag, k], Separator)
    case PlainObj(n) => Join([ObjectTag, n], Separator)
  }

  /** `objectToString` for a list: one key per object, in order. */
  function ObjectsToString(objs: seq<SdkObject>): (r: seq<string>)
    ensures |r| == |objs|
    ensures forall i :: 0 <= i < |objs| ==> r[i] == ObjectToString(objs[i])
  {
    seq(|objs|, i requires 0 <= i < |objs| => ObjectToString(objs[i]))
  }

  /** The outcome of looking a key up: the object, no object (a two-part
    * key with an unknown tag), or an exception (a bare tag). */
  datatype Lookup = Found(obj: SdkObject) | NotFound | Raises

  /** `stringToObject` for one key: more than two parts name a pose bone;
    * otherwise the tag decides. The lookup of the named object in the
    * scene is not part of the model. */
  function StringToObject(name: string): (r: Lookup)
    ensures r.Found? && |Split(name, Separator)| > 2 ==> r.obj.PoseBoneObj?
  {
    var elements := Split(name, Separator);
    if |elements| > 2 then Found(PoseBoneObj(elements[1], elements[2]))
    else if elements[0] == ObjectTag then
      (if |elements| < 2 then Raises else Found(PlainObj(elements[1])))
    else if elements[0] == ShapeKeyTag then
      (if |elements| < 2 then Raises else Found(ShapeKeyObj(elements[1])))
    else NotFound
  }

  /** The names an object key is made of are free of ':'. */
  predicate KeyFree(o: SdkObject)
  {
    match o
    case PoseBoneObj(a, b) => ':' !in a && ':' !in b
    case ShapeKeyObj(k) => ':' !in k
    case PlainObj(n) => ':' !in n
  }

  /** Reading a key back gives the object it was made from, whenever no
    * name contains ':'. */
  lemma StringToObjectToString(o: SdkObject)
    requires KeyFree(o)
    ensures StringToObject(ObjectToString(o)) == Found(o)
  {
    assert ':' !in PoseBoneTag && ':' !in ObjectTag && ':' !in ShapeKeyTag;
    match o
    case PoseBoneObj(a, b) =>
      SplitJoin([PoseBoneTag, a, b], Separator);
    case ShapeKeyObj(k) =>
      SplitJoin([ShapeKeyTag, k], Separator);
      assert ShapeKeyTag != ObjectTag;
    case PlainObj(n) =>
      SplitJoin([ObjectTag, n], Separator);
  }

  // ---------------------------------------------------------------------
  // Variable names
  // ---------------------------------------------------------------------

  /** The characters `cleanVariable` removes. */
  predicate Special(c: char)
  {
    c == '[' || c == ']' || c == '"'
  }

  /** The characters of `s` that are not special, in order. */
  function Kept(s: string): (r: string)
    ensures |r| <= |s|
    ensures forall k :: 0 <= k < |r| ==> !Special(r[k])
  {
    if s == [] then []
    else (if Special(s[0]) then [] else [s[0]]) + Kept(s[1..])
  }

  /** `s` without any occurrence of `c`. */
  function Without(s: string, c: char): string
  {
    if s == [] then []
    else (if s[0] == c then [] else [s[0]]) + Without(s[1..], c)
  }

  /** One step of `cleanVariable`: replace `c` by nothing when it occurs. */
  function Drop(s: string, c: char): string
  {
    if c in s then Replace(s, [c], "") else s
  }

  /** `cleanVariable`. */
  function CleanVariable(v: string): string
  {
    Drop(Drop(Drop(v, '['), ']'), '"')
  }

  lemma {:induction false} ReplaceChar(s: string, c: char)
    ensures Replace(s, [c], "") == Without(s, c)
    decreases |s|
  {
    if s != [] {
      ReplaceChar(s[1..], c);
    }
  }

  lemma {:induction false} WithoutAbsent(s: string, c: char)
    requires c !in s
    ensures Without(s, c) == s
    decreases |s|
  {
    if s != [] {
      WithoutAbsent(s[1..], c);
      assert [s[0]] + s[1..] == s;
    }
  }

  lemma DropWithout(s: string, c: char)
    ensures Drop(s, c) == Without(s, c)
  {
    if c in s {
      ReplaceChar(s, c);
    } else {
      WithoutAbsent(s, c);
    }
  }

  lemma {:induction false} WithoutAppend(a: string, b: string, c: char)
    ensures Without(a + b, c) == Without(a, c) + Without(b, c)
    decreases |a|
  {
    if a != [] {
      WithoutAppend(a[1..], b, c);
      var h := if a[0] == c then [] else [a[0]];
      assert (a + b)[0] == a[0];
      assert (a + b)[1..] == a[1..] + b;
      assert Without(a + b, c) == h + Without(a[1..] + b, c);
      assert Without(a, c) == h + Without(a[1..], c);
    } else {
      assert a + b == b;
    }
  }

  lemma {:induction false} WithoutAll(s: string)
    ensures Without(Without(Without(s, '['), ']'), '"') == Kept(s)
    decreases |s|
  {
    if s != [] {
      var h, t := [s[0]], s[1..];
      assert s == h + t;
      WithoutAll(t);
      WithoutAppend(h, t, '[');
      WithoutAppend(Without(h, '['), Without(t, '['), ']');
      WithoutAppend(Without(Without(h, '['), ']'), Without(Without(t, '['), ']'), '"');
      KeptAppend(h, t);
      assert Without(Without(Without(h, '['), ']'), '"') == Kept(h);
    }
  }

  /** `cleanVariable` removes every '[', ']' and '"' and keeps every
    * other character, in order. */
  lemma CleanVariableKept(v: string)
    ensures CleanVariable(v) == Kept(v)
  {
    DropWithout(v, '[');
    DropWithout(Drop(v, '['), ']');
    DropWithout(Drop(Drop(v, '['), ']'), '"');
    WithoutAll(v);
  }

  lemma {:induction false} KeptAppend(a: string, b: string)
    ensures Kept(a + b) == Kept(a) + Kept(b)
    decreases |a|
  {
    if a != [] {
      KeptAppend(a[1..], b);
      var h := if Special(a[0]) then [] else [a[0]];
      assert (a + b)[0] == a[0];
      assert (a + b)[1..] == a[1..] + b;
      assert Kept(a + b) == h + Kept(a[1..] + b);
      assert Kept(a) == h + Kept(a[1..]);
    } else {
      assert a + b == b;
    }
  }

  lemma {:induction false} KeptPlain(s: string)
    requires forall k :: 0 <= k < |s| ==> !Special(s[k])
    ensures Kept(s) == s
    decreases |s|
  {
    if s != [] {
      KeptPlain(s[1..]);
      assert !Special(s[0]);
      assert [s[0]] + s[1..] == s;
    }
  }

  // ---------------------------------------------------------------------
  // Data paths
  // ---------------------------------------------------------------------

  /** The five properties that are addressed by their bare name. */
  predicate IsTransform(p: string)
  {
    p == "location" || p == "rotation_euler" || p == "rotation_quaternion" ||
    p == "rotation_axis_angle" || p == "scale"
  }

  /** A custom property is addressed as `["name"]`. */
  function Quoted(name: string): string
  {
    "[\"" + name + "\"]"
  }

  /** The path of a property: bare for a transform, quoted otherwise. */
  function PropPath(name: string): (r: string)
    ensures IsTransform(name) ==> r == name
    ensures !IsTransform(name) ==> r == Quoted(name)
  {
    if IsTransform(name) then name else Quoted(name)
  }

  /** `filterPoseBone`'s prefix for a bone: `pose.bones["b"].`. */
  function BonePrefix(bone: string): string
  {
    "pose.bones[\"" + bone + "\"]."
  }

  /** The owner of a driver: the armature for a pose bone, the object
    * itself otherwise, and the prefix of the target path. */
  function FilterPoseBone(o: SdkObject): (r: (SdkObject, string))
    ensures o.PoseBoneObj? ==> r == (PlainObj(o.armature), BonePrefix(o.bone))
    ensures !o.PoseBoneObj? ==> r == (o, "")
  {
    match o
    case PoseBoneObj(a, b) => (PlainObj(a), BonePrefix(b))
    case _ => (o, "")
  }

  /** The array index in brackets, or nothing for -1. */
  function IndexSuffix(index: int): string
  {
    if index != -1 then "[" + IntToString(index) + "]" else ""
  }

  /** The target path `addDriver` writes for a named property. */
  function TargetPath(prefix: string, name: string, index: int): string
  {
    prefix + PropPath(name) + IndexSuffix(index)
  }

  /** The target path of a shape key driver. */
  function BlockPath(block: string, value: string): string
  {
    "key_blocks[\"" + block + "\"]." + value
  }

  /** What `getDriverData` reads from one target. */
  datatype TargetData = TargetData(prop: string, index: int, bone: string)

  /** The attribute part of a target path after the pose bone prefix is
    * cut off at the first ']' and one leading '.' is removed. */
  function StripBone(attr: string): string
  {
    var rest := From(attr, Find(attr, "]") + 1);
    if StartsWith(rest, ".") then rest[1..] else rest
  }

  /** The attribute as `getDriverData` narrows it: the quote fix-up, then
    * the pose bone prefix for an armature target, then the shape key
    * block prefix for a shape key target. */
  function Attribute(dataPath: string, isArmature: bool, isKey: bool): string
  {
    var attr0 := Replace(dataPath, "'", "\"");
    var attr1 := if isArmature then StripBone(attr0) else attr0;
    if isKey then Split(Replace(attr1, "key_blocks", ""), ".")[0] else attr1
  }

  /** The attribute cut into name and index: at "][" for a custom array,
    * at "[" for a path without quotes, and left whole otherwise. */
  function RawParts(attr: string): (r: seq<string>)
    ensures |r| >= 1
  {
    if Contains(attr, "][") then Split(attr, "][")
    else if '"' !in attr then Split(attr, "[")
    else [attr]
  }

  /** Name and index of a cut attribute; two parts carry an index. */
  function ReadAttr(attr: string, bone: string): (r: Option<TargetData>)
    ensures r.Some? ==> r.value.bone == bone && r.value.prop == Kept(RawParts(attr)[0])
    ensures r.Some? && |RawParts(attr)| != 2 ==> r.value.index == -1
  {
    var raw := RawParts(attr);
    CleanVariableKept(raw[0]);
    if |raw| == 2 then
      match ParseInt(CleanVariable(raw[1]))
      case None => None
      case Some(i) => Some(TargetData(CleanVariable(raw[0]), i, bone))
    else Some(TargetData(CleanVariable(raw[0]), -1, bone))
  }

  /** `getDriverData`'s reading of a target path (`isArmature`: the target
    * is an armature; `isKey`: the target is a shape key block). Nothing
    * where the source raises: a bone name that cannot be extracted, or an
    * index that is not an integer. */
  function ParseTarget(dataPath: string, isArmature: bool, isKey: bool): (r: Option<TargetData>)
    ensures r.Some? && !isArmature ==> r.value.bone == ""
    ensures r.Some? ==> forall k :: 0 <= k < |r.value.prop| ==> !Special(r.value.prop[k])
  {
    var bones := Split(dataPath, "\"");
    if isArmature && |bones| < 2 then None
    else ReadAttr(Attribute(dataPath, isArmature, isKey), if isArmature then bones[1] else "")
  }

  /** A name that needs no quoting inside a path: not empty, and no
    * brackets, quotes, apostrophes or periods. */
  predicate PlainName(n: string)
  {
    n != "" && forall k :: 0 <= k < |n| ==> !Special(n[k]) && n[k] != '\'' && n[k] != '.'
  }

  lemma NoContains(s: string, t: string)
    requires |t| > 0 && t[0] !in s
    ensures !Contains(s, t)
  {
    forall p | 0 <= p && p + |t| <= |s|
      ensures !HasAt(s, t, p)
    {
      assert s[p..p + |t|][0] == s[p];
    }
  }

  /** No "][" where every ']' is the last character. */
  lemma NoPair(s: string)
    requires forall q :: 0 <= q < |s| - 1 ==> s[q] != ']'
    ensures !Contains(s, "][") && forall p :: !HasAt(s, "][", p)
  {
    forall p | 0 <= p && p + 2 <= |s|
      ensures !HasAt(s, "][", p)
    {
      assert s[p..p + 2][0] == s[p];
    }
  }

  lemma DigitsPlain(i: nat)
    ensures forall k :: 0 <= k < |NatToString(i)| ==> !Special(NatToString(i)[k]) && NatToString(i)[k] != '\''
  {
  }

  lemma RawTransformSingle(name: string)
    requires PlainName(name) && IsTransform(name)
    ensures RawParts(name) == [name]
  {
    NoPair(name);
    SplitPlain(name, "[");
  }

  lemma RawCustomSingle(name: string)
    requires PlainName(name)
    ensures RawParts(Quoted(name)) == [Quoted(name)]
    ensures Kept(Quoted(name)) == name
  {
    var attr := Quoted(name);
    assert attr[1] == '"';
    NoPair(attr);
    KeptPlain(name);
    KeptAppend("[\"" + name, "\"]");
    KeptAppend("[\"", name);
  }

  lemma RawTransformArray(name: string, d: string)
    requires PlainName(name) && IsTransform(name)
    requires d != "" && forall k :: 0 <= k < |d| ==> IsDigit(d[k])
    ensures RawParts(name + "[" + d + "]") == [name, d + "]"]
  {
    var attr := name + "[" + d + "]";
    assert attr == name + ("[" + d) + "]";
    assert forall q :: 0 <= q < |attr| - 1 ==> attr[q] != ']';
    NoPair(attr);
    assert '"' !in attr;
    assert attr == name + "[" + (d + "]");
    SplitPair(name, d + "]", "[");
  }

  lemma RawCustomArray(name: string, d: string)
    requires PlainName(name)
    requires d != "" && forall k :: 0 <= k < |d| ==> IsDigit(d[k])
    ensures RawParts(Quoted(name) + "[" + d + "]") == ["[\"" + name + "\"", d + "]"]
  {
    var attr := Quoted(name) + "[" + d + "]";
    var a := "[\"" + name + "\"";
    var b := d + "]";
    assert attr == a + "][" + b;
    assert HasAt(attr, "][", |a|);
    assert forall q :: 0 <= q < |b| - 1 ==> b[q] != ']';
    NoPair(b);
    assert ']' !in a;
    SplitAfterPart(a, "][", b);
    SplitWhole(b, "][");
  }

  lemma KeptDigits(d: string)
    requires forall k :: 0 <= k < |d| ==> IsDigit(d[k])
    ensures Kept(d + "]") == d
  {
    KeptPlain(d);
    KeptAppend(d, "]");
    KeptClose();
  }

  lemma KeptClose()
    ensures Kept("]") == ""
  {
    assert "]"[1..] == "";
  }

  lemma ReadWrittenSingle(name: string, bone: string)
    requires PlainName(name)
    ensures ReadAttr(PropPath(name), bone) == Some(TargetData(name, -1, bone))
  {
    if IsTransform(name) {
      KeptPlain(name);
      RawTransformSingle(name);
    } else {
      RawCustomSingle(name);
    }
  }

  lemma ReadTransformArray(name: string, d: string, i: nat, bone: string)
    requires PlainName(name) && IsTransform(name) && d == NatToString(i)
    ensures ReadAttr(name + "[" + d + "]", bone) == Some(TargetData(name, i, bone))
  {
    KeptDigits(d);
    CleanVariableKept(d + "]");
    ParseNatToString(i);
    RawTransformArray(name, d);
    KeptPlain(name);
  }

  lemma ReadCustomArray(name: string, d: string, i: nat, bone: string)
    requires PlainName(name) && d == NatToString(i)
    ensures ReadAttr(Quoted(name) + "[" + d + "]", bone) == Some(TargetData(name, i, bone))
  {
    KeptDigits(d);
    CleanVariableKept(d + "]");
    ParseNatToString(i);
    var a := "[\"" + name + "\"";
    RawCustomArray(name, d);
    assert Kept(a) == name by {
      KeptPlain(name);
      KeptAppend("[\"" + name, "\"");
      KeptAppend("[\"", name);
    }
    CleanVariableKept(a);
    assert ParseInt(CleanVariable(d + "]")) == Some(i);
  }

  lemma ReadWrittenArray(name: string, i: nat, bone: string)
    requires PlainName(name)
    ensures ReadAttr(PropPath(name) + IndexSuffix(i), bone) == Some(TargetData(name, i, bone))
  {
    var d := NatToString(i);
    assert IndexSuffix(i) == "[" + d + "]";
    assert PropPath(name) + IndexSuffix(i) == PropPath(name) + "[" + d + "]";
    if IsTransform(name) {
      ReadTransformArray(name, d, i, bone);
    } else {
      ReadCustomArray(name, d, i, bone);
    }
  }

  /** The attribute `addDriver` writes for a named property reads back
    * as that property and index. */
  lemma ReadWritten(name: string, index: int, bone: string)
    requires PlainName(name) && index >= -1
    ensures ReadAttr(PropPath(name) + IndexSuffix(index), bone) == Some(TargetData(name, index, bone))
  {
    if index == -1 {
      assert PropPath(name) + IndexSuffix(index) == PropPath(name);
      ReadWrittenSingle(name, bone);
    } else {
      ReadWrittenArray(name, index, bone);
    }
  }

  /** The written attribute holds no apostrophe, so the quote fix-up
    * leaves it alone. */
  lemma WrittenNoApostrophe(name: string, index: int)
    requires PlainName(name) && index >= -1
    ensures '\'' !in PropPath(name) + IndexSuffix(index)
  {
    if index != -1 {
      DigitsPlain(index);
    }
  }

  /** Reading back the path of a named property, without a bone prefix,
    * gives its name and index, e.g. `location[2]`, `["size"][1]` and
    * `["expand"]`. */
  lemma ParsePlainTarget(name: string, index: int)
    requires PlainName(name) && index >= -1
    ensures ParseTarget(TargetPath("", name, index), false, false) == Some(TargetData(name, index, ""))
  {
    WrittenReplaced(name, index);
    ReadWritten(name, index, "");
    NoPrefix(name, index);
    ParsePlain(TargetPath("", name, index), PropPath(name) + IndexSuffix(index), Some(TargetData(name, index, "")));
  }

  lemma NoPrefix(name: string, index: int)
    ensures TargetPath("", name, index) == PropPath(name) + IndexSuffix(index)
  {
    assert "" + PropPath(name) == PropPath(name);
  }

  lemma PathParts(prefix: string, name: string, index: int)
    ensures TargetPath(prefix, name, index) == prefix + (PropPath(name) + IndexSuffix(index))
  {
  }

  /** The quote fix-up leaves a written attribute alone. */
  lemma WrittenReplaced(name: string, index: int)
    requires PlainName(name) && index >= -1
    ensures Replace(PropPath(name) + IndexSuffix(index), "'", "\"") == PropPath(name) + IndexSuffix(index)
  {
    WrittenNoApostrophe(name, index);
    ReplaceAbsent(PropPath(name) + IndexSuffix(index), "'", "\"");
  }

  /** Off armatures and shape keys, only the quote fix-up precedes the
    * reading. */
  lemma ParsePlain(path: string, attr: string, data: Option<TargetData>)
    requires path == attr && Replace(attr, "'", "\"") == attr && ReadAttr(attr, "") == data
    ensures ParseTarget(path, false, false) == data
  {
  }

  /** Reading back the path of a named property of a pose bone gives the
    * bone, the property and the index. */
  lemma ParseBoneTarget(bone: string, name: string, index: int)
    requires PlainName(bone) && PlainName(name) && index >= -1
    ensures ParseTarget(TargetPath(BonePrefix(bone), name, index), true, false) == Some(TargetData(name, index, bone))
  {
    var attr := PropPath(name) + IndexSuffix(index);
    PathParts(BonePrefix(bone), name, index);
    WrittenNoApostrophe(name, index);
    BoneNoApostrophe(bone, attr);
    BoneSplit(bone, attr);
    StripBonePrefix(bone, attr);
    ReadWritten(name, index, bone);
    ParseBone(TargetPath(BonePrefix(bone), name, index), bone, attr, Some(TargetData(name, index, bone)));
  }

  /** On an armature the bone name and the attribute are read apart. */
  lemma ParseBone(path: string, bone: string, attr: string, data: Option<TargetData>)
    requires path == BonePrefix(bone) + attr && Replace(path, "'", "\"") == path
    requires |Split(path, "\"")| >= 2 && Split(path, "\"")[1] == bone
    requires StripBone(path) == attr && ReadAttr(attr, bone) == data
    ensures ParseTarget(path, true, false) == data
  {
  }

  /** The quote fix-up leaves a prefixed written attribute alone. */
  lemma BoneNoApostrophe(bone: string, attr: string)
    requires PlainName(bone) && '\'' !in attr
    ensures Replace(BonePrefix(bone) + attr, "'", "\"") == BonePrefix(bone) + attr
  {
    assert '\'' !in BonePrefix(bone) + attr;
    ReplaceAbsent(BonePrefix(bone) + attr, "'", "\"");
  }

  /** The bone name is the second '"'-separated part of a prefixed path. */
  lemma BoneSplit(bone: string, attr: string)
    requires PlainName(bone)
    ensures |Split(BonePrefix(bone) + attr, "\"")| >= 2 && Split(BonePrefix(bone) + attr, "\"")[1] == bone
  {
    var tail := "]." + attr;
    assert BonePrefix(bone) + attr == "pose.bones[" + "\"" + (bone + "\"" + tail);
    assert '"' !in "pose.bones[";
    SplitAfterPart("pose.bones[", "\"", bone + "\"" + tail);
    SplitAfterPart(bone, "\"", tail);
  }

  /** Cutting at the first ']' and dropping the '.' leaves the attribute. */
  lemma StripBonePrefix(bone: string, attr: string)
    requires PlainName(bone)
    ensures StripBone(BonePrefix(bone) + attr) == attr
  {
    var path := BonePrefix(bone) + attr;
    var head := "pose.bones[\"" + bone + "\"";
    assert path == head + "]" + ("." + attr);
    var q := |head|;
    assert HasAt(path, "]", q);
    forall p | 0 <= p < q
      ensures !HasAt(path, "]", p)
    {
      assert path[p] == head[p];
      assert path[p..p + 1][0] == path[p];
    }
    assert Find(path, "]") == q;
    assert From(path, q + 1) == "." + attr;
  }
}
