// Property listings and property-path strings of the RBF nodes
// (RBFNodes/core/properties.py): which custom properties and node
// sockets can drive or be driven, and the path strings stored with a
// pose, together with their parsers on the recall side.

module RbfProperties {
  import opened Wrappers
  import opened PyStr
  import opened RbfPoses

  /** The kinds of value a custom (ID) property can hold. */
  datatype IdValue = IntValue(i: int) | FloatValue(f: real) | ListValue(items: seq<real>)
                   | IdArray(items: seq<real>) | OtherValue

  /** The default value of a node socket. */
  datatype PlugValue = NumberPlug(v: real) | ArrayPlug(items: seq<real>) | OtherPlug

  datatype Plug = Plug(name: string, value: PlugValue)

  /** A custom property is listed when its value is a number, a list or
    * an ID array and its key is not a substring of "_RNA_UI". */
  predicate Listed(key: string, value: IdValue)
  {
    !Contains("_RNA_UI", key) && !value.OtherValue?
  }

  /** The listed keys of the first `n` custom properties, in order. */
  function ListedKeys(keys: seq<(string, IdValue)>): (r: seq<string>)
    ensures |r| <= |keys|
  {
    if keys == [] then []
    else
      var last := keys[|keys| - 1];
      ListedKeys(keys[..|keys| - 1]) + (if Listed(last.0, last.1) then [last.0] else [])
  }

  /** A key is in the listing exactly when some property with that key
    * passes the test. */
  lemma {:induction false} ListedKeysMembers(keys: seq<(string, IdValue)>, key: string)
    ensures key in ListedKeys(keys) <==>
      exists k :: 0 <= k < |keys| && keys[k].0 == key && Listed(keys[k].0, keys[k].1)
    decreases |keys|
  {
    if keys != [] {
      var init := keys[..|keys| - 1];
      ListedKeysMembers(init, key);
      if key in ListedKeys(init) {
        var k :| 0 <= k < |init| && init[k].0 == key && Listed(init[k].0, init[k].1);
        assert keys[k] == init[k];
      }
      if exists k :: 0 <= k < |keys| && keys[k].0 == key && Listed(keys[k].0, keys[k].1) {
        var k :| 0 <= k < |keys| && keys[k].0 == key && Listed(keys[k].0, keys[k].1);
        if k < |keys| - 1 {
          assert init[k] == keys[k];
        }
      }
    }
  }

  /** `customProperties(obj)` over the object's (key, value) pairs. */
  method CustomProperties(keys: seq<(string, IdValue)>) returns (props: seq<string>)
    ensures props == ListedKeys(keys)
  {
    props := [];
    var i := 0;
    while i < |keys|
      invariant 0 <= i <= |keys|
      invariant props == ListedKeys(keys[..i])
    {
      assert keys[..i + 1][..i] == keys[..i];
      if Listed(keys[i].0, keys[i].1) {
        props := props + [keys[i].0];
      }
      i := i + 1;
    }
    assert keys[..|keys|] == keys;
  }

  /** The socket string of socket `i`: "inputs[i]" or "outputs[i]". */
  function SocketString(fromInput: bool, i: nat): string
  {
    (if fromInput then "inputs" else "outputs") + "[" + NatToString(i) + "]"
  }

  /** The numeric sockets among the first `n` plugs, each with its
    * socket string. */
  function NumericPlugs(plugs: seq<Plug>, fromInput: bool, n: nat): (r: seq<(string, string)>)
    requires n <= |plugs|
    ensures |r| <= n
  {
    if n == 0 then []
    else
      var entry := if plugs[n - 1].value.OtherPlug? then [] else [(plugs[n - 1].name, SocketString(fromInput, n - 1))];
      NumericPlugs(plugs, fromInput, n - 1) + entry
  }

  /** The entry names numeric plug i, among the first n, by its position. */
  predicate NamesPlug(plugs: seq<Plug>, fromInput: bool, n: nat, entry: (string, string))
    requires n <= |plugs|
  {
    exists i :: 0 <= i < n && !plugs[i].value.OtherPlug? && entry == (plugs[i].name, SocketString(fromInput, i))
  }

  /** Every listed socket names a numeric plug by its own position. */
  lemma {:induction false} NumericPlugsNamePositions(plugs: seq<Plug>, fromInput: bool, n: nat)
    requires n <= |plugs|
    ensures forall e :: e in NumericPlugs(plugs, fromInput, n) ==> NamesPlug(plugs, fromInput, n, e)
    decreases n
  {
    if n > 0 {
      NumericPlugsNamePositions(plugs, fromInput, n - 1);
      var prev := NumericPlugs(plugs, fromInput, n - 1);
      forall e | e in NumericPlugs(plugs, fromInput, n)
        ensures NamesPlug(plugs, fromInput, n, e)
      {
        if e in prev {
          assert NamesPlug(plugs, fromInput, n - 1, e);
          var i :| 0 <= i < n - 1 && !plugs[i].value.OtherPlug? && e == (plugs[i].name, SocketString(fromInput, i));
          assert 0 <= i < n;
        } else {
          assert e == (plugs[n - 1].name, SocketString(fromInput, n - 1));
          assert 0 <= n - 1 < n;
        }
      }
    }
  }

  /** The index written into a socket string is read back by `int()`. */
  lemma SocketStringIndex(fromInput: bool, i: nat)
    ensures var s := SocketString(fromInput, i);
      var items := Split(Slice(s, 0, -1), "[");
      |items| == 2 && items[1] == NatToString(i) && ParseNat(items[1]) == i
  {
    var name := if fromInput then "inputs" else "outputs";
    var digits := NatToString(i);
    var s := name + "[" + digits + "]";
    assert s == (name + "[" + digits) + [']'];
    DropLast(name + "[" + digits, ']');
    NatToStringDigits(i, '[');
    SplitPair(name, digits, "[");
    ParseNatToString(i);
  }

  /** `nodeProperties(node, fromInput)` over the node's input or output
    * sockets. */
  method NodeProperties(plugs: seq<Plug>, fromInput: bool) returns (props: seq<(string, string)>)
    ensures props == NumericPlugs(plugs, fromInput, |plugs|)
  {
    props := [];
    var i := 0;
    while i < |plugs|
      invariant 0 <= i <= |plugs|
      invariant props == NumericPlugs(plugs, fromInput, i)
    {
      if !plugs[i].value.OtherPlug? {
        props := props + [(plugs[i].name, SocketString(fromInput, i))];
      }
      i := i + 1;
    }
  }

  // ------------------------------------------------------------------
  // Custom property paths.
  // ------------------------------------------------------------------

  /** The path of a plain custom property: property:["name"]. */
  function CustomPath(name: string): string
  {
    "property:[\"" + name + "\"]"
  }

  /** The path of element i of an array custom property:
    * property:["name"][i]. */
  function CustomIndexPath(name: string, i: nat): string
  {
    "property:[\"" + name + "\"][" + NatToString(i) + "]"
  }

  /** `obj[name]`: the value of the first property with that key. */
  function Lookup(keys: seq<(string, IdValue)>, name: string): Option<IdValue>
  {
    if keys == [] then None
    else if keys[0].0 == name then Some(keys[0].1)
    else Lookup(keys[1..], name)
  }

  lemma {:induction false} LookupListed(keys: seq<(string, IdValue)>, name: string)
    requires name in ListedKeys(keys)
    ensures Lookup(keys, name).Some?
    decreases |keys|
  {
    ListedKeysMembers(keys, name);
    var k :| 0 <= k < |keys| && keys[k].0 == name && Listed(keys[k].0, keys[k].1);
    if keys[0].0 != name {
      ListedKeysMembers(keys[1..], name);
      assert keys[1..][k - 1] == keys[k];
      LookupListed(keys[1..], name);
    }
  }

  /** `expandProperty(obj, name)`: nothing for a name that is not a listed
    * custom property; one indexed path per element of an ID array; one
    * plain path otherwise. */
  function ExpandProperty(keys: seq<(string, IdValue)>, name: string): (r: seq<(string, IdValue)>)
    ensures name !in ListedKeys(keys) ==> r == []
    ensures name in ListedKeys(keys) && Lookup(keys, name).Some? && Lookup(keys, name).value.IdArray? ==>
      var items := Lookup(keys, name).value.items;
      |r| == |items| && forall i :: 0 <= i < |items| ==> r[i] == (CustomIndexPath(name, i), FloatValue(items[i]))
    ensures name in ListedKeys(keys) && Lookup(keys, name).Some? && !Lookup(keys, name).value.IdArray? ==>
      r == [(CustomPath(name), Lookup(keys, name).value)]
  {
    if name in ListedKeys(keys) then
      LookupListed(keys, name);
      var value := Lookup(keys, name).value;
      if value.IdArray? then
        seq(|value.items|, i requires 0 <= i < |value.items| => (CustomIndexPath(name, i), FloatValue(value.items[i])))
      else [(CustomPath(name), value)]
    else []
  }

  /** The bracketed, quoted name `["name"` followed by anything has no
    * "][" starting inside the bracketed part, unless the name has one. */
  lemma QuotedHasNoSeparator(name: string, rest: string)
    requires !Contains(name, "][")
    ensures forall p :: 0 <= p < |name| + 3 ==> !HasAt("[\"" + name + "\"" + rest, "][", p)
  {
    var s := "[\"" + name + "\"" + rest;
    forall p | 0 <= p < |name| + 3
      ensures !HasAt(s, "][", p)
    {
      if p + 2 <= |s| {
        assert s[p..p + 2] == [s[p], s[p + 1]];
        if p == 0 || p == 1 || p == |name| + 2 {
          assert s[p] != ']';
        } else if p == |name| + 1 {
          assert s[p + 1] == '"';
        } else {
          assert s[p] == name[p - 2] && s[p + 1] == name[p - 1];
          assert name[p - 2..p] == [name[p - 2], name[p - 1]];
          assert !HasAt(name, "][", p - 2);
        }
      }
    }
  }

  /** Round trip: recalling a plain custom-property path names the same
    * property, when the name has no "][". */
  lemma RecallCustomPath(objString: string, name: string, valueText: string)
    requires !Contains(name, "][")
    ensures RecallCustom(objString, CustomPath(name), valueText) == objString + "[\"" + name + "\"] = " + valueText
  {
    var a := "[\"" + name + "\"";
    assert CustomPath(name) == "property:" + (a + "]");
    FromPrefix("property:", a + "]");
    DropLast(a, ']');
    QuotedHasNoSeparator(name, "");
    assert a + "" == a;
    SplitWhole(a, "][");
    assert a[2..|a| - 1] == name;
  }

  /** Round trip: recalling the path of array element i names the same
    * property and the same index, when the name has no "][". */
  lemma RecallCustomIndexPath(objString: string, name: string, i: nat, valueText: string)
    requires !Contains(name, "][")
    ensures RecallCustom(objString, CustomIndexPath(name, i), valueText) ==
      objString + "[\"" + name + "\"][" + NatToString(i) + "] = " + valueText
  {
    var a := "[\"" + name + "\"";
    var digits := NatToString(i);
    assert CustomIndexPath(name, i) == "property:" + ((a + "][" + digits) + "]");
    FromPrefix("property:", (a + "][" + digits) + "]");
    DropLast(a + "][" + digits, ']');
    NatToStringDigits(i, ']');
    IndexPathSplit(name, digits);
    assert a[2..|a| - 1] == name;
  }

  /** The quoted name and the digits are the two pieces of an index
    * path's body. */
  lemma IndexPathSplit(name: string, digits: string)
    requires !Contains(name, "][") && ']' !in digits
    ensures Split(("[\"" + name + "\"") + "][" + digits, "][") == ["[\"" + name + "\"", digits]
  {
    var a := "[\"" + name + "\"";
    QuotedHasNoSeparator(name, "][" + digits);
    assert a + "][" + digits == "[\"" + name + "\"" + ("][" + digits);
    SplitPrefix(a, "][", digits);
    SplitWithoutChar(digits, "][");
  }

  // ------------------------------------------------------------------
  // Node socket paths.
  // ------------------------------------------------------------------

  /** The path stored for a node socket: <node>:<plug>.default_value. */
  function NodePath(nodeString: string, plugString: string): string
  {
    nodeString + ":" + plugString + ".default_value"
  }

  /** `expandNodeProperty(nodeString, plugString)`: one entry per array
    * element, all with the same path, or a single entry. */
  function ExpandNodeProperty(nodeString: string, plugString: string, value: PlugValue): (r: seq<(string, PlugValue)>)
    ensures value.ArrayPlug? ==> |r| == |value.items|
    ensures value.ArrayPlug? ==>
      forall j :: 0 <= j < |r| ==> r[j] == (NodePath(nodeString, plugString), NumberPlug(value.items[j]))
    ensures !value.ArrayPlug? ==> r == [(NodePath(nodeString, plugString), value)]
  {
    if value.ArrayPlug? then
      seq(|value.items|, j requires 0 <= j < |value.items| => (NodePath(nodeString, plugString), NumberPlug(value.items[j])))
    else [(NodePath(nodeString, plugString), value)]
  }

  /** Round trip: the `split(":")` of the pose-data getters recovers the
    * node path and the socket path when neither contains ":". */
  lemma NodePathSplits(nodeString: string, plugString: string)
    requires ':' !in nodeString && ':' !in plugString
    ensures Split(NodePath(nodeString, plugString), ":") == [nodeString, plugString + ".default_value"]
  {
    assert NodePath(nodeString, plugString) == nodeString + ":" + (plugString + ".default_value");
    assert ':' !in ".default_value";
    SplitPair(nodeString, plugString + ".default_value", ":");
  }
}
