// Version stamps and size limits of the RBF add-on (RBFNodes/core/utils.py).
// A node's version is stored as the JSON text of the add-on's version list;
// the JSON encoding and decoding of such a list are modelled here.

module RbfUtils {
  import opened Wrappers
  import opened PyStr

  /** The values per float array (`var.MAX_LEN`) and the number of arrays
    * (`var.NUM_ARRAYS`). */
  const MaxLen: nat := 32
  const NumArrays: nat := 32

  /** A decoded JSON value, as far as version stamps need it. */
  datatype Json = JNull | JList(items: seq<nat>) | JError

  function Digits(v: seq<nat>): (r: seq<string>)
    ensures |r| == |v| && forall k :: 0 <= k < |v| ==> r[k] == NatToString(v[k])
  {
    seq(|v|, k requires 0 <= k < |v| => NatToString(v[k]))
  }

  /** `json.dumps` of a list of naturals: `[1, 2, 3]`. */
  function Dumps(v: seq<nat>): string
  {
    "[" + Join(Digits(v), ", ") + "]"
  }

  predicate AllDigits(s: string)
  {
    forall k :: 0 <= k < |s| ==> IsDigit(s[k])
  }

  /** The items of a list body. */
  function ParseItems(parts: seq<string>): (r: Option<seq<nat>>)
    ensures r.Some? ==> |r.value| == |parts|
  {
    if parts == [] then Some([])
    else if parts[0] == "" || !AllDigits(parts[0]) then None
    else match ParseItems(parts[1..])
      case None => None
      case Some(rest) => Some([ParseNat(parts[0])] + rest)
  }

  /** `json.loads` on the texts a version field can hold: `null`, or a
    * list of naturals written as `Dumps` writes it; anything else is a
    * decoding error. */
  function Loads(s: string): Json
  {
    if s == "null" then JNull
    else if |s| >= 2 && s[0] == '[' && s[|s| - 1] == ']' then
      var body := s[1..|s| - 1];
      if body == "" then JList([])
      else match ParseItems(Split(body, ", "))
        case Some(v) => JList(v)
        case None => JError
    else JError
  }

  lemma {:induction false} ParseDigits(v: seq<nat>)
    ensures ParseItems(Digits(v)) == Some(v)
    decreases |v|
  {
    if v != [] {
      ParseDigits(v[1..]);
      assert Digits(v)[1..] == Digits(v[1..]);
      assert |Digits(v)[0]| > 0 && AllDigits(Digits(v)[0]);
      assert Digits(v)[0] != "";
      assert v == [v[0]] + v[1..];
      ParseNatToString(v[0]);
    }
  }

  lemma DigitsSepFree(v: seq<nat>, sep: string)
    requires |sep| > 0 && !IsDigit(sep[0])
    ensures SepFree(Digits(v), sep)
  {
    forall k | 0 <= k < |v|
      ensures sep[0] !in Digits(v)[k]
    {
      NatToStringDigits(v[k], sep[0]);
    }
  }

  /** Decoding gives back the encoded list. */
  lemma LoadsDumps(v: seq<nat>)
    ensures Loads(Dumps(v)) == JList(v)
  {
    var s := Dumps(v);
    var body := Join(Digits(v), ", ");
    assert s[1..|s| - 1] == body;
    if v == [] {
      assert body == "";
    } else {
      assert NatToString(v[0]) != "";
      assert body != "" by {
        JoinHead(Digits(v), ", ");
      }
      DigitsSepFree(v, ", ");
      SplitJoin(Digits(v), ", ");
      ParseDigits(v);
    }
  }

  lemma JoinHead(parts: seq<string>, sep: string)
    requires |parts| >= 1
    ensures |Join(parts, sep)| >= |parts[0]|
  {
  }

  /** `versionString`: the components joined with ".". */
  function VersionString(version: seq<nat>): string
  {
    Join(Digits(version), ".")
  }

  /** Splitting a version string at "." gives back its components. */
  lemma VersionStringSplits(version: seq<nat>)
    requires |version| >= 1
    ensures Split(VersionString(version), ".") == Digits(version)
  {
    DigitsSepFree(version, ".");
    SplitJoin(Digits(version), ".");
  }

  /** `setVersion`: the text stored on the node. */
  function SetVersion(addonVersion: seq<nat>): string
  {
    Dumps(addonVersion)
  }

  /** `getVersion`: nothing where `json.loads` or `versionString` would
    * raise. */
  function GetVersion(stored: string): Option<string>
  {
    match Loads(stored)
    case JList(v) => Some(VersionString(v))
    case _ => None
  }

  /** Reading the version back gives the add-on's version string. */
  lemma GetAfterSet(addonVersion: seq<nat>)
    ensures GetVersion(SetVersion(addonVersion)) == Some(VersionString(addonVersion))
  {
    LoadsDumps(addonVersion);
  }

  /** `verifyVersion`: false without a stored version or for `null`,
    * otherwise whether the stored major version is at most the add-on's.
    * Nothing where the source raises: undecodable text, or an empty
    * list. */
  function VerifyVersion(stored: Option<string>, addonVersion: seq<nat>): (r: Option<bool>)
    requires |addonVersion| >= 1
    ensures stored.None? || stored == Some("") ==> r == Some(false)
    ensures stored.Some? && stored != Some("") && Loads(stored.value).JList? && |Loads(stored.value).items| >= 1 ==>
              r == Some(Loads(stored.value).items[0] <= addonVersion[0])
    ensures stored.Some? && stored != Some("") && Loads(stored.value).JNull? ==> r == Some(false)
    ensures stored.Some? && stored != Some("") && Loads(stored.value).JError? ==> r.None?
    ensures stored.Some? && stored != Some("") && Loads(stored.value) == JList([]) ==> r.None?
  {
    if stored.None? || stored.value == "" then Some(false)
    else match Loads(stored.value)
      case JNull => Some(false)
      case JError => None
      case JList(v) => if |v| == 0 then None else Some(v[0] <= addonVersion[0])
  }

  /** A node stamped by the add-on passes the check, and so does a node
    * stamped by any version with the same or a lower major number. */
  lemma VerifyStamped(stamp: seq<nat>, addonVersion: seq<nat>)
    requires |stamp| >= 1 && |addonVersion| >= 1
    ensures VerifyVersion(Some(SetVersion(stamp)), addonVersion) == Some(stamp[0] <= addonVersion[0])
  {
    LoadsDumps(stamp);
    assert SetVersion(stamp)[0] == '[';
  }

  /** `getMaxSize`: the values the arrays of a matrix can hold. */
  function GetMaxSize(propertyCount: int): int
  {
    propertyCount * MaxLen
  }

  /** `math.ceil(a / b)` for a positive divisor. */
  function CeilDiv(a: int, b: nat): (r: int)
    requires b > 0
    ensures r * b >= a && (r - 1) * b < a
  {
    -((-a) / b)
  }

  /** `getArrayCount`: the arrays needed for the configured property
    * count, or `NUM_ARRAYS` when the configuration has none. */
  function GetArrayCount(propertyCount: Option<int>): (r: int)
    ensures propertyCount.None? ==> r == NumArrays
    ensures propertyCount.Some? ==> r * MaxLen >= propertyCount.value && (r - 1) * MaxLen < propertyCount.value
  {
    if propertyCount.Some? then CeilDiv(propertyCount.value, MaxLen) else NumArrays
  }
}
