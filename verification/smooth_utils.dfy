// The helpers of Smooth Weights (smoothWeights/utils.py): clamping, the
// left/right swap of a name, the count labels of the panel, the sorting
// and limiting of a vertex's group weights, and the groups a filter mode
// leaves alone.

module SmoothUtils {
  import opened Wrappers
  import opened PyStr

  /** `clamp`: `max(min(value, maxVal), minVal)`. */
  function Clamp(value: real, minVal: real, maxVal: real): (r: real)
    ensures minVal <= maxVal ==> minVal <= r <= maxVal
    ensures minVal <= value <= maxVal ==> r == value
    ensures r >= minVal
  {
    var m := if value < maxVal then value else maxVal;
    if m > minVal then m else minVal
  }

  // ---------------------------------------------------------------------
  // Side identifiers
  // ---------------------------------------------------------------------

  /** The side labels in search order (`SIDE_LABELS` of
    * smoothWeights/constants.py), each label lower case, capitalised and
    * upper case, paired with its counterpart in the same case. */
  const SidePairs: seq<(string, string)> := [
    ("left", "right"), ("Left", "Right"), ("LEFT", "RIGHT"),
    ("lt", "rt"), ("Lt", "Rt"), ("LT", "RT"),
    ("lft", "rgt"), ("Lft", "Rgt"), ("LFT", "RGT"),
    ("lf", "rg"), ("Lf", "Rg"), ("LF", "RG"),
    ("l", "r"), ("L", "R"), ("L", "R")
  ]

  /** The delimiters tried, in order. */
  const Delimiters: seq<string> := [".", "_", "-"]

  /** The first pair, from position k on, that a word equals on either
    * side; the counterpart of the word. */
  function OppositeFrom(w: string, k: nat): (r: Option<string>)
    decreases |SidePairs| - k
  {
    if k >= |SidePairs| then None
    else if w == SidePairs[k].0 then Some(SidePairs[k].1)
    else if w == SidePairs[k].1 then Some(SidePairs[k].0)
    else OppositeFrom(w, k + 1)
  }

  /** The counterpart of a side label, or nothing for any other word. */
  function Opposite(w: string): Option<string>
  {
    OppositeFrom(w, 0)
  }

  /** Labels and counterparts contain no delimiter. */
  lemma {:induction false} OppositePlain(w: string, k: nat)
    requires OppositeFrom(w, k).Some?
    ensures forall c :: c in OppositeFrom(w, k).value ==> c != '.' && c != '_' && c != '-'
    decreases |SidePairs| - k
  {
    if w != SidePairs[k].0 && w != SidePairs[k].1 {
      OppositePlain(w, k + 1);
    }
  }

  /** The last word, scanning from the end, that is a side label. */
  function LastMatch(words: seq<string>): (r: Option<nat>)
    ensures r.Some? ==> r.value < |words| && Opposite(words[r.value]).Some? &&
                        forall j :: r.value < j < |words| ==> Opposite(words[j]).None?
    ensures r.None? ==> forall j :: 0 <= j < |words| ==> Opposite(words[j]).None?
  {
    if words == [] then None
    else if Opposite(words[|words| - 1]).Some? then Some(|words| - 1)
    else LastMatch(words[..|words| - 1])
  }

  /** The search from the delimiter at position di on. */
  function ReplaceFrom(name: string, di: nat): string
    decreases |Delimiters| - di
  {
    if di >= |Delimiters| then name
    else
      var words := Split(name, Delimiters[di]);
      match LastMatch(words)
      case Some(i) => Join(words[i := Opposite(words[i]).value], Delimiters[di])
      case None => ReplaceFrom(name, di + 1)
  }

  /** `replaceSideIdentifier`. */
  function ReplaceSideIdentifier(name: string): string
  {
    ReplaceFrom(name, 0)
  }

  /** Splitting at a one-character separator leaves no separator in any
    * part. */
  lemma {:induction false} SplitPartsFree(s: string, sep: string)
    requires |sep| == 1
    ensures SepFree(Split(s, sep), sep)
    decreases |s|
  {
    if |s| >= |sep| {
      if s[..1] == sep {
        SplitPartsFree(s[|sep|..], sep);
      } else {
        SplitPartsFree(s[1..], sep);
        assert s[0] != sep[0] by {
          assert s[..1][0] == s[0];
        }
      }
    }
  }

  /** Either nothing matches and the name is returned as it is, or one
    * delimiter and one word are found: the name, split at that
    * delimiter, has exactly that word swapped for its counterpart and
    * every other word and delimiter kept. */
  lemma {:induction false} ReplaceOneWord(name: string, di: nat)
    requires di <= |Delimiters|
    ensures var r := ReplaceFrom(name, di);
            r == name ||
            exists d: nat, i: nat :: di <= d < |Delimiters| && i < |Split(name, Delimiters[d])| &&
              Opposite(Split(name, Delimiters[d])[i]).Some? &&
              Split(r, Delimiters[d]) == Split(name, Delimiters[d])[i := Opposite(Split(name, Delimiters[d])[i]).value]
    decreases |Delimiters| - di
  {
    if di < |Delimiters| {
      var sep := Delimiters[di];
      var words := Split(name, sep);
      match LastMatch(words)
      case Some(i) =>
        var opp := Opposite(words[i]).value;
        var swapped := words[i := opp];
        SplitPartsFree(name, sep);
        OppositePlain(words[i], 0);
        assert sep[0] == '.' || sep[0] == '_' || sep[0] == '-';
        assert SepFree(swapped, sep);
        SplitJoin(swapped, sep);
        assert Split(ReplaceFrom(name, di), sep) == swapped;
        assert di <= di < |Delimiters| && i < |Split(name, Delimiters[di])| &&
               Opposite(Split(name, Delimiters[di])[i]).Some? &&
               Split(ReplaceFrom(name, di), Delimiters[di]) == Split(name, Delimiters[di])[i := Opposite(Split(name, Delimiters[di])[i]).value];
      case None =>
        ReplaceOneWord(name, di + 1);
    }
  }

  /** A name in which no word, at any delimiter, is a side label is
    * returned unchanged. */
  lemma NoLabelUnchanged(name: string)
    requires forall d :: 0 <= d < |Delimiters| ==> LastMatch(Split(name, Delimiters[d])).None?
    ensures ReplaceSideIdentifier(name) == name
  {
    assert ReplaceFrom(name, 2) == name by {
      assert LastMatch(Split(name, Delimiters[2])).None?;
      assert ReplaceFrom(name, 3) == name;
    }
    assert LastMatch(Split(name, Delimiters[1])).None?;
    assert LastMatch(Split(name, Delimiters[0])).None?;
  }

  // ---------------------------------------------------------------------
  // Count labels
  // ---------------------------------------------------------------------

  /** A count: a single number, or a list of numbers of which the second
    * decides the plural. */
  datatype Count = One(n: int) | Several(ns: seq<int>)

  function IntStrings(ns: seq<int>): (r: seq<string>)
    ensures |r| == |ns| && forall i :: 0 <= i < |ns| ==> r[i] == IntToString(ns[i])
  {
    seq(|ns|, i requires 0 <= i < |ns| => IntToString(ns[i]))
  }

  /** `pluralize`: the count, a space, the (prefixed) label and an "s"
    * when the deciding number exceeds one. Nothing for a list of fewer
    * than two numbers, where the source raises. */
  function Pluralize(count: Count, s: string, prefix: string): (r: Option<string>)
    ensures count.One? ==> r.Some?
    ensures count.Several? ==> (r.Some? <==> |count.ns| >= 2)
    ensures r.Some? ==>
              var countStr := if count.One? then IntToString(count.n) else Join(IntStrings(count.ns), "/");
              var text := if |prefix| > 0 then prefix + " " + s else s;
              var num := if count.One? then count.n else count.ns[1];
              StartsWith(r.value, countStr + " " + text) &&
              |r.value| == |countStr| + 1 + |text| + (if num > 1 then 1 else 0) &&
              (num > 1 ==> r.value[|r.value| - 1] == 's')
  {
    if count.Several? && |count.ns| < 2 then None
    else
      var countStr := if count.One? then IntToString(count.n) else Join(IntStrings(count.ns), "/");
      var num := if count.One? then count.n else count.ns[1];
      var text := if |prefix| > 0 then Join([prefix, s], " ") else s;
      assert [prefix, s][1..] == [s] && Join([s], " ") == s;
      assert text == if |prefix| > 0 then prefix + " " + s else s;
      var head := countStr + " " + text;
      if num > 1 then
        assert (head + "s")[..|head|] == head;
        Some(head + "s")
      else
        assert head[..|head|] == head;
        Some(head)
  }

  lemma IntStringNoSlash(i: int)
    ensures '/' !in IntToString(i)
  {
    if i < 0 {
      NatToStringDigits(-i, '/');
    } else {
      NatToStringDigits(i, '/');
    }
  }

  /** The numbers of a list count can be read back from its text. */
  lemma CountStringSplits(ns: seq<int>)
    requires |ns| >= 1
    ensures Split(Join(IntStrings(ns), "/"), "/") == IntStrings(ns)
  {
    forall k | 0 <= k < |ns|
      ensures '/' !in IntStrings(ns)[k]
    {
      IntStringNoSlash(ns[k]);
    }
    SplitJoin(IntStrings(ns), "/");
  }

  // ---------------------------------------------------------------------
  // sortDict
  // ---------------------------------------------------------------------

  /** A dictionary entry: a group index and its weight. */
  type Entry = (nat, real)

  /** a comes strictly before b in the sort order. */
  predicate Precedes(a: Entry, b: Entry, reverse: bool)
  {
    if reverse then a.1 > b.1 else a.1 < b.1
  }

  predicate SortedBy(s: seq<Entry>, reverse: bool)
  {
    forall i, j :: 0 <= i < j < |s| ==> !Precedes(s[j], s[i], reverse)
  }

  /** Insertion of an entry in front of every entry that does not
    * precede it. */
  function Insert(x: Entry, s: seq<Entry>, reverse: bool): (r: seq<Entry>)
    requires SortedBy(s, reverse)
    ensures SortedBy(r, reverse)
    ensures multiset(r) == multiset(s) + multiset{x}
    ensures forall e :: e in r ==> e == x || e in s
  {
    if s == [] then [x]
    else if Precedes(s[0], x, reverse) then
      var rest := Insert(x, s[1..], reverse);
      assert forall e :: e in rest ==> !Precedes(e, s[0], reverse);
      assert s == [s[0]] + s[1..];
      [s[0]] + rest
    else
      [x] + s
  }

  /** Python's `sorted` by weight (descending with `reverse`). */
  function SortEntries(s: seq<Entry>, reverse: bool): (r: seq<Entry>)
    ensures SortedBy(r, reverse)
    ensures multiset(r) == multiset(s)
  {
    if s == [] then []
    else
      assert s == [s[0]] + s[1..];
      Insert(s[0], SortEntries(s[1..], reverse), reverse)
  }

  /** The limiting pass over sorted entries with `budget` places left for
    * groups outside `skip`. */
  function Limited(s: seq<Entry>, budget: int, skip: seq<nat>): seq<Entry>
  {
    if s == [] then []
    else if s[0].0 in skip then [s[0]] + Limited(s[1..], budget, skip)
    else if budget > 0 then [s[0]] + Limited(s[1..], budget - 1, skip)
    else Limited(s[1..], budget, skip)
  }

  lemma LimitedAt(s: seq<Entry>, i: nat, budget: int, skip: seq<nat>)
    requires i < |s|
    ensures Limited(s[i..], budget, skip) ==
            if s[i].0 in skip then [s[i]] + Limited(s[i + 1..], budget, skip)
            else if budget > 0 then [s[i]] + Limited(s[i + 1..], budget - 1, skip)
            else Limited(s[i + 1..], budget, skip)
  {
    assert s[i..][0] == s[i] && s[i..][1..] == s[i + 1..];
  }

  lemma AppendShift(r: seq<Entry>, x: Entry, rest: seq<Entry>)
    ensures r + ([x] + rest) == (r + [x]) + rest
  {
  }

  /** The limiting loop of `sortDict` over already sorted entries: a
    * counter of the entries of groups outside `skip` taken so far. */
  method Limit(sorted: seq<Entry>, maxCount: int, skip: seq<nat>) returns (r: seq<Entry>)
    ensures r == Limited(sorted, maxCount, skip)
  {
    r := [];
    var counter := 0;
    var i := 0;
    while i < |sorted|
      invariant 0 <= i <= |sorted|
      invariant r + Limited(sorted[i..], maxCount - counter, skip) == Limited(sorted, maxCount, skip)
    {
      var rest := maxCount - counter;
      LimitedAt(sorted, i, rest, skip);
      if sorted[i].0 !in skip {
        if counter < maxCount {
          AppendShift(r, sorted[i], Limited(sorted[i + 1..], rest - 1, skip));
          r := r + [sorted[i]];
          counter := counter + 1;
        }
      } else {
        AppendShift(r, sorted[i], Limited(sorted[i + 1..], rest, skip));
        r := r + [sorted[i]];
      }
      i := i + 1;
    }
    assert sorted[i..] == [];
  }

  /** `sortDict`: the entries sorted by weight; with a `maxCount`, every
    * entry of a group in `skipIndices` and the first `maxCount` of the
    * others, in sorted order. */
  method SortDict(data: seq<Entry>, reverse: bool, maxCount: Option<int>, skip: seq<nat>) returns (r: seq<Entry>)
    ensures maxCount.None? ==> r == SortEntries(data, reverse)
    ensures maxCount.Some? ==> r == Limited(SortEntries(data, reverse), maxCount.value, skip)
  {
    var sorted := SortEntries(data, reverse);
    if maxCount.None? {
      r := sorted;
    } else {
      r := Limit(sorted, maxCount.value, skip);
    }
  }

  /** The entries of groups outside `skip`, in order. */
  function Others(s: seq<Entry>, skip: seq<nat>): seq<Entry>
  {
    if s == [] then [] else (if s[0].0 in skip then [] else [s[0]]) + Others(s[1..], skip)
  }

  /** The entries of groups in `skip`, in order. */
  function Kept(s: seq<Entry>, skip: seq<nat>): seq<Entry>
  {
    if s == [] then [] else (if s[0].0 in skip then [s[0]] else []) + Kept(s[1..], skip)
  }

  /** Limiting keeps every entry of a skipped group, and of the others
    * exactly the first `budget` (none for a budget below one). */
  lemma {:induction false} LimitedSplit(s: seq<Entry>, budget: int, skip: seq<nat>)
    ensures Kept(Limited(s, budget, skip), skip) == Kept(s, skip)
    ensures var n := if budget < 0 then 0 else if budget > |Others(s, skip)| then |Others(s, skip)| else budget;
            Others(Limited(s, budget, skip), skip) == Others(s, skip)[..n]
    decreases |s|
  {
    if s != [] {
      LimitedSplit(s[1..], budget, skip);
      LimitedSplit(s[1..], budget - 1, skip);
      var l := Limited(s, budget, skip);
      if s[0].0 in skip || budget > 0 {
        assert l[0] == s[0] && l[1..] == Limited(s[1..], if s[0].0 in skip then budget else budget - 1, skip);
      }
    }
  }

  /** The groups a filter mode does not affect
    * (`getUnaffectedGroupIndices`), given for each vertex group whether
    * its name is a deforming bone: none for "ALL", the non-deforming
    * groups for "DEFORM", the deforming groups for any other mode. */
  function GetUnaffectedGroupIndices(mode: string, isDeform: seq<bool>): (r: set<nat>)
    ensures mode == "ALL" ==> r == {}
    ensures mode == "DEFORM" ==> forall i: nat :: i in r <==> i < |isDeform| && !isDeform[i]
    ensures mode != "ALL" && mode != "DEFORM" ==> forall i: nat :: i in r <==> i < |isDeform| && isDeform[i]
  {
    if mode == "ALL" then {}
    else
      var deform := mode == "DEFORM";
      set i: nat | i < |isDeform| && (if !deform then isDeform[i] else !isDeform[i])
  }
}
