// PickWalk: walking a selection through a hierarchy of objects or bones
// (up to the parent, down to the first child, left/right to a sibling) and
// switching to the counterpart on the other side by renaming a left/right
// side identifier.

module PickWalk {
  import opened Wrappers
  import opened PyStr

  /** The side labels, paired by position. */
  const LeftIds: seq<string> := ["left", "lft", "lt", "lf", "l"]
  const RightIds: seq<string> := ["right", "rgt", "rt", "rg", "r"]

  /** The case variant tried in round `j`: as written, capitalized, upper. */
  function Cased(s: string, j: nat): string
  {
    if j == 1 then Capitalize(s) else if j == 2 then Upper(s) else s
  }

  predicate AllLower(s: string)
  {
    forall i :: 0 <= i < |s| ==> IsLowerChar(s[i])
  }

  /** `s` is written in case variant `j`. */
  predicate InCase(s: string, j: nat)
  {
    if j == 0 then AllLower(s)
    else if j == 1 then
      |s| > 0 && IsUpperChar(s[0]) && forall i :: 1 <= i < |s| ==> IsLowerChar(s[i])
    else forall i :: 0 <= i < |s| ==> IsUpperChar(s[i])
  }

  /** Every case variant of a lower-case label is in that case and lowers
    * back to the label. */
  lemma CasedInCase(s: string, j: nat)
    requires |s| > 0 && AllLower(s) && j < 3
    ensures InCase(Cased(s, j), j)
    ensures Lower(Cased(s, j)) == s
  {
    var c := Cased(s, j);
    forall i | 0 <= i < |s|
      ensures LowerChar(c[i]) == s[i]
    {
      if j == 1 && i > 0 {
        assert c[i] == Lower(s[1..])[i - 1];
      }
    }
    if j == 1 {
      forall i | 1 <= i < |s|
        ensures IsLowerChar(c[i])
      {
        assert c[i] == Lower(s[1..])[i - 1];
      }
    }
  }

  // ---------------------------------------------------------------------
  // Side identifiers
  // ---------------------------------------------------------------------

  /** The token searched for in position kind `k`: prefix `x_`, suffix
    * `_x` or embedded `_x_`. */
  function Form(x: string, k: nat): (t: string)
    ensures |t| > |x|
  {
    if k == 0 then x + "_" else if k == 1 then "_" + x else "_" + x + "_"
  }

  /** The label inside a token of kind `k`, without its underscores. */
  function Core(t: string, k: nat): string
    requires |t| >= 2
  {
    if k == 0 then t[..|t| - 1] else if k == 1 then t[1..] else t[1..|t| - 1]
  }

  /** The regular expression `.tok.`: the token occurs with one character
    * other than a line break on each side. */
  predicate Embedded(name: string, tok: string)
  {
    exists p :: 1 <= p && p + |tok| < |name| && HasAt(name, tok, p)
      && name[p - 1] != '\n' && name[p + |tok|] != '\n'
  }

  /** The token test for position kind `k`. */
  predicate Matches(name: string, tok: string, k: nat)
  {
    if k == 0 then StartsWith(name, tok)
    else if k == 1 then EndsWith(name, tok)
    else Embedded(name, tok)
  }

  /** One step of the search: label pair `i`, case `j`, position kind `k`;
    * the left token is tested before the right one. */
  function Check(name: string, i: nat, j: nat, k: nat): (r: Option<(string, string)>)
    requires i < 5 && j < 3 && k < 3
    ensures r.Some? ==> |r.value.0| >= 2 && |r.value.1| >= 2
  {
    var left := Form(Cased(LeftIds[i], j), k);
    var right := Form(Cased(RightIds[i], j), k);
    if Matches(name, left, k) then Some((left, right))
    else if Matches(name, right, k) then Some((right, left))
    else None
  }

  /** The nested search from step (i, j, k) on. */
  function Search(name: string, i: nat, j: nat, k: nat): (string, string)
    requires i <= 5 && j <= 3 && k <= 3
    decreases 5 - i, 3 - j, 3 - k
  {
    if i == 5 then ("", "")
    else if j == 3 then Search(name, i + 1, 0, 0)
    else if k == 3 then Search(name, i, j + 1, 0)
    else match Check(name, i, j, k)
      case Some(found) => found
      case None => Search(name, i, j, k + 1)
  }

  /** The found token and its opposite, or ("", "") when there is none. */
  function SideIdentifier(name: string): (string, string)
  {
    Search(name, 0, 0, 0)
  }

  /** The position of step (i, j, k) in the search order. */
  function Rank(i: nat, j: nat, k: nat): nat
  {
    9 * i + 3 * j + k
  }

  /** No step ranked in [lo, hi) finds a token. */
  predicate NoMatchBetween(name: string, lo: nat, hi: nat)
  {
    forall a: nat, b: nat, c: nat {:trigger Check(name, a, b, c)} :: a < 5 && b < 3 && c < 3 && lo <= Rank(a, b, c) < hi ==>
      Check(name, a, b, c).None?
  }

  lemma RankInjective(a: nat, b: nat, c: nat, i: nat, j: nat, k: nat)
    requires b < 3 && c < 3 && j < 3 && k < 3
    requires Rank(a, b, c) == Rank(i, j, k)
    ensures a == i && b == j && c == k
  {
  }

  /** A step without a match extends a stretch without matches downwards. */
  lemma NoMatchStep(name: string, i: nat, j: nat, k: nat, hi: nat)
    requires i < 5 && j < 3 && k < 3
    requires Check(name, i, j, k).None?
    requires NoMatchBetween(name, Rank(i, j, k) + 1, hi)
    ensures NoMatchBetween(name, Rank(i, j, k), hi)
  {
    forall a: nat, b: nat, c: nat | a < 5 && b < 3 && c < 3 && Rank(i, j, k) <= Rank(a, b, c) < hi
      ensures Check(name, a, b, c).None?
    {
      if Rank(a, b, c) == Rank(i, j, k) {
        RankInjective(a, b, c, i, j, k);
      }
    }
  }

  /** `r` is what a search starting at rank `lo` should return: the
    * result of the first matching step from `lo` on, or ("", "") when no
    * step from `lo` on matches. */
  predicate FirstFrom(name: string, r: (string, string), lo: nat)
  {
    (r == ("", "") ==> NoMatchBetween(name, lo, 45))
    && (r != ("", "") ==>
          exists a: nat, b: nat, c: nat :: a < 5 && b < 3 && c < 3
            && lo <= Rank(a, b, c)
            && Check(name, a, b, c) == Some(r)
            && NoMatchBetween(name, lo, Rank(a, b, c)))
  }

  /** A step without a match passes the first match on from the next rank. */
  lemma FirstFromSkip(name: string, i: nat, j: nat, k: nat, r: (string, string))
    requires i < 5 && j < 3 && k < 3
    requires Check(name, i, j, k).None?
    requires FirstFrom(name, r, Rank(i, j, k) + 1)
    ensures FirstFrom(name, r, Rank(i, j, k))
  {
    if r == ("", "") {
      NoMatchStep(name, i, j, k, 45);
    } else {
      var a: nat, b: nat, c: nat :| a < 5 && b < 3 && c < 3
        && Rank(i, j, k) + 1 <= Rank(a, b, c)
        && Check(name, a, b, c) == Some(r)
        && NoMatchBetween(name, Rank(i, j, k) + 1, Rank(a, b, c));
      NoMatchStep(name, i, j, k, Rank(a, b, c));
    }
  }

  /** The search from step (i, j, k) returns the first match at or after
    * it, or ("", "") when there is none. */
  lemma {:induction false} SearchFirst(name: string, i: nat, j: nat, k: nat)
    requires i <= 5 && j <= 3 && k <= 3
    requires j == 3 ==> k == 0
    requires i == 5 ==> j == 0 && k == 0
    ensures FirstFrom(name, Search(name, i, j, k), Rank(i, j, k))
    decreases 5 - i, 3 - j, 3 - k
  {
    if i == 5 {
    } else if j == 3 {
      SearchFirst(name, i + 1, 0, 0);
      assert Rank(i + 1, 0, 0) == Rank(i, j, k);
    } else if k == 3 {
      SearchFirst(name, i, j + 1, 0);
      assert Rank(i, j + 1, 0) == Rank(i, j, k);
    } else if Check(name, i, j, k).Some? {
      assert NoMatchBetween(name, Rank(i, j, k), Rank(i, j, k));
    } else {
      SearchFirst(name, i, j, k + 1);
      assert Rank(i, j, k + 1) == Rank(i, j, k) + 1;
      FirstFromSkip(name, i, j, k, Search(name, i, j, k + 1));
    }
  }

  /** A search with no match anywhere from step (i, j, k) on finds nothing. */
  lemma {:induction false} SearchNone(name: string, i: nat, j: nat, k: nat)
    requires i <= 5 && j <= 3 && k <= 3
    requires j == 3 ==> k == 0
    requires i == 5 ==> j == 0 && k == 0
    requires NoMatchBetween(name, Rank(i, j, k), 45)
    ensures Search(name, i, j, k) == ("", "")
    decreases 5 - i, 3 - j, 3 - k
  {
    if i == 5 {
    } else if j == 3 {
      assert Rank(i + 1, 0, 0) == Rank(i, j, k);
      SearchNone(name, i + 1, 0, 0);
    } else if k == 3 {
      assert Rank(i, j + 1, 0) == Rank(i, j, k);
      SearchNone(name, i, j + 1, 0);
    } else {
      assert Check(name, i, j, k).None?;
      assert Rank(i, j, k + 1) == Rank(i, j, k) + 1;
      SearchNone(name, i, j, k + 1);
    }
  }

  /** The result is that of the first step in search order that matches,
    * or ("", "") when no step matches. */
  lemma SideIdentifierFirst(name: string)
    ensures FirstFrom(name, SideIdentifier(name), 0)
  {
    SearchFirst(name, 0, 0, 0);
  }

  /** The labels are lower case; left labels start with 'l', right ones
    * with 'r'. */
  lemma LabelsLower(i: nat)
    requires i < 5
    ensures |LeftIds[i]| > 0 && AllLower(LeftIds[i]) && LeftIds[i][0] == 'l'
    ensures |RightIds[i]| > 0 && AllLower(RightIds[i]) && RightIds[i][0] == 'r'
  {
  }

  /** A token gives back its label. */
  lemma FormCore(x: string, k: nat)
    requires k < 3
    ensures |Form(x, k)| >= 2 ==> Core(Form(x, k), k) == x
  {
  }

  /** Both labels of pair `i` in case `j`: in that case, lowering back to
    * the labels, and different from each other. */
  lemma CasedPair(i: nat, j: nat)
    requires i < 5 && j < 3
    ensures InCase(Cased(LeftIds[i], j), j) && Lower(Cased(LeftIds[i], j)) == LeftIds[i]
    ensures InCase(Cased(RightIds[i], j), j) && Lower(Cased(RightIds[i], j)) == RightIds[i]
    ensures Cased(LeftIds[i], j) != Cased(RightIds[i], j)
  {
    LabelsLower(i);
    CasedInCase(LeftIds[i], j);
    CasedInCase(RightIds[i], j);
    var l := Cased(LeftIds[i], j);
    var r := Cased(RightIds[i], j);
    assert Lower(l)[0] != Lower(r)[0];
  }

  /** A step that finds a token returns it with its opposite: the same
    * position kind, the same case, the other label of the same pair. */
  lemma CheckShape(name: string, i: nat, j: nat, k: nat)
    requires i < 5 && j < 3 && k < 3
    requires Check(name, i, j, k).Some?
    ensures var (a, b) := Check(name, i, j, k).value;
      |a| >= 2 && |b| >= 2 && a != b
      && Matches(name, a, k)
      && a == Form(Core(a, k), k) && b == Form(Core(b, k), k)
      && InCase(Core(a, k), j) && InCase(Core(b, k), j)
      && ((Lower(Core(a, k)) == LeftIds[i] && Lower(Core(b, k)) == RightIds[i])
          || (Lower(Core(a, k)) == RightIds[i] && Lower(Core(b, k)) == LeftIds[i]))
  {
    var l := Cased(LeftIds[i], j);
    var r := Cased(RightIds[i], j);
    CasedPair(i, j);
    FormCore(l, k);
    FormCore(r, k);
  }

  /** The nested search over labels, cases and position kinds, returning
    * on the first match. */
  method FindSideIdentifier(name: string) returns (found: string, opposite: string)
    ensures (found, opposite) == SideIdentifier(name)
  {
    for i := 0 to 5
      invariant Search(name, i, 0, 0) == SideIdentifier(name)
    {
      for j := 0 to 3
        invariant Search(name, i, j, 0) == SideIdentifier(name)
      {
        var left := LeftIds[i];
        var right := RightIds[i];
        if j == 1 {
          left := Capitalize(left);
          right := Capitalize(right);
        } else if j == 2 {
          left := Upper(left);
          right := Upper(right);
        }
        var hit := MatchKinds(name, i, j, left, right);
        if hit.Some? {
          return hit.value.0, hit.value.1;
        }
      }
    }
    return "", "";
  }

  /** The innermost loop: prefix, suffix, then embedded, left before right. */
  method MatchKinds(name: string, i: nat, j: nat, left: string, right: string)
    returns (hit: Option<(string, string)>)
    requires i < 5 && j < 3
    requires left == Cased(LeftIds[i], j) && right == Cased(RightIds[i], j)
    ensures hit.Some? ==> hit.value == Search(name, i, j, 0)
    ensures hit.None? ==> Search(name, i, j, 0) == Search(name, i, j + 1, 0)
  {
    for k := 0 to 3
      invariant Search(name, i, j, k) == Search(name, i, j, 0)
    {
      var l := Form(left, k);
      var r := Form(right, k);
      if Matches(name, l, k) {
        return Some((l, r));
      } else if Matches(name, r, k) {
        return Some((r, l));
      }
    }
    return None;
  }

  /** The name with the side identifier swapped for its opposite, every
    * occurrence of it; an empty name, or one without an identifier, is
    * returned as it is (replacing "" by "" changes nothing). */
  function ReplaceSideIdentifier(name: string): string
  {
    if |name| == 0 then name
    else
      var (found, opposite) := SideIdentifier(name);
      if found == "" then name else Replace(name, found, opposite)
  }

  /** Every occurrence of the found token is swapped, not only the one the
    * search matched; nothing changes without a token. */
  lemma ReplaceEveryOccurrence(name: string)
    ensures var (found, opposite) := SideIdentifier(name);
      if found == "" then ReplaceSideIdentifier(name) == name
      else ReplaceSideIdentifier(name) == Join(Split(name, found), opposite)
  {
    var (found, opposite) := SideIdentifier(name);
    if found != "" {
      if |name| == 0 {
        SideIdentifierFirst(name);
        var a: nat, b: nat, c: nat :| a < 5 && b < 3 && c < 3
          && Check(name, a, b, c) == Some(SideIdentifier(name));
        CheckShape(name, a, b, c);
        assert false;
      }
      ReplaceSplitJoin(name, found, opposite);
    }
  }

  // ---------------------------------------------------------------------
  // Hierarchy steps
  // ---------------------------------------------------------------------

  /** What the selection holds: objects, or the bones of an armature in
    * pose or edit mode. */
  datatype Mode = ObjectMode | PoseMode | EditMode

  /** The items of the scene by index: parent, ordered children, unique
    * names and whether the item is an armature object. */
  datatype Hierarchy = Hierarchy(parent: seq<Option<nat>>, children: seq<seq<nat>>,
                                 names: seq<string>, armature: seq<bool>)
  {
    predicate Valid()
    {
      |children| == |parent| && |names| == |parent| && |armature| == |parent|
      && (forall o :: 0 <= o < |parent| && parent[o].Some? ==>
            parent[o].value < |parent| && o in children[parent[o].value])
      && (forall p, m :: 0 <= p < |children| && 0 <= m < |children[p]| ==>
            children[p][m] < |parent| && parent[children[p][m]] == Some(p))
      && (forall p, m, m' :: 0 <= p < |children| && 0 <= m < m' < |children[p]| ==>
            children[p][m] != children[p][m'])
      && (forall o, o' :: 0 <= o < o' < |names| ==> names[o] != names[o'])
    }
  }

  /** Python `s.index(x)`: the first position of `x`. */
  function Index(s: seq<nat>, x: nat): (r: nat)
    requires x in s
    ensures r < |s| && s[r] == x
    ensures forall m :: 0 <= m < r ==> s[m] != x
  {
    if s[0] == x then 0 else 1 + Index(s[1..], x)
  }

  /** Lookup by name: the item called `name`, if there is one. */
  function Lookup(names: seq<string>, name: string): (r: Option<nat>)
    ensures r.Some? ==> r.value < |names| && names[r.value] == name
    ensures r.None? <==> name !in names
  {
    if |names| == 0 then None
    else if names[0] == name then Some(0)
    else match Lookup(names[1..], name)
      case None => None
      case Some(m) => Some(m + 1)
  }

  /** `(index + direction) % count` with Python's modulo, which for a
    * positive count agrees with Dafny's. */
  function SiblingIndex(index: int, direction: int, count: nat): (r: nat)
    requires count > 0
    ensures r < count
  {
    (index + direction) % count
  }

  /** Stepping forward and then back, or back and then forward, returns to
    * the starting position. */
  lemma SiblingIndexInverse(index: nat, count: nat)
    requires index < count
    ensures SiblingIndex(SiblingIndex(index, 1, count), -1, count) == index
    ensures SiblingIndex(SiblingIndex(index, -1, count), 1, count) == index
  {
    if index + 1 < count {
      ModBelow(index + 1, count);
      ModBelow(index, count);
    } else {
      ModSelf(count);
      ModMinusOne(count);
    }
    if index > 0 {
      ModBelow(index - 1, count);
      ModBelow(index, count);
    } else {
      ModMinusOne(count);
      ModSelf(count);
    }
  }

  lemma ModBelow(x: int, n: int)
    requires 0 <= x < n
    ensures x % n == x
  {
  }

  lemma ModSelf(n: int)
    requires 0 < n
    ensures n % n == 0
  {
  }

  lemma ModMinusOne(n: int)
    requires 0 < n
    ensures (-1) % n == n - 1
  {
  }

  datatype Move = Up | Down | Sibling(next: bool) | Opposite

  /** The item is handled as part of an armature: every bone, and an
    * armature object in object mode. */
  predicate IsArmature(h: Hierarchy, mode: Mode, o: nat)
    requires h.Valid() && o < |h.parent|
  {
    mode != ObjectMode || h.armature[o]
  }

  /** The counterpart of an item on the other side; None stands for the
    * KeyError raised when no object carries the opposite name. Bones fall
    * back to the item itself, and so does an armature object outside edit
    * mode, which has no edit bones to search. */
  function OppositeOf(h: Hierarchy, mode: Mode, o: nat): (r: Option<nat>)
    requires h.Valid() && o < |h.parent|
    ensures r.Some? ==> r.value < |h.parent|
  {
    var found := Lookup(h.names, ReplaceSideIdentifier(h.names[o]));
    if !IsArmature(h, mode, o) then found
    else if mode == ObjectMode then Some(o)
    else if found.Some? then found
    else Some(o)
  }

  /** Where one selected item goes. */
  function Step(h: Hierarchy, mode: Mode, o: nat, move: Move): (r: Option<nat>)
    requires h.Valid() && o < |h.parent|
    ensures r.Some? ==> r.value < |h.parent|
  {
    match move
    case Up => Some(if h.parent[o].Some? then h.parent[o].value else o)
    case Down => Some(if |h.children[o]| > 0 then h.children[o][0] else o)
    case Sibling(next) =>
      (match h.parent[o]
       case None => Some(o)
       case Some(p) =>
         var siblings := h.children[p];
         Some(siblings[SiblingIndex(Index(siblings, o), if next then 1 else -1, |siblings|)]))
    case Opposite => OppositeOf(h, mode, o)
  }

  predicate InScene(h: Hierarchy, items: seq<nat>)
  {
    forall m :: 0 <= m < |items| ==> items[m] < |h.parent|
  }

  /** The step of every item, in order. */
  function Steps(h: Hierarchy, mode: Mode, order: seq<nat>, move: Move): (r: seq<Option<nat>>)
    requires h.Valid() && InScene(h, order)
    ensures |r| == |order|
    ensures forall k :: 0 <= k < |order| ==> r[k] == Step(h, mode, order[k], move)
  {
    seq(|order|, k requires 0 <= k < |order| => Step(h, mode, order[k], move))
  }

  /** The list built from the items and the results of their steps: with
    * `extend` each item is followed by where it goes, otherwise only where
    * it goes; None when a step fails. */
  function Chain(order: seq<nat>, steps: seq<Option<nat>>, extend: bool): Option<seq<nat>>
    requires |steps| == |order|
    decreases |order|
  {
    if |order| == 0 then Some([])
    else
      match Chain(order[..|order| - 1], steps[..|order| - 1], extend)
      case None => None
      case Some(front) =>
        match steps[|order| - 1]
        case None => None
        case Some(x) => Some(front + (if extend then [order[|order| - 1]] else []) + [x])
  }

  /** One more item extends the chain by that item and its step. */
  lemma ChainExtend(order: seq<nat>, steps: seq<Option<nat>>, extend: bool, i: nat)
    requires |steps| == |order| && i < |order|
    ensures Chain(order[..i + 1], steps[..i + 1], extend) ==
      match Chain(order[..i], steps[..i], extend)
      case None => None
      case Some(front) =>
        match steps[i]
        case None => None
        case Some(x) => Some(front + (if extend then [order[i]] else []) + [x])
  {
    assert order[..i + 1][..i] == order[..i] && steps[..i + 1][..i] == steps[..i];
  }

  /** The built list holds only items and step results. */
  lemma {:induction false} ChainInScene(h: Hierarchy, order: seq<nat>, steps: seq<Option<nat>>, extend: bool)
    requires |steps| == |order| && InScene(h, order)
    requires forall k :: 0 <= k < |steps| && steps[k].Some? ==> steps[k].value < |h.parent|
    ensures Chain(order, steps, extend).Some? ==> InScene(h, Chain(order, steps, extend).value)
    decreases |order|
  {
    if |order| > 0 {
      ChainInScene(h, order[..|order| - 1], steps[..|order| - 1], extend);
    }
  }

  /** The list of items to select: the items of `order` chained with
    * their steps. */
  function Walked(h: Hierarchy, mode: Mode, order: seq<nat>, move: Move, extend: bool): (r: Option<seq<nat>>)
    requires h.Valid() && InScene(h, order)
    ensures r.Some? ==> InScene(h, r.value)
  {
    ChainInScene(h, order, Steps(h, mode, order, move), extend);
    Chain(order, Steps(h, mode, order, move), extend)
  }

  lemma {:induction false} ChainShape(order: seq<nat>, steps: seq<Option<nat>>, extend: bool)
    requires |steps| == |order| && Chain(order, steps, extend).Some?
    ensures var objs := Chain(order, steps, extend).value;
      |objs| == (if extend then 2 * |order| else |order|)
      && (extend ==> forall k :: 0 <= k < |order| ==> objs[2 * k] == order[k] && Some(objs[2 * k + 1]) == steps[k])
      && (!extend ==> forall k :: 0 <= k < |order| ==> Some(objs[k]) == steps[k])
    decreases |order|
  {
    if |order| > 0 {
      var n := |order| - 1;
      var front, frontSteps := order[..n], steps[..n];
      ChainShape(front, frontSteps, extend);
      var objs := Chain(order, steps, extend).value;
      var prev := Chain(front, frontSteps, extend).value;
      assert objs == prev + (if extend then [order[n]] else []) + [steps[n].value];
      if extend {
        forall k | 0 <= k < |order|
          ensures objs[2 * k] == order[k] && Some(objs[2 * k + 1]) == steps[k]
        {
          if k < n {
            assert order[k] == front[k] && steps[k] == frontSteps[k];
            assert objs[2 * k] == prev[2 * k] && objs[2 * k + 1] == prev[2 * k + 1];
          }
        }
      } else {
        forall k | 0 <= k < |order|
          ensures Some(objs[k]) == steps[k]
        {
          if k < n {
            assert steps[k] == frontSteps[k] && objs[k] == prev[k];
          }
        }
      }
    }
  }

  /** The walked list keeps every original item when extending and puts
    * the step of item k right after it (or at position k without extend). */
  lemma WalkedShape(h: Hierarchy, mode: Mode, order: seq<nat>, move: Move, extend: bool)
    requires h.Valid() && InScene(h, order)
    requires Walked(h, mode, order, move, extend).Some?
    ensures var objs := Walked(h, mode, order, move, extend).value;
      |objs| == (if extend then 2 * |order| else |order|)
      && (extend ==> forall k :: 0 <= k < |order| ==>
            objs[2 * k] == order[k] && Some(objs[2 * k + 1]) == Step(h, mode, order[k], move))
      && (!extend ==> forall k :: 0 <= k < |order| ==> Some(objs[k]) == Step(h, mode, order[k], move))
  {
    ChainShape(order, Steps(h, mode, order, move), extend);
  }

  lemma {:induction false} ChainFails(order: seq<nat>, steps: seq<Option<nat>>, extend: bool)
    requires |steps| == |order|
    ensures Chain(order, steps, extend).None? <==> exists k :: 0 <= k < |steps| && steps[k].None?
    decreases |order|
  {
    if |order| > 0 {
      var n := |order| - 1;
      var frontSteps := steps[..n];
      ChainFails(order[..n], frontSteps, extend);
      if Chain(order, steps, extend).None? {
        if Chain(order[..n], frontSteps, extend).None? {
          var k :| 0 <= k < n && frontSteps[k].None?;
          assert steps[k] == frontSteps[k];
        } else {
          assert steps[n].None?;
        }
      } else {
        forall k | 0 <= k < |steps|
          ensures steps[k].Some?
        {
          if k < n {
            assert steps[k] == frontSteps[k];
          }
        }
      }
    }
  }

  /** A walk fails exactly when one of its steps fails. */
  lemma WalkedFails(h: Hierarchy, mode: Mode, order: seq<nat>, move: Move, extend: bool)
    requires h.Valid() && InScene(h, order)
    ensures Walked(h, mode, order, move, extend).None? <==>
      exists k :: 0 <= k < |order| && Step(h, mode, order[k], move).None?
  {
    var steps := Steps(h, mode, order, move);
    ChainFails(order, steps, extend);
    if exists k :: 0 <= k < |order| && Step(h, mode, order[k], move).None? {
      var k :| 0 <= k < |order| && Step(h, mode, order[k], move).None?;
      assert steps[k].None?;
    }
  }

  /** Only a switch of sides on a plain object can fail, and only when no
    * object carries the opposite name. */
  lemma StepFails(h: Hierarchy, mode: Mode, o: nat, move: Move)
    requires h.Valid() && o < |h.parent|
    ensures Step(h, mode, o, move).None? <==>
      move == Opposite && mode == ObjectMode && !h.armature[o]
      && ReplaceSideIdentifier(h.names[o]) !in h.names
  {
  }

  /** A name without a side identifier switches to the item itself. */
  lemma OppositePlain(h: Hierarchy, mode: Mode, o: nat)
    requires h.Valid() && o < |h.parent|
    requires SideIdentifier(h.names[o]) == ("", "")
    ensures Step(h, mode, o, Opposite) == Some(o)
  {
    var found := Lookup(h.names, h.names[o]);
    assert found.Some? && found.value == o;
  }

  /** A sibling step stays under the same parent, among its children. */
  lemma SiblingSameParent(h: Hierarchy, mode: Mode, o: nat, next: bool)
    requires h.Valid() && o < |h.parent|
    ensures var s := Step(h, mode, o, Sibling(next)).value;
      h.parent[s] == h.parent[o]
      && (h.parent[o].Some? ==> s in h.children[h.parent[o].value])
      && (h.parent[o].None? ==> s == o)
  {
  }

  /** The position of a child is its index among its parent's children. */
  lemma IndexOfChild(h: Hierarchy, p: nat, m: nat)
    requires h.Valid() && p < |h.children| && m < |h.children[p]|
    ensures Index(h.children[p], h.children[p][m]) == m
  {
    var i := Index(h.children[p], h.children[p][m]);
    if i > m {
      assert false;
    }
  }

  /** Walking right and then left, or left and then right, returns to the
    * starting item. */
  lemma SiblingRoundTrip(h: Hierarchy, mode: Mode, o: nat, next: bool)
    requires h.Valid() && o < |h.parent|
    ensures Step(h, mode, Step(h, mode, o, Sibling(next)).value, Sibling(!next)) == Some(o)
  {
    if h.parent[o].Some? {
      var p := h.parent[o].value;
      var siblings := h.children[p];
      var i := Index(siblings, o);
      var d := if next then 1 else -1;
      var m := SiblingIndex(i, d, |siblings|);
      var s := siblings[m];
      assert h.parent[s] == Some(p);
      IndexOfChild(h, p, m);
      SiblingIndexInverse(i, |siblings|);
    }
  }

  /** Walking down and then up returns to the item; an item without
    * children stays where it is. */
  lemma DownThenUp(h: Hierarchy, mode: Mode, o: nat)
    requires h.Valid() && o < |h.parent|
    ensures |h.children[o]| > 0 ==> Step(h, mode, Step(h, mode, o, Down).value, Up) == Some(o)
    ensures |h.children[o]| == 0 ==> Step(h, mode, o, Down) == Some(o)
  {
  }

  // ---------------------------------------------------------------------
  // The selection
  // ---------------------------------------------------------------------

  /** Selecting an armature object in object mode has no effect; every
    * other item can be selected. */
  predicate Selectable(h: Hierarchy, mode: Mode, o: nat)
    requires h.Valid() && o < |h.parent|
  {
    mode != ObjectMode || !h.armature[o]
  }

  function SelectedBy(h: Hierarchy, mode: Mode, objs: seq<nat>): set<nat>
    requires h.Valid() && InScene(h, objs)
  {
    set m | 0 <= m < |objs| && Selectable(h, mode, objs[m]) :: objs[m]
  }

  /** The active object after selecting `objs` in order: the last plain
    * object selected in object mode; bones leave it alone. */
  function ActiveAfter(h: Hierarchy, mode: Mode, active: Option<nat>, objs: seq<nat>): Option<nat>
    requires h.Valid() && InScene(h, objs)
  {
    if |objs| == 0 then active
    else if mode == ObjectMode && Selectable(h, mode, objs[|objs| - 1]) then Some(objs[|objs| - 1])
    else ActiveAfter(h, mode, active, objs[..|objs| - 1])
  }

  class Scene {
    const tree: Hierarchy
    const mode: Mode
    var selected: set<nat>
    var active: Option<nat>

    predicate Valid()
      reads this
    {
      tree.Valid() && forall o :: o in selected ==> o < |tree.parent|
    }

    constructor(h: Hierarchy, m: Mode)
      requires h.Valid()
      ensures Valid()
      ensures tree == h && mode == m && selected == {} && active == None
    {
      tree := h;
      mode := m;
      selected := {};
      active := None;
    }

    /** The loop that collects the items to select, stopping at the first
      * failing step. */
    method Collect(order: seq<nat>, move: Move, extend: bool) returns (objects: Option<seq<nat>>)
      requires tree.Valid() && InScene(tree, order)
      ensures objects == Walked(tree, mode, order, move, extend)
    {
      ghost var steps := Steps(tree, mode, order, move);
      var objs: seq<nat> := [];
      for i := 0 to |order|
        invariant Chain(order[..i], steps[..i], extend) == Some(objs)
      {
        var obj := order[i];
        ghost var before := objs;
        ChainExtend(order, steps, extend, i);
        if extend {
          objs := objs + [obj];
        }
        var next := Step(tree, mode, obj, move);
        assert next == steps[i];
        if next.None? {
          ChainFails(order, steps, extend);
          return None;
        }
        objs := objs + [next.value];
        assert objs == before + (if extend then [obj] else []) + [next.value];
      }
      assert order[..|order|] == order && steps[..|order|] == steps;
      return Some(objs);
    }

    /** Selects each item in order, making a plain object the active one. */
    method SelectObjects(objects: seq<nat>)
      requires Valid() && InScene(tree, objects)
      modifies this
      ensures Valid()
      ensures selected == old(selected) + SelectedBy(tree, mode, objects)
      ensures active == ActiveAfter(tree, mode, old(active), objects)
    {
      for i := 0 to |objects|
        invariant Valid()
        invariant selected == old(selected) + SelectedBy(tree, mode, objects[..i])
        invariant active == ActiveAfter(tree, mode, old(active), objects[..i])
      {
        var obj := objects[i];
        assert objects[..i + 1][..i] == objects[..i];
        if Selectable(tree, mode, obj) {
          selected := selected + {obj};
          if mode == ObjectMode {
            active := Some(obj);
          }
        }
        assert SelectedBy(tree, mode, objects[..i + 1])
          == SelectedBy(tree, mode, objects[..i]) + (if Selectable(tree, mode, obj) then {obj} else {});
      }
      assert objects[..|objects|] == objects;
    }

    /** Deselects everything, then selects the walked items; when a step
      * fails the selection stays empty. */
    method Walk(order: seq<nat>, move: Move, extend: bool) returns (ok: bool)
      requires Valid() && InScene(tree, order)
      requires forall o :: o in order <==> o in selected
      modifies this
      ensures Valid()
      ensures ok <==> Walked(tree, mode, order, move, extend).Some?
      ensures ok ==> selected == SelectedBy(tree, mode, Walked(tree, mode, order, move, extend).value)
      ensures ok ==> active == ActiveAfter(tree, mode, old(active), Walked(tree, mode, order, move, extend).value)
      ensures !ok ==> selected == {} && active == old(active)
    {
      selected := {};
      var objects := Collect(order, move, extend);
      if objects.None? {
        return false;
      }
      SelectObjects(objects.value);
      return true;
    }

    /** Selects the parent of every selected item (the item itself when it
      * has none). */
    method HierarchyUp(order: seq<nat>, extend: bool)
      requires Valid() && InScene(tree, order)
      requires forall o :: o in order <==> o in selected
      modifies this
      ensures Valid()
      ensures var walked := Walked(tree, mode, order, Up, extend);
        walked.Some? && selected == SelectedBy(tree, mode, walked.value)
    {
      var ok := Walk(order, Up, extend);
      StepsSucceed(order, Up, extend);
    }

    /** Selects the first child of every selected item (the item itself
      * when it has none). */
    method HierarchyDown(order: seq<nat>, extend: bool)
      requires Valid() && InScene(tree, order)
      requires forall o :: o in order <==> o in selected
      modifies this
      ensures Valid()
      ensures var walked := Walked(tree, mode, order, Down, extend);
        walked.Some? && selected == SelectedBy(tree, mode, walked.value)
    {
      var ok := Walk(order, Down, extend);
      StepsSucceed(order, Down, extend);
    }

    /** Selects the next or previous sibling, or with `switchSide` the item
      * named for the other side; fails when that object does not exist. */
    method SelectSibling(order: seq<nat>, next: bool, extend: bool, switchSide: bool) returns (ok: bool)
      requires Valid() && InScene(tree, order)
      requires forall o :: o in order <==> o in selected
      modifies this
      ensures Valid()
      ensures var move := if switchSide then Opposite else Sibling(next);
        (ok <==> Walked(tree, mode, order, move, extend).Some?)
        && (ok ==> selected == SelectedBy(tree, mode, Walked(tree, mode, order, move, extend).value))
        && (!ok ==> selected == {})
      ensures !switchSide ==> ok
    {
      var move := if switchSide then Opposite else Sibling(next);
      ok := Walk(order, move, extend);
      if !switchSide {
        StepsSucceed(order, move, extend);
      }
    }

    /** Walks that do not switch sides never fail. */
    lemma StepsSucceed(order: seq<nat>, move: Move, extend: bool)
      requires tree.Valid() && InScene(tree, order)
      requires move != Opposite
      ensures Walked(tree, mode, order, move, extend).Some?
    {
      WalkedFails(tree, mode, order, move, extend);
    }
  }
}
