// The weight arithmetic of one smoothing step of Smooth Weights
// (`computeWeights` in smoothWeights.py): averaging with the connected
// vertices, the limit on the number of influencing groups, and the
// normalisation; plus the limits of an interactively set brush value.
//
// A vertex's weights are a list indexed by vertex group, entry g holding
// the pair (weight, g), as `vertexWeights` builds it.

module SmoothLimits {
  import opened SmoothUtils

  /** (weight, group index) */
  type GroupWeight = (real, nat)

  /** Entry g of the list belongs to group g. */
  predicate ByGroup(ws: seq<GroupWeight>)
  {
    forall g :: 0 <= g < |ws| ==> ws[g].1 == g
  }

  predicate InUnit(x: real)
  {
    0.0 <= x <= 1.0
  }

  predicate AllInUnit(ws: seq<GroupWeight>)
  {
    forall g :: 0 <= g < |ws| ==> InUnit(ws[g].0)
  }

  /** The groups with a non-zero weight. */
  function NonZero(ws: seq<GroupWeight>): set<nat>
  {
    set g: nat | g < |ws| && ws[g].0 != 0.0
  }

  // ---------------------------------------------------------------------
  // Averaging
  // ---------------------------------------------------------------------

  /** A connected weight blended with the vertex's own weight. */
  function Blend(n: real, m: real, own: real): real
  {
    n * m + own * (1.0 - m)
  }

  /** The sum, over the connected vertices, of the connected weight
    * blended with the vertex's own weight by the per-neighbour factor. */
  function BlendSum(own: real, ns: seq<real>, mults: seq<real>): real
    requires |ns| == |mults|
  {
    if ns == [] then 0.0
    else
      var k := |ns| - 1;
      BlendSum(own, ns[..k], mults[..k]) + Blend(ns[k], mults[k], own)
  }

  /** The weights group g has in the connected vertices. */
  function Column(neighbours: seq<seq<GroupWeight>>, g: nat): (r: seq<real>)
    requires forall c :: 0 <= c < |neighbours| ==> g < |neighbours[c]|
    ensures |r| == |neighbours| && forall c :: 0 <= c < |neighbours| ==> r[c] == neighbours[c][g].0
  {
    seq(|neighbours|, c requires 0 <= c < |neighbours| => neighbours[c][g].0)
  }

  /** The averaged weight of one group: a locked group, or a vertex with
    * no connected vertices, keeps its own weight. */
  function AveragedWeight(own: real, ns: seq<real>, mults: seq<real>, locked: bool): real
    requires |ns| == |mults|
  {
    if |ns| > 0 && !locked then BlendSum(own, ns, mults) / (|ns| as real) else own
  }

  lemma ProductNonNegative(a: real, b: real)
    requires a >= 0.0 && b >= 0.0
    ensures a * b >= 0.0
  {
  }

  lemma BlendInUnit(n: real, m: real, own: real)
    requires InUnit(n) && InUnit(m) && InUnit(own)
    ensures InUnit(Blend(n, m, own))
  {
    ProductNonNegative(n, m);
    ProductNonNegative(1.0 - n, m);
    ProductNonNegative(own, 1.0 - m);
    ProductNonNegative(1.0 - own, 1.0 - m);
  }

  /** Weights and factors in [0, 1] give a blended sum between 0 and the
    * number of connected vertices. */
  lemma {:induction false} BlendSumBounds(own: real, ns: seq<real>, mults: seq<real>)
    requires |ns| == |mults| && InUnit(own)
    requires forall c :: 0 <= c < |ns| ==> InUnit(ns[c]) && InUnit(mults[c])
    ensures 0.0 <= BlendSum(own, ns, mults) <= |ns| as real
    decreases |ns|
  {
    if ns != [] {
      var k := |ns| - 1;
      BlendSumBounds(own, ns[..k], mults[..k]);
      BlendInUnit(ns[k], mults[k], own);
    }
  }

  /** Averaging stays within [0, 1] when every input does: each term is a
    * blend of two weights in range. */
  lemma AveragedInUnit(own: real, ns: seq<real>, mults: seq<real>, locked: bool)
    requires |ns| == |mults| && InUnit(own)
    requires forall c :: 0 <= c < |ns| ==> InUnit(ns[c]) && InUnit(mults[c])
    ensures InUnit(AveragedWeight(own, ns, mults, locked))
  {
    if |ns| > 0 && !locked {
      BlendSumBounds(own, ns, mults);
      var n := |ns| as real;
      var s := BlendSum(own, ns, mults);
      assert s / n <= 1.0 by {
        assert s <= n;
      }
    }
  }

  /** The averaging loop of `computeWeights`. */
  method AverageWeights(own: seq<GroupWeight>, neighbours: seq<seq<GroupWeight>>, mults: seq<real>, locked: seq<bool>)
    returns (ws: seq<GroupWeight>)
    requires |mults| == |neighbours| && |locked| == |own|
    requires forall c :: 0 <= c < |neighbours| ==> |neighbours[c]| == |own|
    ensures |ws| == |own|
    ensures forall i :: 0 <= i < |own| ==>
              ws[i] == (AveragedWeight(own[i].0, Column(neighbours, i), mults, locked[i]), own[i].1)
  {
    ws := [];
    var i := 0;
    while i < |own|
      invariant 0 <= i <= |own| && |ws| == i
      invariant forall j :: 0 <= j < i ==>
                  ws[j] == (AveragedWeight(own[j].0, Column(neighbours, j), mults, locked[j]), own[j].1)
    {
      var weight := own[i].0;
      if |neighbours| > 0 && !locked[i] {
        var col := Column(neighbours, i);
        weight := 0.0;
        var c := 0;
        while c < |neighbours|
          invariant 0 <= c <= |neighbours|
          invariant weight == BlendSum(own[i].0, col[..c], mults[..c])
        {
          assert col[..c + 1][..c] == col[..c] && mults[..c + 1][..c] == mults[..c];
          weight := weight + (neighbours[c][i].0 * mults[c] + own[i].0 * (1.0 - mults[c]));
          assert weight == BlendSum(own[i].0, col[..c], mults[..c]) + Blend(col[c], mults[c], own[i].0);
          c := c + 1;
        }
        assert col[..c] == col && mults[..c] == mults;
        weight := weight / (|neighbours| as real);
      }
      ws := ws + [(weight, own[i].1)];
      i := i + 1;
    }
  }

  // ---------------------------------------------------------------------
  // Maximum number of groups
  // ---------------------------------------------------------------------

  /** The list as (group, weight) entries. */
  function Entries(ws: seq<GroupWeight>): (r: seq<Entry>)
    ensures |r| == |ws| && forall g :: 0 <= g < |ws| ==> r[g] == (g, ws[g].0)
  {
    seq(|ws|, g requires 0 <= g < |ws| => (g, ws[g].0))
  }

  /** The groups by descending weight, ties in group order (a stable
    * sort). */
  function Ranking(ws: seq<GroupWeight>): (r: seq<Entry>)
    ensures SortedBy(r, true) && multiset(r) == multiset(Entries(ws))
    ensures |r| == |ws|
  {
    var s := SortEntries(Entries(ws), true);
    assert |s| == |multiset(s)| == |multiset(Entries(ws))| == |ws|;
    s
  }

  /** Every ranked entry is a (group, weight) pair of the list. */
  lemma RankingEntries(ws: seq<GroupWeight>, k: nat)
    requires k < |ws|
    ensures Ranking(ws)[k].0 < |ws| && Ranking(ws)[k].1 == ws[Ranking(ws)[k].0].0
  {
    var s := Ranking(ws);
    assert s[k] in multiset(s);
    assert s[k] in Entries(ws);
  }

  /** Every group has a place in the ranking. */
  lemma RankingCovers(ws: seq<GroupWeight>, g: nat)
    requires g < |ws|
    ensures exists k :: 0 <= k < |ws| && Ranking(ws)[k].0 == g
  {
    var s := Ranking(ws);
    assert Entries(ws)[g] in multiset(Entries(ws));
    assert (g, ws[g].0) in s;
  }

  /** The first k writes of the limiting loop: the group ranked at place
    * j gets its weight back when j < maxGroups and 0 otherwise. */
  function LimitWrites(ws: seq<GroupWeight>, s: seq<Entry>, maxGroups: int, k: nat): (r: seq<GroupWeight>)
    requires k <= |s| && forall j :: 0 <= j < |s| ==> s[j].0 < |ws|
    ensures |r| == |ws|
  {
    if k == 0 then ws
    else
      var j := k - 1;
      LimitWrites(ws, s, maxGroups, j)[s[j].0 := (if j >= maxGroups then 0.0 else s[j].1, s[j].0)]
  }

  predicate RankedWithin(ws: seq<GroupWeight>, maxGroups: int)
  {
    forall k :: 0 <= k < |ws| ==> Ranking(ws)[k].0 < |ws|
  }

  lemma RankedAll(ws: seq<GroupWeight>, maxGroups: int)
    ensures RankedWithin(ws, maxGroups)
  {
    forall k | 0 <= k < |ws|
      ensures Ranking(ws)[k].0 < |ws|
    {
      RankingEntries(ws, k);
    }
  }

  /** The limiting loop of `computeWeights` (with `useMaxGroups`): walk
    * the groups by descending weight and zero every one from place
    * `maxGroups` on. */
  method LimitGroups(ws: seq<GroupWeight>, maxGroups: int) returns (r: seq<GroupWeight>)
    requires ByGroup(ws)
    ensures RankedWithin(ws, maxGroups)
    ensures r == LimitWrites(ws, Ranking(ws), maxGroups, |ws|)
  {
    RankedAll(ws, maxGroups);
    var sorted := Ranking(ws);
    r := ws;
    var i := 0;
    while i < |sorted|
      invariant 0 <= i <= |sorted|
      invariant r == LimitWrites(ws, sorted, maxGroups, i)
    {
      var weight := sorted[i].1;
      var groupId := sorted[i].0;
      if i >= maxGroups {
        weight := 0.0;
      }
      r := r[groupId := (weight, groupId)];
      i := i + 1;
    }
  }

  /** Group g after the first k writes: zero or its original weight, and
    * a non-zero weight was written from a place below `maxGroups` or not
    * written at all. */
  predicate WrittenShape(ws: seq<GroupWeight>, r: seq<GroupWeight>, maxGroups: int, k: nat, g: nat)
    requires |r| == |ws| == |Ranking(ws)| && k <= |ws| && g < |ws|
  {
    r[g].1 == g &&
    (r[g].0 == 0.0 || r[g].0 == ws[g].0) &&
    (r[g].0 != 0.0 ==>
       (exists j :: 0 <= j < k && j < maxGroups && Ranking(ws)[j].0 == g) ||
       (forall j :: 0 <= j < k ==> Ranking(ws)[j].0 != g))
  }

  /** One more write keeps the shape of group g. */
  lemma LimitWritesStep(ws: seq<GroupWeight>, maxGroups: int, k: nat, g: nat)
    requires ByGroup(ws) && 0 < k <= |ws| && g < |ws| && RankedWithin(ws, maxGroups)
    requires WrittenShape(ws, LimitWrites(ws, Ranking(ws), maxGroups, k - 1), maxGroups, k - 1, g)
    ensures WrittenShape(ws, LimitWrites(ws, Ranking(ws), maxGroups, k), maxGroups, k, g)
  {
    var s := Ranking(ws);
    var j := k - 1;
    var prev := LimitWrites(ws, s, maxGroups, j);
    var r := LimitWrites(ws, s, maxGroups, k);
    assert r == prev[s[j].0 := (if j >= maxGroups then 0.0 else s[j].1, s[j].0)];
    if s[j].0 == g {
      RankingEntries(ws, j);
      if r[g].0 != 0.0 {
        assert 0 <= j < k && j < maxGroups && s[j].0 == g;
      }
    } else {
      assert r[g] == prev[g];
      if r[g].0 != 0.0 && !(exists i :: 0 <= i < j && i < maxGroups && s[i].0 == g) {
        assert forall i :: 0 <= i < k ==> s[i].0 != g;
      }
    }
  }

  /** After k writes every group has that shape. */
  lemma {:induction false} LimitWritesShape(ws: seq<GroupWeight>, maxGroups: int, k: nat)
    requires ByGroup(ws) && k <= |ws|
    ensures RankedWithin(ws, maxGroups)
    ensures forall g :: 0 <= g < |ws| ==> WrittenShape(ws, LimitWrites(ws, Ranking(ws), maxGroups, k), maxGroups, k, g)
  {
    RankedAll(ws, maxGroups);
    if k > 0 {
      LimitWritesShape(ws, maxGroups, k - 1);
      forall g | 0 <= g < |ws|
        ensures WrittenShape(ws, LimitWrites(ws, Ranking(ws), maxGroups, k), maxGroups, k, g)
      {
        LimitWritesStep(ws, maxGroups, k, g);
      }
    }
  }

  /** The groups ranked below `maxGroups`. */
  function TopGroups(s: seq<Entry>, n: nat): (r: set<nat>)
    requires n <= |s|
    ensures |r| <= n
  {
    if n == 0 then {} else TopGroups(s, n - 1) + {s[n - 1].0}
  }

  lemma TopGroupsHas(s: seq<Entry>, n: nat, j: nat)
    requires j < n <= |s|
    ensures s[j].0 in TopGroups(s, n)
  {
    if j < n - 1 {
      TopGroupsHas(s, n - 1, j);
    }
  }

  /** With `useMaxGroups` at most `maxGroups` groups keep a non-zero
    * weight, each with the weight it had, and the groups zeroed are
    * those ranked from place `maxGroups` on. */
  lemma LimitGroupsAtMost(ws: seq<GroupWeight>, maxGroups: int)
    requires ByGroup(ws)
    ensures RankedWithin(ws, maxGroups)
    ensures var r := LimitWrites(ws, Ranking(ws), maxGroups, |ws|);
            ByGroup(r) &&
            (forall g :: 0 <= g < |ws| ==> r[g].0 == 0.0 || r[g].0 == ws[g].0) &&
            |NonZero(r)| <= (if maxGroups < 0 then 0 else maxGroups)
  {
    RankedAll(ws, maxGroups);
    LimitWritesShape(ws, maxGroups, |ws|);
    var r := LimitWrites(ws, Ranking(ws), maxGroups, |ws|);
    var s := Ranking(ws);
    var top := if maxGroups < 0 then 0 else if maxGroups > |ws| then |ws| else maxGroups;
    forall g | 0 <= g < |ws|
      ensures r[g].1 == g && (r[g].0 == 0.0 || r[g].0 == ws[g].0)
    {
      assert WrittenShape(ws, r, maxGroups, |ws|, g);
    }
    forall g | g in NonZero(r)
      ensures g in TopGroups(s, top)
    {
      assert WrittenShape(ws, r, maxGroups, |ws|, g);
      RankingCovers(ws, g);
      var j :| 0 <= j < |ws| && j < maxGroups && s[j].0 == g;
      TopGroupsHas(s, top, j);
    }
    SubsetCard(NonZero(r), TopGroups(s, top));
  }

  lemma {:induction false} SubsetCard(a: set<nat>, b: set<nat>)
    requires a <= b
    ensures |a| <= |b|
    decreases |a|
  {
    if a != {} {
      var x :| x in a;
      SubsetCard(a - {x}, b - {x});
    }
  }

  // ---------------------------------------------------------------------
  // Normalisation
  // ---------------------------------------------------------------------

  /** The weight total of the groups picked by `pick` (every group for
    * `all`). */
  function Total(ws: seq<GroupWeight>, locked: seq<bool>, all: bool, pick: bool): real
    requires |locked| == |ws|
  {
    if ws == [] then 0.0
    else
      var k := |ws| - 1;
      Total(ws[..k], locked[..k], all, pick) + (if all || locked[k] == pick then ws[k].0 else 0.0)
  }

  predicate HasLocks(locked: seq<bool>)
  {
    exists g :: 0 <= g < |locked| && locked[g]
  }

  /** The normalised weight of one group: without locks divided by the
    * total; with locks a locked group keeps its weight and an unlocked
    * one is scaled into what the locked leave of 1; always clamped to
    * [0, 1]. */
  function NormalizedWeight(w: real, isLocked: bool, hasLocks: bool, total: real, lockedTotal: real, unlockedTotal: real): (r: real)
    ensures InUnit(r)
  {
    Clamp(Rescaled(w, isLocked, hasLocks, total, lockedTotal, unlockedTotal), 0.0, 1.0)
  }

  /** The normalised weight before clamping. */
  function Rescaled(w: real, isLocked: bool, hasLocks: bool, total: real, lockedTotal: real, unlockedTotal: real): real
  {
    if !hasLocks then (if total > 0.0 then w / total else 0.0)
    else if isLocked then w
    else
      var remaining := 1.0 - lockedTotal;
      if remaining > 0.0 then (if unlockedTotal > 0.0 then w * (remaining / unlockedTotal) else w)
      else 0.0
  }

  /** The normalising loop of `computeWeights`. */
  method Normalize(ws: seq<GroupWeight>, locked: seq<bool>) returns (r: seq<GroupWeight>)
    requires |locked| == |ws|
    ensures |r| == |ws| && AllInUnit(r)
    ensures forall i :: 0 <= i < |ws| ==>
              r[i] == (NormalizedWeight(ws[i].0, locked[i], HasLocks(locked), Total(ws, locked, true, true),
                                        Total(ws, locked, false, true), Total(ws, locked, false, false)), ws[i].1)
  {
    var hasLocks := HasLocks(locked);
    var maxWeight := Total(ws, locked, true, true);
    var maxWeightLocked := Total(ws, locked, false, true);
    var maxWeightUnlocked := Total(ws, locked, false, false);
    r := ws;
    var i := 0;
    while i < |ws|
      invariant 0 <= i <= |ws| && |r| == |ws|
      invariant forall j :: 0 <= j < i ==>
                  r[j] == (NormalizedWeight(ws[j].0, locked[j], hasLocks, maxWeight, maxWeightLocked, maxWeightUnlocked), ws[j].1)
      invariant forall j :: i <= j < |ws| ==> r[j] == ws[j]
    {
      var weight := r[i].0;
      if !hasLocks {
        if maxWeight > 0.0 {
          weight := weight / maxWeight;
        } else {
          weight := 0.0;
        }
      } else {
        var remainingWeight := 1.0 - maxWeightLocked;
        if !locked[i] {
          if remainingWeight > 0.0 {
            if maxWeightUnlocked > 0.0 {
              weight := weight * (remainingWeight / maxWeightUnlocked);
            }
          } else {
            weight := 0.0;
          }
        }
      }
      assert weight == Rescaled(ws[i].0, locked[i], hasLocks, maxWeight, maxWeightLocked, maxWeightUnlocked);
      weight := Clamp(weight, 0.0, 1.0);
      r := r[i := (weight, r[i].1)];
      i := i + 1;
    }
  }

  /** A zero weight stays zero, so the group limit survives
    * normalisation. */
  lemma NormalizeKeepsZero(isLocked: bool, hasLocks: bool, total: real, lockedTotal: real, unlockedTotal: real)
    ensures NormalizedWeight(0.0, isLocked, hasLocks, total, lockedTotal, unlockedTotal) == 0.0
  {
  }

  /** With locks, a locked group whose weight is already in range keeps
    * it. */
  lemma NormalizeKeepsLocked(w: real, total: real, lockedTotal: real, unlockedTotal: real)
    requires InUnit(w)
    ensures NormalizedWeight(w, true, true, total, lockedTotal, unlockedTotal) == w
  {
  }

  function Weights(ws: seq<GroupWeight>): (r: seq<real>)
    ensures |r| == |ws| && forall i :: 0 <= i < |ws| ==> r[i] == ws[i].0
  {
    seq(|ws|, i requires 0 <= i < |ws| => ws[i].0)
  }

  function Sum(xs: seq<real>): real
  {
    if xs == [] then 0.0 else Sum(xs[..|xs| - 1]) + xs[|xs| - 1]
  }

  function Scaled(xs: seq<real>, d: real): (r: seq<real>)
    requires d != 0.0
    ensures |r| == |xs| && forall i :: 0 <= i < |xs| ==> r[i] == xs[i] / d
  {
    seq(|xs|, i requires 0 <= i < |xs| => xs[i] / d)
  }

  lemma {:induction false} SumScaled(xs: seq<real>, d: real)
    requires d != 0.0
    ensures Sum(Scaled(xs, d)) == Sum(xs) / d
    decreases |xs|
  {
    if xs != [] {
      var k := |xs| - 1;
      SumScaled(xs[..k], d);
      assert Scaled(xs, d)[..k] == Scaled(xs[..k], d);
    }
  }

  lemma {:induction false} TotalIsSum(ws: seq<GroupWeight>, locked: seq<bool>)
    requires |locked| == |ws|
    ensures Total(ws, locked, true, true) == Sum(Weights(ws))
    decreases |ws|
  {
    if ws != [] {
      var k := |ws| - 1;
      TotalIsSum(ws[..k], locked[..k]);
      assert Weights(ws)[..k] == Weights(ws[..k]);
    }
  }

  lemma {:induction false} PartBelowSum(xs: seq<real>, i: nat)
    requires i < |xs| && forall j :: 0 <= j < |xs| ==> xs[j] >= 0.0
    ensures xs[i] <= Sum(xs)
    decreases |xs|
  {
    var k := |xs| - 1;
    if i < k {
      PartBelowSum(xs[..k], i);
      NonNegativeSum(xs[..k]);
    } else {
      NonNegativeSum(xs[..k]);
    }
  }

  lemma {:induction false} NonNegativeSum(xs: seq<real>)
    requires forall j :: 0 <= j < |xs| ==> xs[j] >= 0.0
    ensures Sum(xs) >= 0.0
    decreases |xs|
  {
    if xs != [] {
      NonNegativeSum(xs[..|xs| - 1]);
    }
  }

  lemma DividedByTotal(w: real, isLocked: bool, total: real, lockedTotal: real, unlockedTotal: real)
    requires 0.0 <= w <= total && total > 0.0
    ensures NormalizedWeight(w, isLocked, false, total, lockedTotal, unlockedTotal) == w / total
  {
    QuotientInUnit(w, total);
  }

  lemma ProductPositive(a: real, b: real)
    requires a > 0.0 && b > 0.0
    ensures a * b > 0.0
  {
  }

  lemma QuotientInUnit(w: real, d: real)
    requires 0.0 <= w <= d && d > 0.0
    ensures InUnit(w / d)
  {
    var q := w / d;
    assert q * d == w;
    if q > 1.0 {
      ProductPositive(q - 1.0, d);
    }
    if q < 0.0 {
      ProductPositive(0.0 - q, d);
    }
  }

  /** Without locks, non-negative weights with a positive total are
    * normalised to weights that sum to 1. */
  lemma NormalizeSumsToOne(ws: seq<GroupWeight>, locked: seq<bool>, r: seq<GroupWeight>)
    requires |locked| == |ws| && !HasLocks(locked)
    requires forall i :: 0 <= i < |ws| ==> ws[i].0 >= 0.0
    requires Total(ws, locked, true, true) > 0.0
    requires |r| == |ws|
    requires forall i :: 0 <= i < |ws| ==>
               r[i] == (NormalizedWeight(ws[i].0, locked[i], HasLocks(locked), Total(ws, locked, true, true),
                                         Total(ws, locked, false, true), Total(ws, locked, false, false)), ws[i].1)
    ensures Sum(Weights(r)) == 1.0
  {
    var total := Total(ws, locked, true, true);
    TotalIsSum(ws, locked);
    forall i | 0 <= i < |ws|
      ensures Weights(r)[i] == Scaled(Weights(ws), total)[i]
    {
      PartBelowSum(Weights(ws), i);
      DividedByTotal(ws[i].0, locked[i], total, Total(ws, locked, false, true), Total(ws, locked, false, false));
    }
    assert Weights(r) == Scaled(Weights(ws), total);
    SumScaled(Weights(ws), total);
    SelfQuotient(total);
  }

  lemma SelfQuotient(d: real)
    requires d != 0.0
    ensures d / d == 1.0
  {
  }

  // ---------------------------------------------------------------------
  // computeWeights
  // ---------------------------------------------------------------------

  /** `computeWeights` for one vertex: averaging, then (with connected
    * vertices and `useMaxGroups`) the group limit, then (with
    * `normalize`) the normalisation. */
  method ComputeWeights(own: seq<GroupWeight>, neighbours: seq<seq<GroupWeight>>, mults: seq<real>, locked: seq<bool>,
                        useMaxGroups: bool, maxGroups: int, normalize: bool)
    returns (r: seq<GroupWeight>)
    requires ByGroup(own) && |mults| == |neighbours| && |locked| == |own|
    requires forall c :: 0 <= c < |neighbours| ==> |neighbours[c]| == |own|
    ensures |r| == |own| && ByGroup(r)
    ensures normalize ==> AllInUnit(r)
    ensures |neighbours| > 0 && useMaxGroups ==> |NonZero(r)| <= (if maxGroups < 0 then 0 else maxGroups)
  {
    r := AverageWeights(own, neighbours, mults, locked);
    if |neighbours| > 0 && useMaxGroups {
      var averaged := r;
      r := LimitGroups(averaged, maxGroups);
      LimitGroupsAtMost(averaged, maxGroups);
    }
    if normalize {
      var limited := r;
      r := Normalize(limited, locked);
      NormalizedNonZero(limited, locked, r);
    }
  }

  /** Normalisation gives no group a weight it did not have. */
  lemma NormalizedNonZero(ws: seq<GroupWeight>, locked: seq<bool>, r: seq<GroupWeight>)
    requires |locked| == |ws| && |r| == |ws|
    requires forall i :: 0 <= i < |ws| ==>
               r[i] == (NormalizedWeight(ws[i].0, locked[i], HasLocks(locked), Total(ws, locked, true, true),
                                         Total(ws, locked, false, true), Total(ws, locked, false, false)), ws[i].1)
    ensures NonZero(r) <= NonZero(ws) && |NonZero(r)| <= |NonZero(ws)|
  {
    var hasLocks, total := HasLocks(locked), Total(ws, locked, true, true);
    var lockedTotal, unlockedTotal := Total(ws, locked, false, true), Total(ws, locked, false, false);
    forall g | g in NonZero(r)
      ensures g in NonZero(ws)
    {
      if ws[g].0 == 0.0 {
        NormalizeKeepsZero(locked[g], hasLocks, total, lockedTotal, unlockedTotal);
      }
    }
    SubsetCard(NonZero(r), NonZero(ws));
  }

  // ---------------------------------------------------------------------
  // Brush values
  // ---------------------------------------------------------------------

  /** The value `setBrushValues` derives from the start value and the
    * horizontal cursor movement: never below 0.001, and at most 1 for the
    * 'S' and 'R' keys. */
  function BrushValue(adjustValue: real, deltaX: real, speed: real, key: string): (r: real)
    ensures r > 0.0
    ensures (key == "S" || key == "R") ==> r <= 1.0
    ensures var v := adjustValue + deltaX * speed * speed;
            v > 0.0 && (key == "S" || key == "R" ==> v <= 1.0) ==> r == v
    ensures var v := adjustValue + deltaX * speed * speed;
            v <= 0.0 ==> r == 0.001
  {
    var value := adjustValue + deltaX * speed * speed;
    var positive := if value > 0.0 then value else 0.001;
    if key == "S" || key == "R" then (if positive > 1.0 then 1.0 else positive) else positive
  }
}
