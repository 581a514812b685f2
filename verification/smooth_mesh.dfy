// The mesh side of Smooth Weights (the `Mesh` class of smoothWeights.py):
// the cached per-vertex weights, the undo stack of brush strokes, the
// list of vertices to reset on cancel, the expansion of a vertex's
// groups into a full weight list, the walk over the surface that
// collects the vertices under the brush, and the closest vertex of a
// face.
//
// Blender's own vertex group data and the cached `weights` list are one
// field here: every write of the source goes to both.

module SmoothMesh {
  import opened Wrappers
  import opened SmoothLimits

  /** The full weight list of one vertex, indexed by group. */
  type WeightList = seq<GroupWeight>

  /** One vertex under the brush: index, falloff value, and the opposite
    * boundary vertex. */
  type VertData = (nat, real, Option<nat>)

  // ---------------------------------------------------------------------
  // vertexWeights
  // ---------------------------------------------------------------------

  /** The weight a vertex's group list assigns to group g: the last entry
    * for g, or 0 when the vertex is not in g. */
  function AssignedWeight(groups: seq<(real, nat)>, g: nat): real
  {
    if groups == [] then 0.0
    else if groups[|groups| - 1].1 == g then groups[|groups| - 1].0
    else AssignedWeight(groups[..|groups| - 1], g)
  }

  /** The full list `vertexWeights` returns for a vertex's group list. */
  function Expanded(groups: seq<(real, nat)>, numGroups: nat): (r: WeightList)
    ensures |r| == numGroups && ByGroup(r)
  {
    seq(numGroups, g requires 0 <= g < numGroups => (AssignedWeight(groups, g), g))
  }

  predicate DistinctGroups(groups: seq<(real, nat)>)
  {
    forall i, j :: 0 <= i < j < |groups| ==> groups[i].1 != groups[j].1
  }

  /** A group the vertex belongs to gets its weight. */
  lemma {:induction false} AssignedWeightOf(groups: seq<(real, nat)>, j: nat)
    requires j < |groups| && DistinctGroups(groups)
    ensures AssignedWeight(groups, groups[j].1) == groups[j].0
    decreases |groups|
  {
    var k := |groups| - 1;
    if j < k {
      assert groups[k].1 != groups[j].1;
      AssignedWeightOf(groups[..k], j);
    }
  }

  /** A group the vertex does not belong to gets 0. */
  lemma {:induction false} AssignedWeightAbsent(groups: seq<(real, nat)>, g: nat)
    requires forall j :: 0 <= j < |groups| ==> groups[j].1 != g
    ensures AssignedWeight(groups, g) == 0.0
    decreases |groups|
  {
    if groups != [] {
      AssignedWeightAbsent(groups[..|groups| - 1], g);
    }
  }

  // ---------------------------------------------------------------------
  // Undo entries
  // ---------------------------------------------------------------------

  /** One stroke's undo entry: the vertices it touched, each once, and the
    * weights saved for exactly those. */
  predicate EntryValid(indices: seq<nat>, saved: seq<Option<WeightList>>, n: nat)
  {
    |saved| == n &&
    (forall j :: 0 <= j < |indices| ==> indices[j] < n && saved[indices[j]].Some?) &&
    (forall v :: 0 <= v < n && saved[v].Some? ==> v in indices) &&
    (forall i, j :: 0 <= i < j < |indices| ==> indices[i] != indices[j])
  }

  function Nothing(n: nat): (r: seq<Option<WeightList>>)
    ensures |r| == n && forall v :: 0 <= v < n ==> r[v].None?
  {
    seq(n, v requires 0 <= v < n => None)
  }

  /** `performSmooth` processes a vertex of the brush range unless the
    * selection is used and the vertex's selection state does not match
    * the affected one. */
  predicate Affects(selected: bool, useSelection: bool, affectSelected: bool)
  {
    !useSelection || (if affectSelected then selected else !selected)
  }

  /** Vertex v is among the first k processed vertices. */
  predicate Touched(vertData: seq<VertData>, selected: seq<bool>, useSelection: bool, affectSelected: bool, k: nat, v: nat)
    requires k <= |vertData| && forall j :: 0 <= j < |vertData| ==> vertData[j].0 < |selected|
  {
    k > 0 &&
    (Touched(vertData, selected, useSelection, affectSelected, k - 1, v) ||
     (Affects(selected[vertData[k - 1].0], useSelection, affectSelected) && vertData[k - 1].0 == v))
  }

  /** Vertex v is written by the first k processed vertices: the vertex
    * itself, or its opposite boundary vertex unless islands are kept
    * apart. */
  predicate Written(vertData: seq<VertData>, selected: seq<bool>, useSelection: bool, affectSelected: bool, islands: bool, k: nat, v: nat)
    requires k <= |vertData| && forall j :: 0 <= j < |vertData| ==> vertData[j].0 < |selected|
  {
    k > 0 &&
    (Written(vertData, selected, useSelection, affectSelected, islands, k - 1, v) ||
     (Affects(selected[vertData[k - 1].0], useSelection, affectSelected) &&
      (vertData[k - 1].0 == v || (!islands && vertData[k - 1].2 == Some(v)))))
  }

  predicate InRange(vertData: seq<VertData>, n: nat)
  {
    forall j :: 0 <= j < |vertData| ==> vertData[j].0 < n && (vertData[j].2.Some? ==> vertData[j].2.value < n)
  }

  /** Step 1 of `performSmooth` on one undo entry: every processed
    * vertex not yet saved gets its current weights saved and its index
    * appended, each vertex once. */
  method SaveTouched(vertData: seq<VertData>, selected: seq<bool>, useSelection: bool, affectSelected: bool,
                     weights: seq<WeightList>, indices0: seq<nat>, saved0: seq<Option<WeightList>>)
    returns (indices: seq<nat>, saved: seq<Option<WeightList>>)
    requires |selected| == |weights| && InRange(vertData, |weights|)
    requires EntryValid(indices0, saved0, |weights|)
    ensures EntryValid(indices, saved, |weights|) && indices0 <= indices
    ensures forall v :: 0 <= v < |weights| ==>
              saved[v] == if saved0[v].None? && Touched(vertData, selected, useSelection, affectSelected, |vertData|, v)
                          then Some(weights[v]) else saved0[v]
  {
    var n := |weights|;
    indices := indices0;
    saved := saved0;
    var k := 0;
    while k < |vertData|
      invariant 0 <= k <= |vertData|
      invariant EntryValid(indices, saved, n) && indices0 <= indices
      invariant forall v :: 0 <= v < n ==>
                  saved[v] == if saved0[v].None? && Touched(vertData, selected, useSelection, affectSelected, k, v)
                              then Some(weights[v]) else saved0[v]
    {
      var index := vertData[k].0;
      if Affects(selected[index], useSelection, affectSelected) {
        if saved[index].None? {
          indices := indices + [index];
          saved := saved[index := Some(weights[index])];
        }
      }
      k := k + 1;
    }
  }

  /** Step 3 of `performSmooth`: every processed vertex (and, unless
    * islands are kept apart, its opposite boundary vertex) takes its
    * smoothed weights and is marked for cancel. */
  method WriteSmoothed(vertData: seq<VertData>, selected: seq<bool>, useSelection: bool, affectSelected: bool,
                       islands: bool, smoothed: seq<WeightList>, weights: seq<WeightList>, cancelIndices: seq<bool>)
    returns (w: seq<WeightList>, cancel: seq<bool>)
    requires |selected| == |weights| && |smoothed| == |weights| && |cancelIndices| == |weights|
    requires InRange(vertData, |weights|)
    ensures |w| == |weights| && |cancel| == |weights|
    ensures forall v :: 0 <= v < |weights| ==>
              w[v] == (if Written(vertData, selected, useSelection, affectSelected, islands, |vertData|, v) then smoothed[v] else weights[v]) &&
              cancel[v] == (cancelIndices[v] || Written(vertData, selected, useSelection, affectSelected, islands, |vertData|, v))
  {
    var n := |weights|;
    w := weights;
    cancel := cancelIndices;
    var k := 0;
    while k < |vertData|
      invariant 0 <= k <= |vertData| && |w| == n && |cancel| == n
      invariant forall v :: 0 <= v < n ==>
                  w[v] == (if Written(vertData, selected, useSelection, affectSelected, islands, k, v) then smoothed[v] else weights[v]) &&
                  cancel[v] == (cancelIndices[v] || Written(vertData, selected, useSelection, affectSelected, islands, k, v))
    {
      var (index, _, indexBound) := vertData[k];
      if Affects(selected[index], useSelection, affectSelected) {
        cancel := cancel[index := true];
        w := w[index := smoothed[index]];
        if !islands && indexBound.Some? {
          cancel := cancel[indexBound.value := true];
          w := w[indexBound.value := smoothed[indexBound.value]];
        }
      }
      k := k + 1;
    }
  }

  // ---------------------------------------------------------------------
  // floodSmooth
  // ---------------------------------------------------------------------

  /** The vertex indices of a brush range. */
  function Indices(vertData: seq<VertData>): (r: seq<nat>)
    ensures |r| == |vertData| && forall j :: 0 <= j < |vertData| ==> r[j] == vertData[j].0
  {
    seq(|vertData|, j requires 0 <= j < |vertData| => vertData[j].0)
  }

  /** The range of a flood: the vertices the selection settings affect,
    * each once and in index order, at the flood strength and with its
    * opposite boundary vertex. */
  predicate FloodRange(vertData: seq<VertData>, selected: seq<bool>, opposite: seq<Option<nat>>,
                       useSelection: bool, affectSelected: bool, strength: real)
    requires |opposite| == |selected|
  {
    (forall j :: 0 <= j < |vertData| ==>
       vertData[j].0 < |selected| && Affects(selected[vertData[j].0], useSelection, affectSelected) &&
       vertData[j].1 == strength && vertData[j].2 == opposite[vertData[j].0]) &&
    (forall i, j :: 0 <= i < j < |vertData| ==> vertData[i].0 < vertData[j].0) &&
    (forall v :: 0 <= v < |selected| && Affects(selected[v], useSelection, affectSelected) ==> v in Indices(vertData))
  }

  /** The vertices of `s` are, in index order, exactly those of the mesh
    * whose selection state is `state`. */
  predicate Collects(s: seq<nat>, selected: seq<bool>, state: bool, upTo: nat)
    requires upTo <= |selected|
  {
    (forall j :: 0 <= j < |s| ==> s[j] < upTo && selected[s[j]] == state) &&
    (forall a, b :: 0 <= a < b < |s| ==> s[a] < s[b]) &&
    (forall v :: 0 <= v < upTo && selected[v] == state ==> v in s)
  }

  /** The first loop of `floodSmooth` with the selection colours: the
    * selected and the unselected vertices, each in index order. */
  method SplitSelection(selected: seq<bool>) returns (floodSelection: seq<nat>, floodUnselection: seq<nat>)
    ensures Collects(floodSelection, selected, true, |selected|)
    ensures Collects(floodUnselection, selected, false, |selected|)
  {
    floodSelection := [];
    floodUnselection := [];
    var i := 0;
    while i < |selected|
      invariant 0 <= i <= |selected|
      invariant Collects(floodSelection, selected, true, i) && Collects(floodUnselection, selected, false, i)
    {
      if selected[i] {
        floodSelection := floodSelection + [i];
      } else {
        floodUnselection := floodUnselection + [i];
      }
      i := i + 1;
    }
  }

  /** The vertices of `chosen` are, in index order, exactly those the
    * selection settings affect. */
  predicate Chooses(chosen: seq<nat>, selected: seq<bool>, useSelection: bool, affectSelected: bool)
  {
    (forall j :: 0 <= j < |chosen| ==> chosen[j] < |selected| && Affects(selected[chosen[j]], useSelection, affectSelected)) &&
    (forall a, b :: 0 <= a < b < |chosen| ==> chosen[a] < chosen[b]) &&
    (forall v :: 0 <= v < |selected| && Affects(selected[v], useSelection, affectSelected) ==> v in chosen)
  }

  /** All vertex indices, in order. */
  function AllVertices(n: nat): (r: seq<nat>)
    ensures |r| == n && forall v :: 0 <= v < n ==> r[v] == v
  {
    seq(n, v requires 0 <= v < n => v)
  }

  /** The second loop of `floodSmooth`: one entry per chosen vertex, at
    * the flood strength and with its opposite boundary vertex. */
  method RangeOf(chosen: seq<nat>, opposite: seq<Option<nat>>, strength: real) returns (vertData: seq<VertData>)
    requires forall j :: 0 <= j < |chosen| ==> chosen[j] < |opposite|
    ensures Indices(vertData) == chosen
    ensures forall j :: 0 <= j < |chosen| ==> vertData[j] == (chosen[j], strength, opposite[chosen[j]])
  {
    vertData := [];
    var k := 0;
    while k < |chosen|
      invariant 0 <= k <= |chosen|
      invariant |vertData| == k && forall j :: 0 <= j < k ==> vertData[j] == (chosen[j], strength, opposite[chosen[j]])
    {
      vertData := vertData + [(chosen[k], strength, opposite[chosen[k]])];
      k := k + 1;
    }
    assert Indices(vertData) == chosen;
  }

  /** The vertex list `floodSmooth` builds from the selection colours:
    * the selected vertices, the unselected ones, or, without the
    * selection, all of them. */
  method FloodVertData(selected: seq<bool>, opposite: seq<Option<nat>>, useSelection: bool, affectSelected: bool,
                       strength: real)
    returns (vertData: seq<VertData>)
    requires |opposite| == |selected|
    ensures FloodRange(vertData, selected, opposite, useSelection, affectSelected, strength)
  {
    var floodSelection, floodUnselection := SplitSelection(selected);
    var chosen: seq<nat>;
    if useSelection {
      if affectSelected {
        chosen := floodSelection;
      } else {
        chosen := floodUnselection;
      }
      assert Chooses(chosen, selected, useSelection, affectSelected);
    } else {
      chosen := AllVertices(|selected|);
      forall v | 0 <= v < |selected|
        ensures v in chosen
      {
        assert chosen[v] == v;
      }
      assert Chooses(chosen, selected, useSelection, affectSelected);
    }
    vertData := RangeOf(chosen, opposite, strength);
  }

  /** A vertex is touched by the first k entries exactly when one of them
    * is that vertex and the selection settings affect it. */
  lemma {:induction false} TouchedAt(vertData: seq<VertData>, selected: seq<bool>, useSelection: bool, affectSelected: bool,
                                     k: nat, v: nat)
    requires k <= |vertData| && forall j :: 0 <= j < |vertData| ==> vertData[j].0 < |selected|
    ensures Touched(vertData, selected, useSelection, affectSelected, k, v) <==>
            exists j :: 0 <= j < k && vertData[j].0 == v && Affects(selected[vertData[j].0], useSelection, affectSelected)
  {
    if k > 0 {
      TouchedAt(vertData, selected, useSelection, affectSelected, k - 1, v);
    }
  }

  /** A vertex is written by the first k entries exactly when an affected
    * one of them is that vertex or, unless islands are kept apart, has it
    * as its opposite boundary vertex. */
  lemma {:induction false} WrittenAt(vertData: seq<VertData>, selected: seq<bool>, useSelection: bool, affectSelected: bool,
                                     islands: bool, k: nat, v: nat)
    requires k <= |vertData| && forall j :: 0 <= j < |vertData| ==> vertData[j].0 < |selected|
    ensures Written(vertData, selected, useSelection, affectSelected, islands, k, v) <==>
            exists j :: 0 <= j < k && Affects(selected[vertData[j].0], useSelection, affectSelected) &&
                        (vertData[j].0 == v || (!islands && vertData[j].2 == Some(v)))
  {
    if k > 0 {
      WrittenAt(vertData, selected, useSelection, affectSelected, islands, k - 1, v);
    }
  }

  /** The vertices a flood writes: every affected vertex and, unless
    * islands are kept apart, the opposite boundary vertex of each. */
  predicate FloodWrites(selected: seq<bool>, opposite: seq<Option<nat>>, useSelection: bool, affectSelected: bool,
                        islands: bool, v: nat)
    requires v < |selected| && |opposite| == |selected|
  {
    Affects(selected[v], useSelection, affectSelected) ||
    (!islands && exists u :: 0 <= u < |selected| && Affects(selected[u], useSelection, affectSelected) && opposite[u] == Some(v))
  }

  /** Over a flood range, a vertex is touched exactly when the selection
    * settings affect it, and written exactly when a flood writes it. */
  lemma FloodTouchesAffected(vertData: seq<VertData>, selected: seq<bool>, opposite: seq<Option<nat>>,
                             useSelection: bool, affectSelected: bool, islands: bool, strength: real, v: nat)
    requires |opposite| == |selected| && v < |selected|
    requires FloodRange(vertData, selected, opposite, useSelection, affectSelected, strength)
    ensures Touched(vertData, selected, useSelection, affectSelected, |vertData|, v) <==>
            Affects(selected[v], useSelection, affectSelected)
    ensures Written(vertData, selected, useSelection, affectSelected, islands, |vertData|, v) <==>
            FloodWrites(selected, opposite, useSelection, affectSelected, islands, v)
  {
    TouchedAt(vertData, selected, useSelection, affectSelected, |vertData|, v);
    WrittenAt(vertData, selected, useSelection, affectSelected, islands, |vertData|, v);
    var ids := Indices(vertData);
    if Affects(selected[v], useSelection, affectSelected) {
      assert v in ids;
      var j :| 0 <= j < |ids| && ids[j] == v;
      assert vertData[j].0 == v;
    }
    if FloodWrites(selected, opposite, useSelection, affectSelected, islands, v) && !Affects(selected[v], useSelection, affectSelected) {
      var u :| 0 <= u < |selected| && Affects(selected[u], useSelection, affectSelected) && opposite[u] == Some(v);
      assert u in ids;
      var j :| 0 <= j < |ids| && ids[j] == u;
      assert vertData[j].2 == Some(v);
    }
  }

  class Mesh {
    var numGroups: nat
    var currentMaxGroups: nat
    var weights: seq<WeightList>
    var cancelWeights: seq<WeightList>
    var cancelIndices: seq<bool>
    var undoIndices: seq<seq<nat>>
    var undoWeights: seq<seq<Option<WeightList>>>

    predicate Valid()
      reads this
    {
      |cancelIndices| == |weights| && |cancelWeights| == |weights| &&
      |undoIndices| == |undoWeights| &&
      forall k :: 0 <= k < |undoIndices| ==> EntryValid(undoIndices[k], undoWeights[k], |weights|)
    }

    /** A mesh read from the vertices' group lists (`allVertexWeights`
      * and `initSmoothed`): no stroke yet, nothing to cancel. */
    constructor (groupLists: seq<seq<(real, nat)>>, groupCount: nat)
      requires forall i, j :: 0 <= i < |groupLists| && 0 <= j < |groupLists[i]| ==> groupLists[i][j].1 < groupCount
      ensures Valid() && numGroups == groupCount
      ensures |weights| == |groupLists| && forall i :: 0 <= i < |groupLists| ==> weights[i] == Expanded(groupLists[i], groupCount)
      ensures cancelWeights == weights
      ensures forall i :: 0 <= i < |groupLists| ==> !cancelIndices[i] && |groupLists[i]| <= currentMaxGroups
      ensures undoIndices == [] && undoWeights == []
    {
      numGroups := groupCount;
      currentMaxGroups := 0;
      weights := [];
      cancelWeights := [];
      cancelIndices := [];
      undoIndices := [];
      undoWeights := [];
      new;
      var w: seq<WeightList> := [];
      var i := 0;
      while i < |groupLists|
        invariant 0 <= i <= |groupLists| && |w| == i && numGroups == groupCount
        invariant undoIndices == [] && undoWeights == []
        invariant forall j :: 0 <= j < i ==> w[j] == Expanded(groupLists[j], groupCount) && |groupLists[j]| <= currentMaxGroups
      {
        var data := VertexWeights(groupLists[i]);
        w := w + [data];
        i := i + 1;
      }
      weights := w;
      cancelWeights := w;
      cancelIndices := seq(|w|, _ => false);
    }

    /** `vertexWeights`: the full weight list of a vertex from its group
      * list; the largest group count seen so far only grows. */
    method VertexWeights(groups: seq<(real, nat)>) returns (r: WeightList)
      requires forall j :: 0 <= j < |groups| ==> groups[j].1 < numGroups
      modifies this
      ensures r == Expanded(groups, numGroups)
      ensures currentMaxGroups == if |groups| > old(currentMaxGroups) then |groups| else old(currentMaxGroups)
      ensures numGroups == old(numGroups) && weights == old(weights) && cancelWeights == old(cancelWeights)
      ensures cancelIndices == old(cancelIndices)
      ensures undoIndices == old(undoIndices) && undoWeights == old(undoWeights)
    {
      if |groups| > currentMaxGroups {
        currentMaxGroups := |groups|;
      }
      var count := numGroups;
      r := seq(count, g requires 0 <= g < count => (0.0, g));
      var k := 0;
      while k < |groups|
        invariant 0 <= k <= |groups| && |r| == numGroups
        invariant forall g :: 0 <= g < numGroups ==> r[g] == (AssignedWeight(groups[..k], g), g)
      {
        assert groups[..k + 1][..k] == groups[..k];
        var (value, groupId) := groups[k];
        r := r[groupId := (value, groupId)];
        k := k + 1;
      }
      assert groups[..k] == groups;
    }

    /** Starting a stroke: when the undo list has reached `undoSteps`
      * entries the oldest is dropped, then an empty entry is pushed in
      * front. The list never grows beyond `undoSteps` once within it. */
    method StartStroke(undoSteps: int)
      requires Valid() && 1 <= undoSteps
      modifies this
      ensures Valid()
      ensures var kept := if undoSteps <= old(|undoIndices|) then old(|undoIndices|) - 1 else old(|undoIndices|);
              undoIndices == [[]] + old(undoIndices)[..kept] &&
              undoWeights == [Nothing(|weights|)] + old(undoWeights)[..kept]
      ensures |undoIndices| <= if old(|undoIndices|) < undoSteps then undoSteps else old(|undoIndices|)
      ensures weights == old(weights) && cancelWeights == old(cancelWeights) && cancelIndices == old(cancelIndices)
      ensures numGroups == old(numGroups) && currentMaxGroups == old(currentMaxGroups)
    {
      if undoSteps <= |undoIndices| {
        var lastItem := |undoIndices| - 1;
        undoIndices := undoIndices[..lastItem];
        undoWeights := undoWeights[..lastItem];
      }
      undoIndices := [[]] + undoIndices;
      undoWeights := [Nothing(|weights|)] + undoWeights;
    }

    /** Steps 1 and 3 of `performSmooth`: every processed vertex not yet
      * saved in this stroke's undo entry gets its current weights saved;
      * every processed vertex (and, unless islands are kept apart, its
      * opposite boundary vertex) takes its smoothed weights and is
      * marked for cancel. */
    method PerformSmooth(vertData: seq<VertData>, selected: seq<bool>, useSelection: bool, affectSelected: bool,
                         islands: bool, smoothed: seq<WeightList>)
      requires Valid() && |undoIndices| >= 1
      requires |selected| == |weights| && |smoothed| == |weights| && InRange(vertData, |weights|)
      modifies this
      ensures Valid() && |weights| == old(|weights|) && |undoIndices| == old(|undoIndices|)
      ensures undoIndices[1..] == old(undoIndices[1..]) && undoWeights[1..] == old(undoWeights[1..])
      ensures old(undoIndices[0]) <= undoIndices[0]
      ensures forall v :: 0 <= v < |weights| ==>
                undoWeights[0][v] ==
                  if old(undoWeights[0][v]).None? && Touched(vertData, selected, useSelection, affectSelected, |vertData|, v)
                  then Some(old(weights[v])) else old(undoWeights[0][v])
      ensures forall v :: 0 <= v < |weights| ==>
                weights[v] ==
                  (if Written(vertData, selected, useSelection, affectSelected, islands, |vertData|, v) then smoothed[v] else old(weights[v])) &&
                cancelIndices[v] ==
                  (old(cancelIndices[v]) || Written(vertData, selected, useSelection, affectSelected, islands, |vertData|, v))
      ensures cancelWeights == old(cancelWeights) && numGroups == old(numGroups) && currentMaxGroups == old(currentMaxGroups)
    {
      var indices, saved := SaveTouched(vertData, selected, useSelection, affectSelected, weights, undoIndices[0], undoWeights[0]);
      undoIndices := [indices] + undoIndices[1..];
      undoWeights := [saved] + undoWeights[1..];
      var w, cancel := WriteSmoothed(vertData, selected, useSelection, affectSelected, islands, smoothed, weights, cancelIndices);
      weights := w;
      cancelIndices := cancel;
    }

    /** `floodSmooth` with the selection colours: a new undo entry is
      * pushed in front (without the undo limit a stroke keeps), then
      * every vertex the selection settings affect is smoothed at the
      * flood strength. */
    method FloodSmooth(selected: seq<bool>, opposite: seq<Option<nat>>, useSelection: bool, affectSelected: bool,
                       islands: bool, strength: real, smoothed: seq<WeightList>)
      requires Valid()
      requires |selected| == |weights| && |opposite| == |weights| && |smoothed| == |weights|
      requires forall v :: 0 <= v < |opposite| && opposite[v].Some? ==> opposite[v].value < |weights|
      modifies this
      ensures Valid() && |weights| == old(|weights|)
      ensures |undoIndices| == old(|undoIndices|) + 1
      ensures undoIndices[1..] == old(undoIndices) && undoWeights[1..] == old(undoWeights)
      ensures forall v :: 0 <= v < |weights| ==>
                (v in undoIndices[0] <==> Affects(selected[v], useSelection, affectSelected)) &&
                undoWeights[0][v] == if Affects(selected[v], useSelection, affectSelected) then Some(old(weights[v])) else None
      ensures forall v :: 0 <= v < |weights| ==>
                weights[v] == (if FloodWrites(selected, opposite, useSelection, affectSelected, islands, v) then smoothed[v] else old(weights[v])) &&
                cancelIndices[v] == (old(cancelIndices[v]) || FloodWrites(selected, opposite, useSelection, affectSelected, islands, v))
      ensures cancelWeights == old(cancelWeights) && numGroups == old(numGroups) && currentMaxGroups == old(currentMaxGroups)
    {
      undoIndices := [[]] + undoIndices;
      undoWeights := [Nothing(|weights|)] + undoWeights;
      assert EntryValid(undoIndices[0], undoWeights[0], |weights|);
      var vertData := FloodVertData(selected, opposite, useSelection, affectSelected, strength);
      ghost var before := undoIndices;
      PerformSmooth(vertData, selected, useSelection, affectSelected, islands, smoothed);
      assert undoIndices[1..] == before[1..];
      forall v | 0 <= v < |weights|
        ensures (v in undoIndices[0] <==> Affects(selected[v], useSelection, affectSelected)) &&
                undoWeights[0][v] == if Affects(selected[v], useSelection, affectSelected) then Some(old(weights[v])) else None
        ensures weights[v] == (if FloodWrites(selected, opposite, useSelection, affectSelected, islands, v) then smoothed[v] else old(weights[v])) &&
                cancelIndices[v] == (old(cancelIndices[v]) || FloodWrites(selected, opposite, useSelection, affectSelected, islands, v))
      {
        FloodTouchesAffected(vertData, selected, opposite, useSelection, affectSelected, islands, strength, v);
        assert EntryValid(undoIndices[0], undoWeights[0], |weights|);
      }
    }

    /** `undoStroke`: with an entry to undo, the newest is popped and
      * exactly the vertices it recorded get their saved weights back;
      * with none, nothing changes. */
    method UndoStroke()
      requires Valid()
      modifies this
      ensures Valid()
      ensures old(|undoIndices|) == 0 ==>
                weights == old(weights) && undoIndices == old(undoIndices) && undoWeights == old(undoWeights)
      ensures old(|undoIndices|) > 0 ==>
                undoIndices == old(undoIndices[1..]) && undoWeights == old(undoWeights[1..]) &&
                |weights| == old(|weights|) &&
                forall v :: 0 <= v < |weights| ==>
                  weights[v] == if v in old(undoIndices[0]) then old(undoWeights[0][v]).value else old(weights[v])
      ensures cancelWeights == old(cancelWeights) && cancelIndices == old(cancelIndices)
      ensures numGroups == old(numGroups) && currentMaxGroups == old(currentMaxGroups)
    {
      if |undoIndices| > 0 {
        var indices := undoIndices[0];
        var saved := undoWeights[0];
        assert EntryValid(indices, saved, |weights|);
        undoIndices := undoIndices[1..];
        undoWeights := undoWeights[1..];
        var w := weights;
        var k := 0;
        while k < |indices|
          invariant 0 <= k <= |indices| && |w| == |weights|
          invariant forall v :: 0 <= v < |w| ==>
                      w[v] == if v in indices[..k] then saved[v].value else weights[v]
        {
          assert indices[..k + 1] == indices[..k] + [indices[k]];
          w := w[indices[k] := saved[indices[k]].value];
          k := k + 1;
        }
        assert indices[..k] == indices;
        weights := w;
      }
    }

    /** Cancelling the tool: every vertex marked during the session gets
      * the weights it had when the mesh was read. */
    method Cancel()
      requires Valid()
      modifies this
      ensures Valid()
      ensures |weights| == old(|weights|) &&
              forall v :: 0 <= v < |weights| ==>
                weights[v] == if cancelIndices[v] then cancelWeights[v] else old(weights[v])
      ensures cancelWeights == old(cancelWeights) && cancelIndices == old(cancelIndices)
      ensures undoIndices == old(undoIndices) && undoWeights == old(undoWeights)
      ensures numGroups == old(numGroups) && currentMaxGroups == old(currentMaxGroups)
    {
      var w := weights;
      var i := 0;
      while i < |w|
        invariant 0 <= i <= |w| && |w| == |weights|
        invariant forall v :: 0 <= v < |w| ==>
                    w[v] == if v < i && cancelIndices[v] then cancelWeights[v] else weights[v]
      {
        if cancelIndices[i] {
          w := w[i := cancelWeights[i]];
        }
        i := i + 1;
      }
      weights := w;
    }
  }

  // ---------------------------------------------------------------------
  // getClosestFaceVertex
  // ---------------------------------------------------------------------

  /** `getClosestFaceVertex`, given each face vertex's distance to the
    * position: the first vertex at the smallest distance among those
    * within the radius, or none when no vertex is within it. */
  method ClosestFaceVertex(verts: seq<nat>, dists: seq<real>, radius: real) returns (index: Option<nat>, distance: real)
    requires |dists| == |verts|
    ensures index.None? <==> forall k :: 0 <= k < |verts| ==> dists[k] > radius
    ensures index.Some? ==>
              exists k :: 0 <= k < |verts| && verts[k] == index.value && dists[k] == distance && distance <= radius &&
                (forall j :: 0 <= j < k ==> dists[j] > radius || dists[j] > distance)
    ensures index.Some? ==> forall j :: 0 <= j < |verts| && dists[j] <= radius ==> distance <= dists[j]
  {
    index := None;
    distance := 0.0;
    var found := 0;
    var i := 0;
    while i < |verts|
      invariant 0 <= i <= |verts|
      invariant index.None? <==> forall k :: 0 <= k < i ==> dists[k] > radius
      invariant index.Some? ==>
                  found < i && verts[found] == index.value && dists[found] == distance && distance <= radius &&
                  (forall j :: 0 <= j < found ==> dists[j] > radius || dists[j] > distance) &&
                  (forall j :: 0 <= j < i && dists[j] <= radius ==> distance <= dists[j])
    {
      var dist := dists[i];
      if index.None? || distance > dist {
        if dist <= radius {
          index := Some(verts[i]);
          distance := dist;
          found := i;
        }
      }
      i := i + 1;
    }
  }

  // ---------------------------------------------------------------------
  // getVerticesOnSurface
  // ---------------------------------------------------------------------

  /** The entry of a vertex in the brush range. */
  function Falloff(dist: real, radius: real): real
    requires radius != 0.0
  {
    1.0 - dist / radius
  }

  predicate GraphWithin(adjacent: seq<seq<nat>>, opposite: seq<Option<nat>>, n: nat)
  {
    |adjacent| == n && |opposite| == n &&
    (forall v, j :: 0 <= v < n && 0 <= j < |adjacent[v]| ==> adjacent[v][j] < n) &&
    (forall v :: 0 <= v < n && opposite[v].Some? ==> opposite[v].value < n)
  }

  lemma {:induction false} CardBelow(s: set<nat>, n: nat)
    requires forall x :: x in s ==> x < n
    ensures |s| <= n
    decreases n
  {
    if n == 0 {
      assert s == {} by {
        forall x | x in s
          ensures false
        {
        }
      }
    } else {
      CardBelow(s - {n - 1}, n - 1);
    }
  }

  /** The collected brush range: the centre first, then distinct
    * vertices within the radius. */
  predicate InBrush(vs: seq<VertData>, dist: seq<real>, opposite: seq<Option<nat>>, boundary: seq<bool>,
                    islands: bool, center: nat, radius: real)
    requires radius != 0.0 && center < |dist| && |boundary| == |dist| && |opposite| == |dist|
  {
    |vs| >= 1 &&
    vs[0] == (center, Falloff(dist[center], radius), if !islands && boundary[center] then opposite[center] else None) &&
    (forall i, j :: 0 <= i < j < |vs| ==> vs[i].0 != vs[j].0) &&
    (forall k :: 1 <= k < |vs| ==>
       vs[k].0 < |dist| && dist[vs[k].0] <= radius &&
       vs[k] == (vs[k].0, Falloff(dist[vs[k].0], radius), if !islands then opposite[vs[k].0] else None))
  }

  /** Every collected vertex is visited. */
  predicate Marked(vs: seq<VertData>, visited: set<nat>)
  {
    forall k :: 0 <= k < |vs| ==> vs[k].0 in visited
  }

  /** Collecting a vertex not yet visited and within the radius keeps the
    * brush range well formed. */
  lemma CollectStep(vs: seq<VertData>, dist: seq<real>, opposite: seq<Option<nat>>, boundary: seq<bool>,
                    islands: bool, center: nat, radius: real, visited: set<nat>, index: nat)
    requires radius != 0.0 && center < |dist| && |boundary| == |dist| && |opposite| == |dist|
    requires InBrush(vs, dist, opposite, boundary, islands, center, radius) && Marked(vs, visited)
    requires index !in visited && index < |dist| && dist[index] <= radius
    ensures var vs' := vs + [(index, Falloff(dist[index], radius), if !islands then opposite[index] else None)];
            InBrush(vs', dist, opposite, boundary, islands, center, radius) && Marked(vs', visited + {index})
  {
  }

  /** The inner loop of the walk: the connected vertices of one vertex
    * not yet visited are visited, collected when within the radius, and
    * queued together with their opposite boundary vertex. */
  method VisitNeighbours(adjacent: seq<seq<nat>>, dist: seq<real>, opposite: seq<Option<nat>>, boundary: seq<bool>,
                         islands: bool, center: nat, radius: real, currentVert: nat,
                         visited0: set<nat>, vertData0: seq<VertData>, walkVerts0: seq<nat>)
    returns (visited: set<nat>, vertData: seq<VertData>, walkVerts: seq<nat>)
    requires GraphWithin(adjacent, opposite, |dist|) && |boundary| == |dist| && center < |dist| && currentVert < |dist|
    requires radius != 0.0 && (forall x :: x in visited0 ==> x < |dist|) && |visited0| <= |dist|
    requires forall j :: 0 <= j < |walkVerts0| ==> walkVerts0[j] < |dist|
    requires InBrush(vertData0, dist, opposite, boundary, islands, center, radius) && Marked(vertData0, visited0)
    ensures (forall x :: x in visited ==> x < |dist|) && |visited| <= |dist|
    ensures forall j :: 0 <= j < |walkVerts| ==> walkVerts[j] < |dist|
    ensures InBrush(vertData, dist, opposite, boundary, islands, center, radius) && Marked(vertData, visited)
    ensures 2 * (|dist| - |visited|) + |walkVerts| <= 2 * (|dist| - |visited0|) + |walkVerts0|
  {
    var n := |dist|;
    visited, vertData, walkVerts := visited0, vertData0, walkVerts0;
    var e := 0;
    while e < |adjacent[currentVert]|
      invariant 0 <= e <= |adjacent[currentVert]|
      invariant (forall x :: x in visited ==> x < n) && |visited| <= n
      invariant forall j :: 0 <= j < |walkVerts| ==> walkVerts[j] < n
      invariant 2 * (n - |visited|) + |walkVerts| <= 2 * (n - |visited0|) + |walkVerts0|
      invariant InBrush(vertData, dist, opposite, boundary, islands, center, radius) && Marked(vertData, visited)
    {
      var index := adjacent[currentVert][e];
      if index !in visited {
        var opp: Option<nat> := None;
        if dist[index] <= radius {
          if !islands {
            opp := opposite[index];
          }
          CollectStep(vertData, dist, opposite, boundary, islands, center, radius, visited, index);
          vertData := vertData + [(index, Falloff(dist[index], radius), opp)];
        }
        visited := visited + {index};
        CardBelow(visited, n);
        walkVerts := walkVerts + [index];
        if opp.Some? {
          walkVerts := walkVerts + [opp.value];
        }
      }
      e := e + 1;
    }
  }

  /** `getVerticesOnSurface`, with the mesh given as each vertex's
    * connected vertices, distance to the brush centre and opposite
    * boundary vertex: a breadth-first walk from the centre vertex. The
    * centre comes first; every other vertex appears at most once and
    * only when within the radius. A zero radius raises (a division by
    * zero). */
  method VerticesOnSurface(adjacent: seq<seq<nat>>, dist: seq<real>, opposite: seq<Option<nat>>, boundary: seq<bool>,
                           islands: bool, center: nat, radius: real)
    returns (r: Option<seq<VertData>>)
    requires GraphWithin(adjacent, opposite, |dist|) && |boundary| == |dist| && center < |dist|
    ensures r.None? <==> radius == 0.0
    ensures r.Some? ==>
              var vs := r.value;
              |vs| >= 1 &&
              vs[0] == (center, Falloff(dist[center], radius),
                        if !islands && boundary[center] then opposite[center] else None) &&
              (forall i, j :: 0 <= i < j < |vs| ==> vs[i].0 != vs[j].0) &&
              (forall k :: 1 <= k < |vs| ==>
                 vs[k].0 < |dist| && dist[vs[k].0] <= radius &&
                 vs[k] == (vs[k].0, Falloff(dist[vs[k].0], radius), if !islands then opposite[vs[k].0] else None))
  {
    if radius == 0.0 {
      return None;
    }
    var n := |dist|;
    var visited: set<nat> := {center};
    var oppositeIndex: Option<nat> := None;
    if !islands && boundary[center] {
      oppositeIndex := opposite[center];
    }
    var vertData: seq<VertData> := [(center, Falloff(dist[center], radius), oppositeIndex)];
    var walkVerts: seq<nat> := [center];
    if oppositeIndex.Some? {
      walkVerts := walkVerts + [oppositeIndex.value];
    }
    CardBelow(visited, n);
    while |walkVerts| > 0
      invariant (forall x :: x in visited ==> x < n) && |visited| <= n
      invariant forall j :: 0 <= j < |walkVerts| ==> walkVerts[j] < n
      invariant InBrush(vertData, dist, opposite, boundary, islands, center, radius) && Marked(vertData, visited)
      decreases 2 * (n - |visited|) + |walkVerts|
    {
      var currentVert := walkVerts[0];
      walkVerts := walkVerts[1..];
      visited, vertData, walkVerts :=
        VisitNeighbours(adjacent, dist, opposite, boundary, islands, center, radius, currentVert, visited, vertData, walkVerts);
      if |vertData| == n {
        break;
      }
    }
    return Some(vertData);
  }
}
