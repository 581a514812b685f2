// The edit checkbox of the pose nodes (RBFNodes/editor/nodes/pose.py):
// the callback that enters and leaves pose editing, guarded by the global
// edit flag and the `skip` flag that silences the callback's own revert.

module RbfPoseToggle {

  /** The number of ticked checkboxes. */
  function Ticked(checked: seq<bool>): nat
  {
    if checked == [] then 0 else Ticked(checked[..|checked| - 1]) + (if checked[|checked| - 1] then 1 else 0)
  }

  /** Ticking or unticking one checkbox changes the count by one. */
  lemma {:induction false} TickedUpdate(checked: seq<bool>, i: nat, b: bool)
    requires i < |checked|
    ensures Ticked(checked[i := b]) == Ticked(checked) - (if checked[i] then 1 else 0) + (if b then 1 else 0)
    decreases |checked|
  {
    var n := |checked| - 1;
    var after := checked[i := b];
    assert after[..n] == if i < n then checked[..n][i := b] else checked[..n];
    if i < n {
      TickedUpdate(checked[..n], i, b);
    }
  }

  /** With at most one box ticked, a ticked box is the only one. */
  lemma {:induction false} TickedOne(checked: seq<bool>, i: nat)
    requires i < |checked| && checked[i]
    ensures Ticked(checked) >= 1
    decreases |checked|
  {
    var n := |checked| - 1;
    if i < n {
      assert checked[..n][i] == checked[i];
      TickedOne(checked[..n], i);
    }
  }

  /** The checkboxes of the pose nodes with the two global flags:
    * `editMode` (`poses.editMode.state`) and `skip` (`skip.state`). */
  class PoseToggle {
    var checked: seq<bool>
    var editMode: bool
    var skip: bool

    /** Between clicks: no revert is pending, at most one pose is being
      * edited, and the edit flag is set exactly when one is. */
    ghost predicate Valid()
      reads this
    {
      !skip && Ticked(checked) <= 1 && (editMode <==> Ticked(checked) == 1)
    }

    constructor (n: nat)
      ensures Valid() && |checked| == n && !editMode
      ensures forall i :: 0 <= i < n ==> !checked[i]
    {
      checked := seq(n, _ => false);
      editMode := false;
      skip := false;
      new;
      TicksNone(checked);
    }

    static lemma {:induction false} TicksNone(c: seq<bool>)
      requires forall i :: 0 <= i < |c| ==> !c[i]
      ensures Ticked(c) == 0
      decreases |c|
    {
      if c != [] {
        TicksNone(c[..|c| - 1]);
      }
    }

    /** The callback after a box was unticked: unless it is the revert
      * of a refused edit, the pose is stored (`rbf.update`, reported as
      * `updated`) and the edit flag cleared; `skip` is cleared. */
    method Unticked() returns (updated: bool)
      modifies this`editMode, this`skip
      ensures updated == !old(skip)
      ensures editMode == (old(editMode) && old(skip))
      ensures !skip
    {
      updated := false;
      if !skip {
        updated := true;
        editMode := false;
      }
      skip := false;
    }

    /** A click on the box of pose i: the box flips and the callback runs.
      * `editOk` is what `poses.editPose` returns when it is asked. A
      * refused tick sets `skip` and unticks the box, which runs the
      * callback a second time. */
    method Click(i: nat, editOk: bool) returns (updated: bool)
      requires Valid() && i < |checked|
      modifies this
      ensures Valid()
      ensures old(checked[i]) ==> updated && checked == old(checked)[i := false] && !editMode
      ensures !old(checked[i]) && !old(editMode) && editOk ==> !updated && checked == old(checked)[i := true] && editMode
      ensures !old(checked[i]) && (old(editMode) || !editOk) ==> !updated && checked == old(checked) && editMode == old(editMode)
    {
      TickedUpdate(checked, i, !checked[i]);
      if checked[i] {
        TickedOne(checked, i);
      }
      checked := checked[i := !checked[i]];
      if checked[i] {
        if !editMode && editOk {
          editMode := true;
          updated := false;
        } else {
          skip := true;
          assert checked[i := false] == old(checked);
          checked := checked[i := false];
          updated := Unticked();
        }
      } else {
        updated := Unticked();
      }
    }
  }
}
