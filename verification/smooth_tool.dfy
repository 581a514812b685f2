// The Smooth Weights tool's event handling (`eventSelector` in
// smoothWeights.py): dragging and the undo entry of a stroke, frame
// dragging, the setting toggles, the maximum-groups adjustment, the
// selection modes, undo, finishing and cancelling.
//
// Each configurable key is its own event kind here; the mouse-move
// smoothing and painting, the brush value adjustment and the frame
// change act on the host and are modelled elsewhere or left out.

module SmoothTool {
  import opened Wrappers
  import opened SmoothMesh

  /** Every UNDERSAMPLING-th mouse move is evaluated. */
  const Undersampling: nat := 3

  /** A right-click within this many seconds of ending a frame drag does
    * not cancel. */
  const CancelDelay: real := 0.2

  datatype Curve = NoFalloff | Linear | Smooth | Narrow

  datatype Kind =
    | LeftMouse | RightMouse | MouseMove
    | AffectSelectedKey | UseSelectionKey | CurveKey(curve: Curve) | IgnoreBacksideKey | IgnoreLockKey
    | BrushKey | VolumeKey | IslandsKey | NormalizeKey | UseMaxGroupsKey
    | MaxGroupsKey | ValueUpKey | ValueDownKey
    | FloodKey | SelectKey | DeselectKey | ClearSelectionKey | UndoKey
    | ReturnKey | EscKey | OtherKey

  datatype Value = Press | Release | OtherValue

  /** An event; `modifier` is any of alt, shift, ctrl or the OS key. */
  datatype Event = Event(kind: Kind, value: Value, modifier: bool, shift: bool)

  datatype Outcome = RunningModal | PassThrough | Finished | Cancelled

  /** What a flood takes from the mesh and the brush: each vertex's
    * selection colour and opposite boundary vertex, the brush strength,
    * and the smoothed weights of each vertex. */
  datatype FloodInput = FloodInput(selected: seq<bool>, opposite: seq<Option<nat>>, strength: real, smoothed: seq<WeightList>)

  /** A flood input for a mesh of n vertices. */
  predicate Fits(flood: FloodInput, n: nat)
  {
    |flood.selected| == n && |flood.opposite| == n && |flood.smoothed| == n &&
    forall v :: 0 <= v < n && flood.opposite[v].Some? ==> flood.opposite[v].value < n
  }

  /** The kinds handled after the maximum-groups keys, which a held
    * maximum-groups key blocks. */
  predicate AfterMaxGroups(k: Kind)
  {
    k.FloodKey? || k.SelectKey? || k.DeselectKey? || k.ClearSelectionKey? || k.UndoKey? ||
    k.ReturnKey? || k.EscKey? || k.RightMouse? || k.LeftMouse? || k.OtherKey?
  }

  /** A setting key press toggles or sets its setting and ends the
    * event. */
  predicate SettingKey(k: Kind)
  {
    k.AffectSelectedKey? || k.UseSelectionKey? || k.CurveKey? || k.IgnoreBacksideKey? || k.IgnoreLockKey? ||
    k.VolumeKey? || k.IslandsKey? || k.NormalizeKey? || k.UseMaxGroupsKey?
  }

  class SmoothTool {
    const mesh: Mesh
    var isDragging: bool
    var frameDrag: bool
    var frameDragTimer: Option<real>
    var undersamplingSteps: nat
    var setMaxGroups: bool
    var maxGroups: int
    var select: bool
    var deselect: bool
    var affectSelected: bool
    var useSelection: bool
    var ignoreBackside: bool
    var ignoreLock: bool
    var volume: bool
    var islands: bool
    var normalize: bool
    var useMaxGroups: bool
    var curve: Curve

    predicate Valid()
      reads this, mesh
    {
      mesh.Valid() && maxGroups >= 0
    }

    /** The toggles and the falloff curve. */
    function Settings(): (seq<bool>, Curve)
      reads this
    {
      ([affectSelected, useSelection, ignoreBackside, ignoreLock, volume, islands, normalize, useMaxGroups], curve)
    }

    constructor (m: Mesh, settings: seq<bool>, groups: int, falloff: Curve)
      requires m.Valid() && groups >= 0 && |settings| == 10
      ensures Valid() && mesh == m && maxGroups == groups && curve == falloff
      ensures select == settings[0] && deselect == settings[1] && Settings().0 == settings[2..]
      ensures !isDragging && !frameDrag && frameDragTimer.None? && !setMaxGroups
    {
      mesh := m;
      isDragging := false;
      frameDrag := false;
      frameDragTimer := None;
      undersamplingSteps := 0;
      setMaxGroups := false;
      maxGroups := groups;
      select := settings[0];
      deselect := settings[1];
      affectSelected := settings[2];
      useSelection := settings[3];
      ignoreBackside := settings[4];
      ignoreLock := settings[5];
      volume := settings[6];
      islands := settings[7];
      normalize := settings[8];
      useMaxGroups := settings[9];
      curve := falloff;
    }

    /** Entering and leaving dragging mode: any unmodified left click
      * starts a stroke (and its undo entry) when not dragging, a left
      * release ends it. */
    method Drag(ev: Event, undoSteps: int)
      requires Valid() && undoSteps >= 1
      modifies this`isDragging, mesh
      ensures Valid() && mesh.weights == old(mesh.weights)
      ensures isDragging == if ev.kind.LeftMouse? && ev.value == Release then false
                            else if ev.kind.LeftMouse? && !ev.modifier then true
                            else old(isDragging)
      ensures ev.kind.LeftMouse? && !ev.modifier && !old(isDragging) ==>
                |mesh.undoIndices| >= 1 && mesh.undoIndices[0] == [] &&
                |mesh.undoIndices| <= (if old(|mesh.undoIndices|) < undoSteps then undoSteps else old(|mesh.undoIndices|)) &&
                mesh.undoIndices[1..] <= old(mesh.undoIndices)
      ensures !(ev.kind.LeftMouse? && !ev.modifier && !old(isDragging)) ==>
                mesh.undoIndices == old(mesh.undoIndices) && mesh.undoWeights == old(mesh.undoWeights)
      ensures mesh.cancelIndices == old(mesh.cancelIndices) && mesh.cancelWeights == old(mesh.cancelWeights)
      ensures Settings() == old(Settings())
    {
      if ev.kind.LeftMouse? && !ev.modifier {
        if !isDragging {
          isDragging := true;
          mesh.StartStroke(undoSteps);
        }
      }
      if ev.kind.LeftMouse? && ev.value == Release {
        isDragging := false;
      }
    }

    /** Mouse moves while dragging or frame dragging (every
      * `Undersampling`-th one is evaluated) and the right button starting
      * and ending a frame drag; `done` when the event ends here. */
    method MouseAndFrame(ev: Event, hit: bool, now: real) returns (done: bool)
      requires Valid()
      modifies this`undersamplingSteps, this`frameDrag, this`frameDragTimer
      ensures Valid()
      ensures done ==> ev.kind.MouseMove?
      ensures frameDrag == if ev.kind.RightMouse? && ev.value == Release then false
                           else if ev.kind.RightMouse? && ev.shift && ev.value == Press then true
                           else old(frameDrag)
      ensures frameDragTimer == if ev.kind.RightMouse? && ev.value == Release then Some(now) else old(frameDragTimer)
      ensures Settings() == old(Settings())
    {
      if ev.kind.MouseMove? && isDragging {
        undersamplingSteps := undersamplingSteps + 1;
        if undersamplingSteps < Undersampling {
          return true;
        }
        undersamplingSteps := 0;
        if !hit {
          return true;
        }
      }
      if ev.kind.RightMouse? && ev.shift && ev.value == Press {
        frameDrag := true;
      }
      if ev.kind.RightMouse? && ev.value == Release {
        frameDrag := false;
        frameDragTimer := Some(now);
      }
      if ev.kind.MouseMove? && frameDrag {
        undersamplingSteps := undersamplingSteps + 1;
        if undersamplingSteps < Undersampling {
          return true;
        }
        undersamplingSteps := 0;
        return true;
      }
      return false;
    }

    /** The setting keys: a press toggles its setting (or sets the falloff
      * curve) and ends the event; a brush key ends it on any value. */
    method Toggles(ev: Event) returns (handled: bool)
      requires Valid()
      modifies this`affectSelected, this`useSelection, this`ignoreBackside, this`ignoreLock, this`volume,
               this`islands, this`normalize, this`useMaxGroups, this`curve
      ensures Valid()
      ensures handled <==> (SettingKey(ev.kind) && ev.value == Press) || ev.kind.BrushKey?
      ensures SettingKey(ev.kind) && ev.value == Press ==>
                affectSelected == (if ev.kind.AffectSelectedKey? then !old(affectSelected) else old(affectSelected)) &&
                useSelection == (if ev.kind.UseSelectionKey? then !old(useSelection) else old(useSelection)) &&
                ignoreBackside == (if ev.kind.IgnoreBacksideKey? then !old(ignoreBackside) else old(ignoreBackside)) &&
                ignoreLock == (if ev.kind.IgnoreLockKey? then !old(ignoreLock) else old(ignoreLock)) &&
                volume == (if ev.kind.VolumeKey? then !old(volume) else old(volume)) &&
                islands == (if ev.kind.IslandsKey? then !old(islands) else old(islands)) &&
                normalize == (if ev.kind.NormalizeKey? then !old(normalize) else old(normalize)) &&
                useMaxGroups == (if ev.kind.UseMaxGroupsKey? then !old(useMaxGroups) else old(useMaxGroups)) &&
                curve == (if ev.kind.CurveKey? then ev.kind.curve else old(curve))
      ensures !(SettingKey(ev.kind) && ev.value == Press) ==> Settings() == old(Settings())
    {
      if ev.value == Press {
        match ev.kind
        case AffectSelectedKey => affectSelected := !affectSelected; return true;
        case UseSelectionKey => useSelection := !useSelection; return true;
        case CurveKey(c) => curve := c; return true;
        case IgnoreBacksideKey => ignoreBackside := !ignoreBackside; return true;
        case IgnoreLockKey => ignoreLock := !ignoreLock; return true;
        case _ =>
      }
      if ev.kind.BrushKey? {
        return true;
      }
      if ev.value == Press {
        match ev.kind
        case VolumeKey => volume := !volume; return true;
        case IslandsKey => islands := !islands; return true;
        case NormalizeKey => normalize := !normalize; return true;
        case UseMaxGroupsKey => useMaxGroups := !useMaxGroups; return true;
        case _ =>
      }
      return false;
    }

    /** The maximum-groups keys: holding the maximum-groups key lets the
      * value keys add one or take one away, never going below 1. */
    method MaxGroupsKeys(ev: Event) returns (handled: bool)
      requires Valid()
      modifies this`setMaxGroups, this`maxGroups
      ensures Valid()
      ensures setMaxGroups == if ev.kind.MaxGroupsKey? && ev.value == Press then true
                              else if ev.kind.MaxGroupsKey? && ev.value == Release then false
                              else old(setMaxGroups)
      ensures handled <==> (ev.kind.ValueUpKey? || ev.kind.ValueDownKey?) && ev.value == Press && old(setMaxGroups)
      ensures maxGroups == if ev.kind.ValueUpKey? && ev.value == Press && old(setMaxGroups) then old(maxGroups) + 1
                           else if ev.kind.ValueDownKey? && ev.value == Press && old(setMaxGroups)
                           then (if old(maxGroups) - 1 < 1 then 1 else old(maxGroups) - 1)
                           else old(maxGroups)
      ensures ev.kind.ValueDownKey? && ev.value == Press && old(setMaxGroups) ==> maxGroups >= 1
      ensures Settings() == old(Settings())
    {
      if ev.kind.MaxGroupsKey? {
        if ev.value == Press {
          setMaxGroups := true;
        } else if ev.value == Release {
          setMaxGroups := false;
        }
      }
      if ev.kind.ValueUpKey? && ev.value == Press && setMaxGroups {
        maxGroups := maxGroups + 1;
        return true;
      }
      if ev.kind.ValueDownKey? && ev.value == Press && setMaxGroups {
        var value := maxGroups - 1;
        if value < 1 {
          value := 1;
        }
        maxGroups := value;
        return true;
      }
      return false;
    }

    /** `reset` on finishing or cancelling: both selection modes are
      * switched off and dragging ends. */
    method Reset()
      modifies this`select, this`deselect, this`isDragging
      ensures !select && !deselect && !isDragging
    {
      select := false;
      deselect := false;
      isDragging := false;
    }

    /** The keys after the maximum-groups keys: flood, the selection modes
      * (each clears the other), undo, finishing, cancelling, and passing
      * navigation through while not dragging. Finishing and cancelling
      * reset the selection modes and the dragging state. */
    method LaterKeys(ev: Event, now: real, flood: FloodInput) returns (r: Outcome)
      requires Valid() && Fits(flood, |mesh.weights|)
      modifies this`select, this`deselect, this`isDragging, mesh
      ensures Valid() && |mesh.weights| == old(|mesh.weights|)
      ensures ev.kind.FloodKey? && ev.value == Press ==>
                r == RunningModal &&
                |mesh.undoIndices| == old(|mesh.undoIndices|) + 1 && mesh.undoIndices[1..] == old(mesh.undoIndices) &&
                forall v :: 0 <= v < |mesh.weights| ==>
                  (v in mesh.undoIndices[0] <==> Affects(flood.selected[v], useSelection, affectSelected)) &&
                  mesh.weights[v] == if FloodWrites(flood.selected, flood.opposite, useSelection, affectSelected, islands, v)
                                     then flood.smoothed[v] else old(mesh.weights[v])
      ensures ev.kind.SelectKey? && ev.value == Press ==> r == RunningModal && select == !old(select) && !deselect
      ensures ev.kind.DeselectKey? && ev.value == Press ==> r == RunningModal && deselect == !old(deselect) && !select
      ensures !((ev.kind.SelectKey? || ev.kind.DeselectKey?) && ev.value == Press) && r != Finished && r != Cancelled ==>
                select == old(select) && deselect == old(deselect)
      ensures r == Finished || r == Cancelled ==> !select && !deselect && !isDragging
      ensures r != Finished && r != Cancelled ==> isDragging == old(isDragging)
      ensures ev.kind.UndoKey? && ev.value == Press ==>
                r == RunningModal &&
                (old(|mesh.undoIndices|) > 0 ==>
                   mesh.undoIndices == old(mesh.undoIndices[1..]) &&
                   forall v :: 0 <= v < old(|mesh.weights|) ==>
                     mesh.weights[v] == if v in old(mesh.undoIndices[0]) then old(mesh.undoWeights[0][v]).value else old(mesh.weights[v]))
      ensures !(ev.kind.UndoKey? && ev.value == Press) && !(ev.kind.FloodKey? && ev.value == Press) ==>
                mesh.undoIndices == old(mesh.undoIndices)
      ensures ev.kind.ReturnKey? ==> r == Finished
      ensures r == Cancelled <==>
                (ev.kind.EscKey? && !ev.modifier) ||
                (ev.kind.RightMouse? && !ev.modifier && (old(frameDragTimer).None? || now - old(frameDragTimer).value > CancelDelay))
      ensures r == Cancelled ==>
                forall v :: 0 <= v < old(|mesh.weights|) ==>
                  mesh.weights[v] == if mesh.cancelIndices[v] then mesh.cancelWeights[v] else old(mesh.weights[v])
      ensures r != Cancelled && !(ev.kind.UndoKey? && ev.value == Press) && !(ev.kind.FloodKey? && ev.value == Press) ==>
                mesh.weights == old(mesh.weights)
      ensures r == PassThrough <==>
                (!isDragging && !frameDrag &&
                 !((ev.value == Press && (ev.kind.FloodKey? || ev.kind.SelectKey? || ev.kind.DeselectKey? ||
                                          ev.kind.ClearSelectionKey? || ev.kind.UndoKey?)) ||
                   ev.kind.ReturnKey? || ((ev.kind.EscKey? || ev.kind.RightMouse?) && !ev.modifier)))
      ensures Settings() == old(Settings())
    {
      if ev.kind.FloodKey? && ev.value == Press {
        mesh.FloodSmooth(flood.selected, flood.opposite, useSelection, affectSelected, islands, flood.strength, flood.smoothed);
        return RunningModal;
      }
      if ev.kind.SelectKey? && ev.value == Press {
        select := !select;
        deselect := false;
        return RunningModal;
      }
      if ev.kind.DeselectKey? && ev.value == Press {
        deselect := !deselect;
        select := false;
        return RunningModal;
      }
      if ev.kind.ClearSelectionKey? && ev.value == Press {
        return RunningModal;
      }
      if ev.kind.UndoKey? && ev.value == Press {
        mesh.UndoStroke();
        return RunningModal;
      }
      if ev.kind.ReturnKey? {
        Reset();
        return Finished;
      }
      if (ev.kind.RightMouse? || ev.kind.EscKey?) && !ev.modifier {
        if ev.kind.EscKey? {
          mesh.Cancel();
          Reset();
          return Cancelled;
        }
        match frameDragTimer
        case None =>
          mesh.Cancel();
          Reset();
          return Cancelled;
        case Some(t) =>
          if now - t > CancelDelay {
            mesh.Cancel();
            Reset();
            return Cancelled;
          }
          return RunningModal;
      }
      if !isDragging && !frameDrag {
        return PassThrough;
      }
      return RunningModal;
    }

    /** The maximum-groups keys and, unless a maximum-groups key is held,
      * the later keys. */
    method ValueKeys(ev: Event, now: real, flood: FloodInput) returns (r: Outcome)
      requires Valid() && Fits(flood, |mesh.weights|)
      modifies this`setMaxGroups, this`maxGroups, this`select, this`deselect, this`isDragging, mesh
      ensures Valid() && |mesh.weights| == old(|mesh.weights|) && Settings() == old(Settings())
      ensures maxGroups == if ev.kind.ValueUpKey? && ev.value == Press && old(setMaxGroups) then old(maxGroups) + 1
                           else if ev.kind.ValueDownKey? && ev.value == Press && old(setMaxGroups)
                           then (if old(maxGroups) - 1 < 1 then 1 else old(maxGroups) - 1)
                           else old(maxGroups)
      ensures setMaxGroups && AfterMaxGroups(ev.kind) ==>
                r == RunningModal && select == old(select) && deselect == old(deselect) && mesh.weights == old(mesh.weights)
      ensures !(ev.kind.SelectKey? || ev.kind.DeselectKey?) && r != Finished && r != Cancelled ==>
                select == old(select) && deselect == old(deselect)
      ensures !(old(select) && old(deselect)) ==> !(select && deselect)
      ensures r == Finished || r == Cancelled ==> !select && !deselect && !isDragging
      ensures !old(setMaxGroups) && ev.kind.FloodKey? && ev.value == Press ==>
                r == RunningModal &&
                |mesh.undoIndices| == old(|mesh.undoIndices|) + 1 && mesh.undoIndices[1..] == old(mesh.undoIndices) &&
                forall v :: 0 <= v < |mesh.weights| ==>
                  (v in mesh.undoIndices[0] <==> Affects(flood.selected[v], useSelection, affectSelected)) &&
                  mesh.weights[v] == if FloodWrites(flood.selected, flood.opposite, useSelection, affectSelected, islands, v)
                                     then flood.smoothed[v] else old(mesh.weights[v])
      ensures r != Finished && r != Cancelled ==> isDragging == old(isDragging)
      ensures !setMaxGroups && ev.kind.ReturnKey? ==> r == Finished
      ensures r == Cancelled ==> !setMaxGroups && (ev.kind.EscKey? || ev.kind.RightMouse?) && !ev.modifier
      ensures r == PassThrough ==> !isDragging && !frameDrag
    {
      var handled := MaxGroupsKeys(ev);
      if handled || setMaxGroups {
        return RunningModal;
      }
      r := LaterKeys(ev, now, flood);
    }

    /** The keys: the setting keys first, then the value keys. */
    method Keys(ev: Event, now: real, flood: FloodInput) returns (r: Outcome)
      requires Valid() && Fits(flood, |mesh.weights|)
      modifies this`affectSelected, this`useSelection, this`ignoreBackside, this`ignoreLock, this`volume,
               this`islands, this`normalize, this`useMaxGroups, this`curve,
               this`setMaxGroups, this`maxGroups, this`select, this`deselect, this`isDragging, mesh
      ensures Valid() && |mesh.weights| == old(|mesh.weights|)
      ensures !(SettingKey(ev.kind) && ev.value == Press) ==> Settings() == old(Settings())
      ensures SettingKey(ev.kind) && ev.value == Press ==> r == RunningModal
      ensures maxGroups == if ev.kind.ValueUpKey? && ev.value == Press && old(setMaxGroups) then old(maxGroups) + 1
                           else if ev.kind.ValueDownKey? && ev.value == Press && old(setMaxGroups)
                           then (if old(maxGroups) - 1 < 1 then 1 else old(maxGroups) - 1)
                           else old(maxGroups)
      ensures setMaxGroups && AfterMaxGroups(ev.kind) ==>
                r == RunningModal && select == old(select) && deselect == old(deselect) && mesh.weights == old(mesh.weights)
      ensures !(ev.kind.SelectKey? || ev.kind.DeselectKey?) && r != Finished && r != Cancelled ==>
                select == old(select) && deselect == old(deselect)
      ensures !(old(select) && old(deselect)) ==> !(select && deselect)
      ensures r == Finished || r == Cancelled ==> !select && !deselect && !isDragging
      ensures !old(setMaxGroups) && ev.kind.FloodKey? && ev.value == Press ==>
                r == RunningModal &&
                |mesh.undoIndices| == old(|mesh.undoIndices|) + 1 && mesh.undoIndices[1..] == old(mesh.undoIndices) &&
                forall v :: 0 <= v < |mesh.weights| ==>
                  (v in mesh.undoIndices[0] <==> Affects(flood.selected[v], useSelection, affectSelected)) &&
                  mesh.weights[v] == if FloodWrites(flood.selected, flood.opposite, useSelection, affectSelected, islands, v)
                                     then flood.smoothed[v] else old(mesh.weights[v])
      ensures !setMaxGroups && ev.kind.ReturnKey? ==> r == Finished
      ensures r == Cancelled ==> !setMaxGroups && (ev.kind.EscKey? || ev.kind.RightMouse?) && !ev.modifier
      ensures r != Finished && r != Cancelled ==> isDragging == old(isDragging)
      ensures r == PassThrough ==> !isDragging && !frameDrag
    {
      var handled := Toggles(ev);
      if handled {
        return RunningModal;
      }
      r := ValueKeys(ev, now, flood);
    }

    /** One event of the modal operator. `hit` says whether the brush ray
      * found the mesh on a mouse move, `now` is the current time,
      * `undoSteps` the preference for the undo list length and `flood`
      * what a flood takes from the mesh and the brush. */
    method EventSelector(ev: Event, hit: bool, now: real, undoSteps: int, flood: FloodInput) returns (r: Outcome)
      requires Valid() && undoSteps >= 1 && Fits(flood, |mesh.weights|)
      modifies this, mesh
      ensures Valid() && |mesh.weights| == old(|mesh.weights|)
      ensures r != Finished && r != Cancelled ==>
                isDragging == if ev.kind.LeftMouse? && ev.value == Release then false
                              else if ev.kind.LeftMouse? && !ev.modifier then true
                              else old(isDragging)
      ensures !(SettingKey(ev.kind) && ev.value == Press) ==> Settings() == old(Settings())
      ensures SettingKey(ev.kind) && ev.value == Press ==> r == RunningModal
      ensures maxGroups == if ev.kind.ValueUpKey? && ev.value == Press && old(setMaxGroups) then old(maxGroups) + 1
                           else if ev.kind.ValueDownKey? && ev.value == Press && old(setMaxGroups)
                           then (if old(maxGroups) - 1 < 1 then 1 else old(maxGroups) - 1)
                           else old(maxGroups)
      // A held maximum-groups key blocks the later keys.
      ensures setMaxGroups && AfterMaxGroups(ev.kind) ==>
                r == RunningModal && select == old(select) && deselect == old(deselect) && mesh.weights == old(mesh.weights)
      ensures !(ev.kind.SelectKey? || ev.kind.DeselectKey?) && r != Finished && r != Cancelled ==>
                select == old(select) && deselect == old(deselect)
      ensures !(old(select) && old(deselect)) ==> !(select && deselect)
      ensures r == Finished || r == Cancelled ==> !select && !deselect && !isDragging
      ensures !old(setMaxGroups) && ev.kind.FloodKey? && ev.value == Press ==>
                r == RunningModal &&
                |mesh.undoIndices| == old(|mesh.undoIndices|) + 1 && mesh.undoIndices[1..] == old(mesh.undoIndices) &&
                forall v :: 0 <= v < |mesh.weights| ==>
                  (v in mesh.undoIndices[0] <==> Affects(flood.selected[v], useSelection, affectSelected)) &&
                  mesh.weights[v] == if FloodWrites(flood.selected, flood.opposite, useSelection, affectSelected, islands, v)
                                     then flood.smoothed[v] else old(mesh.weights[v])
      ensures !setMaxGroups && ev.kind.ReturnKey? ==> r == Finished
      ensures r == Cancelled ==> !setMaxGroups && (ev.kind.EscKey? || ev.kind.RightMouse?) && !ev.modifier
      ensures r == PassThrough ==> !isDragging && !frameDrag
    {
      Drag(ev, undoSteps);
      var done := MouseAndFrame(ev, hit, now);
      if done {
        return RunningModal;
      }
      r := Keys(ev, now, flood);
    }
  }
}
