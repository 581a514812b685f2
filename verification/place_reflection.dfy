// Place Reflection: the modal operator that puts the selected object where
// its reflection appears under the cursor. Vectors are over the reals; the
// ray cast, the square root of the distance and the conversion of a
// direction to a quaternion or Euler angles belong to the host and appear
// as inputs or as symbolic values.

module PlaceReflection {
  import opened Wrappers
  import opened PyStr

  // ------------------------------------------------------------------
  // Vectors and the reflection formula (`reflection_vector`).
  // ------------------------------------------------------------------

  datatype Vec3 = Vec3(x: real, y: real, z: real)

  function Add(a: Vec3, b: Vec3): Vec3
  {
    Vec3(a.x + b.x, a.y + b.y, a.z + b.z)
  }

  function Sub(a: Vec3, b: Vec3): Vec3
  {
    Vec3(a.x - b.x, a.y - b.y, a.z - b.z)
  }

  function Scale(k: real, a: Vec3): Vec3
  {
    Vec3(k * a.x, k * a.y, k * a.z)
  }

  /** The dot product, `a @ b` on `mathutils` vectors. */
  function Dot(a: Vec3, b: Vec3): real
  {
    a.x * b.x + a.y * b.y + a.z * b.z
  }

  lemma DotSub(a: Vec3, b: Vec3, c: Vec3)
    ensures Dot(Sub(a, b), c) == Dot(a, c) - Dot(b, c)
  {
  }

  lemma DotScale(k: real, a: Vec3, c: Vec3)
    ensures Dot(Scale(k, a), c) == k * Dot(a, c)
    ensures Dot(c, Scale(k, a)) == k * Dot(c, a)
  {
  }

  lemma DotSymmetric(a: Vec3, b: Vec3)
    ensures Dot(a, b) == Dot(b, a)
  {
  }

  /** `reflection_vector`: the view direction mirrored at the plane with
    * normal `n`, `v - 2 (v . n) n`. */
  function ReflectionVector(v: Vec3, n: Vec3): Vec3
  {
    Sub(v, Scale(2.0 * Dot(v, n), n))
  }

  /** For a unit normal the component along the normal changes sign. */
  lemma {:induction false} ReflectionFlipsNormal(v: Vec3, n: Vec3)
    requires Dot(n, n) == 1.0
    ensures Dot(ReflectionVector(v, n), n) == -Dot(v, n)
  {
    var k := 2.0 * Dot(v, n);
    DotSub(v, Scale(k, n), n);
    DotScale(k, n, n);
  }

  /** For a unit normal the reflection keeps the length of the view
    * direction. */
  lemma {:induction false} ReflectionKeepsLength(v: Vec3, n: Vec3)
    requires Dot(n, n) == 1.0
    ensures Dot(ReflectionVector(v, n), ReflectionVector(v, n)) == Dot(v, v)
  {
    var d := Dot(v, n);
    var r := ReflectionVector(v, n);
    var w := Scale(2.0 * d, n);
    DotSub(v, w, r);
    DotScale(2.0 * d, n, r);
    ReflectionFlipsNormal(v, n);
    DotSymmetric(n, r);
    DotSub(v, w, v);
    DotScale(2.0 * d, n, v);
    DotSymmetric(n, v);
    calc {
      Dot(r, r);
      Dot(v, r) - 2.0 * d * Dot(n, r);
      Dot(v, v) - 2.0 * d * Dot(n, v) + 2.0 * d * d;
      Dot(v, v);
    }
  }

  /** For a unit normal, reflecting twice gives the view direction back. */
  lemma {:induction false} ReflectionInvolution(v: Vec3, n: Vec3)
    requires Dot(n, n) == 1.0
    ensures ReflectionVector(ReflectionVector(v, n), n) == v
  {
    ReflectionFlipsNormal(v, n);
    var r := ReflectionVector(v, n);
    assert Dot(r, n) == -Dot(v, n);
  }

  /** A view direction along the surface is not changed. */
  lemma ReflectionOfTangent(v: Vec3, n: Vec3)
    requires Dot(v, n) == 0.0
    ensures ReflectionVector(v, n) == v
  {
  }

  // ------------------------------------------------------------------
  // Axes and rotations.
  // ------------------------------------------------------------------

  /** The operator's `axis_value`: the axis of the object that points
    * along the reflection ("X", "-X", "Y", "-Y", "Z", "-Z"). */
  datatype Axis = PosX | NegX | PosY | NegY | PosZ | NegZ

  /** The coordinate an axis runs along: 0, 1 or 2. */
  function Line(a: Axis): nat
  {
    match a
    case PosX | NegX => 0
    case PosY | NegY => 1
    case PosZ | NegZ => 2
  }

  /** The up axis `set_rotation` passes to `to_track_quat`: "Y" for a track
    * axis along Z, "Z" otherwise. */
  function UpAxis(track: Axis): (up: Axis)
    ensures up == PosY || up == PosZ
    ensures up == PosY <==> Line(track) == 2
  {
    if track == PosZ || track == NegZ then PosY else PosZ
  }

  /** The up axis never runs along the track axis, as `to_track_quat`
    * requires. */
  lemma UpAxisOffTrack(track: Axis)
    ensures Line(UpAxis(track)) != Line(track)
  {
  }

  datatype EulerOrder = XYZ | XZY | YXZ | YZX | ZXY | ZYX

  /** An object's `rotation_mode`. */
  datatype RotationMode = Quaternion | AxisAngle | Euler(order: EulerOrder)

  /** The rotation `to_track_quat` builds: `track` pointing along `dir`,
    * `up` kept upwards. */
  datatype Track = Track(dir: Vec3, track: Axis, up: Axis)

  /** The value of `rotation_euler`: as it was, or converted from a track
    * rotation in the given order. */
  datatype EulerRot = EulerAngles(angles: Vec3) | EulerOf(t: Track, order: EulerOrder)

  /** The value of `rotation_quaternion`. */
  datatype QuatRot = QuatValue(w: real, xyz: Vec3) | QuatOf(t: Track)

  /** What the operator reads and writes on the selected object. */
  datatype Pose = Pose(location: Vec3, mode: RotationMode, euler: EulerRot, quat: QuatRot)

  /** The object shows the track rotation `t` in its current mode. */
  predicate Shows(p: Pose, t: Track)
  {
    match p.mode
    case Quaternion => p.quat == QuatOf(t)
    case AxisAngle => false
    case Euler(order) => p.euler == EulerOf(t, order)
  }

  // ------------------------------------------------------------------
  // The operator's state and its pure transitions.
  // ------------------------------------------------------------------

  /** The operator properties set in the redo panel. */
  datatype Settings = Settings(axis: Axis, locationValue: bool, rotationValue: bool)

  /** The modal state of the operator. */
  datatype Tool = Tool(isDragging: bool, shiftPressed: bool, ctrlPressed: bool,
                       dragPos: Option<Vec3>, dist: Option<real>, reflVector: Option<Vec3>,
                       distFactor: real)
  {
    /** A reflection vector only exists together with the hit point and
      * the distance of the first drag, and the factor is never negative. */
    predicate Valid()
    {
      (reflVector.Some? ==> dragPos.Some? && dist.Some?) && distFactor >= 0.0
    }
  }

  /** The class attributes an operator starts with. */
  const InitialTool := Tool(false, false, false, None, None, None, 1.0)

  datatype Status = RunningModal | Finished | Cancelled

  /** A ray-cast hit under the cursor: the point, the surface normal,
    * whether the object hit is the one being placed, and the distance
    * from the point to the object (computed with a square root). */
  datatype Hit = Hit(pos: Vec3, normal: Vec3, isPlaced: bool, measured: real)

  /** An event: its type, the view direction under the cursor and the
    * ray cast along it. */
  datatype Event = Event(kind: string, view: Vec3, hit: Option<Hit>)

  const WHEEL_UP := "WHEELUPMOUSE"
  const WHEEL_DOWN := "WHEELDOWNMOUSE"

  /** The wheel step: 0.05, a tenth of it with Shift, ten times it with
    * Ctrl. */
  function Speed(shiftPressed: bool, ctrlPressed: bool): (s: real)
    ensures s > 0.0
  {
    if shiftPressed then 0.05 * 0.1 else if ctrlPressed then 0.05 * 10.0 else 0.05
  }

  /** `set_distance_factor`: the wheel adds or subtracts the step and the
    * factor is floored at 0. */
  function DistanceFactor(factor: real, shiftPressed: bool, ctrlPressed: bool, kind: string): (r: real)
    ensures r >= 0.0
    ensures kind == WHEEL_UP && factor >= 0.0 ==> r == factor + Speed(shiftPressed, ctrlPressed)
    ensures kind == WHEEL_DOWN ==> r == if factor >= Speed(shiftPressed, ctrlPressed) then factor - Speed(shiftPressed, ctrlPressed) else 0.0
    ensures kind != WHEEL_UP && kind != WHEEL_DOWN && factor >= 0.0 ==> r == factor
  {
    var speed := Speed(shiftPressed, ctrlPressed);
    var f := if kind == WHEEL_UP then factor + speed else if kind == WHEEL_DOWN then factor - speed else factor;
    if f < 0.0 then 0.0 else f
  }

  /** One wheel step down undoes one step up. */
  lemma WheelRoundTrip(factor: real, shiftPressed: bool, ctrlPressed: bool)
    requires factor >= 0.0
    ensures DistanceFactor(DistanceFactor(factor, shiftPressed, ctrlPressed, WHEEL_UP), shiftPressed, ctrlPressed, WHEEL_DOWN) == factor
  {
  }

  /** The position `set_position` computes: from the hit point along the
    * reflection, `reflVector * dist * distFactor + dragPos`. */
  function Position(refl: Vec3, dist: real, factor: real, dragPos: Vec3): Vec3
  {
    Add(Scale(factor, Scale(dist, refl)), dragPos)
  }

  /** With a unit view direction and a unit normal, the object sits
    * `dist * factor` away from the hit point, along the reflection. */
  lemma {:induction false} PlacedAtDistance(v: Vec3, n: Vec3, dist: real, factor: real, dragPos: Vec3)
    requires Dot(v, v) == 1.0 && Dot(n, n) == 1.0
    ensures var d := Sub(Position(ReflectionVector(v, n), dist, factor, dragPos), dragPos);
      d == Scale(dist * factor, ReflectionVector(v, n)) &&
      Dot(d, d) == (dist * factor) * (dist * factor)
  {
    var r := ReflectionVector(v, n);
    var k := dist * factor;
    var d := Sub(Position(r, dist, factor, dragPos), dragPos);
    assert d == Scale(k, r);
    ReflectionKeepsLength(v, n);
    DotScale(k, r, Scale(k, r));
    DotScale(k, r, r);
    assert Dot(d, d) == k * (k * Dot(r, r));
  }

  /** `set_position`: nothing before the first drag; otherwise the object
    * moves to `Position`. */
  function Positioned(t: Tool, p: Pose): (r: Pose)
    requires t.Valid()
    ensures r.mode == p.mode && r.euler == p.euler && r.quat == p.quat
    ensures t.reflVector.None? ==> r == p
  {
    if t.reflVector.None? then p
    else p.(location := Position(t.reflVector.value, t.dist.value, t.distFactor, t.dragPos.value))
  }

  /** `set_rotation`: nothing before the first drag; otherwise the object
    * turns to the track rotation, written in its own rotation mode. An
    * object in axis-angle mode is switched to quaternions and gets the
    * quaternion. */
  function Rotated(s: Settings, t: Tool, p: Pose): (r: Pose)
    ensures r.location == p.location
    ensures t.reflVector.None? ==> r == p
    ensures t.reflVector.Some? ==> Shows(r, Track(t.reflVector.value, s.axis, UpAxis(s.axis)))
  {
    if t.reflVector.None? then p
    else
      var q := Track(t.reflVector.value, s.axis, UpAxis(s.axis));
      match p.mode
      case Quaternion => p.(quat := QuatOf(q))
      case AxisAngle => p.(mode := Quaternion, quat := QuatOf(q))
      case Euler(order) => p.(euler := EulerOf(q, order))
  }

  /** `set_rotation` as written: for an axis-angle object the mode is
    * switched to quaternions, and then the rotation is converted to
    * Euler angles in the order "AXIS_ANGLE", which `to_euler` rejects
    * with a `ValueError`; the flag says it raised. */
  function RotatedAsWritten(s: Settings, t: Tool, p: Pose): (r: (Pose, bool))
  {
    if t.reflVector.None? then (p, false)
    else
      var q := Track(t.reflVector.value, s.axis, UpAxis(s.axis));
      match p.mode
      case Quaternion => (p.(quat := QuatOf(q)), false)
      case AxisAngle => (p.(mode := Quaternion), true)
      case Euler(order) => (p.(euler := EulerOf(q, order)), false)
  }

  /** As written, an axis-angle object raises and keeps its rotation; in
    * every other mode the corrected version does the same thing. */
  lemma AxisAngleRaises(s: Settings, t: Tool, p: Pose)
    ensures t.reflVector.Some? && p.mode == AxisAngle ==>
      RotatedAsWritten(s, t, p) == (p.(mode := Quaternion), true) &&
      Shows(Rotated(s, t, p), Track(t.reflVector.value, s.axis, UpAxis(s.axis)))
    ensures p.mode != AxisAngle ==> RotatedAsWritten(s, t, p) == (Rotated(s, t, p), false)
  {
  }

  /** An axis-angle object whose quaternion is still the unrotated one
    * does not show the track rotation after `set_rotation` as written. */
  lemma AxisAngleExample()
    ensures var s := Settings(PosZ, true, true);
      var t := InitialTool.(dragPos := Some(Vec3(0.0, 0.0, 0.0)), dist := Some(1.0), reflVector := Some(Vec3(0.0, 0.0, 1.0)));
      var p := Pose(Vec3(0.0, 0.0, 0.0), AxisAngle, EulerAngles(Vec3(0.0, 0.0, 0.0)), QuatValue(1.0, Vec3(0.0, 0.0, 0.0)));
      var q := Track(Vec3(0.0, 0.0, 1.0), PosZ, PosY);
      RotatedAsWritten(s, t, p).1 && !Shows(RotatedAsWritten(s, t, p).0, q) && Shows(Rotated(s, t, p), q)
  {
  }

  /** `applyPlacement`: position and rotation, each only when its option
    * is on. */
  function Placed(s: Settings, t: Tool, p: Pose): (r: Pose)
    requires t.Valid()
    ensures !s.locationValue ==> r.location == p.location
    ensures !s.rotationValue ==> r.mode == p.mode && r.euler == p.euler && r.quat == p.quat
    ensures t.reflVector.None? ==> r == p
  {
    var p1 := if s.locationValue then Positioned(t, p) else p;
    if s.rotationValue then Rotated(s, t, p1) else p1
  }

  /** `drag_placement`: a hit on another object records the hit point and
    * the reflection of the view direction, fixes the distance at the
    * first drag, and places the object. */
  function Dragged(s: Settings, t: Tool, p: Pose, e: Event): (r: (Tool, Pose))
    requires t.Valid()
    ensures r.0.Valid() && r.0.distFactor == t.distFactor
    ensures t.dist.Some? ==> r.0.dist == t.dist
  {
    if e.hit.None? || e.hit.value.isPlaced then (t, p)
    else
      var h := e.hit.value;
      var t1 := t.(dragPos := Some(h.pos), reflVector := Some(ReflectionVector(e.view, h.normal)),
                   dist := if t.dist.None? then Some(h.measured) else t.dist);
      (t1, Placed(s, t1, p))
  }

  /** The flags after an event: LEFTMOUSE flips dragging, a type naming
    * SHIFT or CTRL flips that modifier (each key is seen on press and on
    * release). */
  function Toggled(t: Tool, kind: string): Tool
  {
    t.(isDragging := if kind == "LEFTMOUSE" then !t.isDragging else t.isDragging,
       shiftPressed := if Contains(kind, "SHIFT") then !t.shiftPressed else t.shiftPressed,
       ctrlPressed := if Contains(kind, "CTRL") then !t.ctrlPressed else t.ctrlPressed)
  }

  predicate IsFinish(kind: string) { kind == "RET" || kind == "NUMPAD_ENTER" }
  predicate IsCancel(kind: string) { kind == "RIGHTMOUSE" || kind == "ESC" }

  /** `cancel` as written: only the location and the Euler rotation were
    * recorded at `invoke`, so only they are put back. */
  function RestoredAsWritten(start: Pose, p: Pose): Pose
  {
    p.(location := start.location, euler := start.euler)
  }

  /** An object in quaternion mode keeps the rotation of the drag after
    * a cancel as written. */
  lemma CancelAsWrittenKeepsRotation(start: Pose, p: Pose, q: Track)
    requires p.mode == Quaternion && Shows(p, q) && !Shows(start, q)
    ensures Shows(RestoredAsWritten(start, p), q) && RestoredAsWritten(start, p) != start
  {
  }

  /** The first half of `modal`: the toggles, then the wheel, which sets
    * the factor and the position. */
  function Prepared(t: Tool, p: Pose, kind: string): (r: (Tool, Pose))
    requires t.Valid()
    ensures r.0.Valid()
  {
    var t1 := Toggled(t, kind);
    if kind == WHEEL_UP || kind == WHEEL_DOWN then
      var t2 := t1.(distFactor := DistanceFactor(t1.distFactor, t1.shiftPressed, t1.ctrlPressed, kind));
      (t2, Positioned(t2, p))
    else (t1, p)
  }

  /** The second half of `modal`: dragging, finishing or cancelling. */
  function Acted(s: Settings, start: Pose, t: Tool, p: Pose, e: Event): (r: (Status, Tool, Pose))
    requires t.Valid()
    ensures r.1.Valid()
  {
    if e.kind == "MOUSEMOVE" && t.isDragging then
      var (t3, p3) := Dragged(s, t, p, e);
      (RunningModal, t3, p3)
    else if IsFinish(e.kind) then (Finished, t.(isDragging := false), p)
    else if IsCancel(e.kind) then (Cancelled, t.(isDragging := false), start)
    else (RunningModal, t, p)
  }

  /** One event of `modal`. */
  function Step(s: Settings, start: Pose, t: Tool, p: Pose, e: Event): (r: (Status, Tool, Pose))
    requires t.Valid()
    ensures r.1.Valid()
  {
    var (t2, p2) := Prepared(t, p, e.kind);
    Acted(s, start, t2, p2, e)
  }

  // Properties of a step.

  /** LEFTMOUSE flips dragging; SHIFT and CTRL events flip their own
    * modifier and nothing else does. */
  lemma StepToggles(s: Settings, start: Pose, t: Tool, p: Pose, e: Event)
    requires t.Valid()
    ensures var r := Step(s, start, t, p, e).1;
      r.shiftPressed == (t.shiftPressed != Contains(e.kind, "SHIFT")) &&
      r.ctrlPressed == (t.ctrlPressed != Contains(e.kind, "CTRL")) &&
      (!IsFinish(e.kind) && !IsCancel(e.kind) ==> r.isDragging == (t.isDragging != (e.kind == "LEFTMOUSE")))
  {
  }

  /** Once the first drag has fixed the distance, no event changes it. */
  lemma DistanceFixed(s: Settings, start: Pose, t: Tool, p: Pose, e: Event)
    requires t.Valid() && t.dist.Some?
    ensures Step(s, start, t, p, e).1.dist == t.dist
  {
  }

  /** Before the first drag no event other than a cancel moves or turns
    * the object. */
  lemma NothingBeforeDrag(s: Settings, start: Pose, t: Tool, p: Pose, e: Event)
    requires t.Valid() && t.reflVector.None? && !IsCancel(e.kind)
    requires e.kind != "MOUSEMOVE"
    ensures Step(s, start, t, p, e).2 == p
  {
  }

  /** A wheel event changes only the factor (and the object's location):
    * up adds the step of the modifiers now held, down takes it away and
    * stops at 0. */
  lemma WheelStep(s: Settings, start: Pose, t: Tool, p: Pose, kind: string)
    requires t.Valid() && (kind == WHEEL_UP || kind == WHEEL_DOWN)
    ensures var r := Step(s, start, t, p, Event(kind, Vec3(0.0, 0.0, 0.0), None));
      var speed := Speed(t.shiftPressed, t.ctrlPressed);
      r.0 == RunningModal &&
      r.1 == t.(distFactor := if kind == WHEEL_UP then t.distFactor + speed
                              else if t.distFactor >= speed then t.distFactor - speed
                              else 0.0) &&
      r.2 == Positioned(r.1, p)
  {
    AbsentChar(kind, "SHIFT", 2);
    AbsentChar(kind, "CTRL", 0);
  }

  /** A cancel puts the object back as it was at `invoke` and ends
    * dragging. */
  lemma CancelRestores(s: Settings, start: Pose, t: Tool, p: Pose, e: Event)
    requires t.Valid() && IsCancel(e.kind)
    ensures var r := Step(s, start, t, p, e);
      r.0 == Cancelled && r.2 == start && !r.1.isDragging
  {
  }

  /** Dragging over another object with both options on places the object
    * `dist * distFactor` from the hit along the reflection and turns it
    * along the reflection. */
  lemma DragPlaces(s: Settings, start: Pose, t: Tool, p: Pose, e: Event)
    requires t.Valid() && s.locationValue && s.rotationValue
    requires e.kind == "MOUSEMOVE" && t.isDragging
    requires e.hit.Some? && !e.hit.value.isPlaced
    ensures var r := Step(s, start, t, p, e);
      var h := e.hit.value;
      var refl := ReflectionVector(e.view, h.normal);
      var dist := if t.dist.Some? then t.dist.value else h.measured;
      r.0 == RunningModal && r.1.reflVector == Some(refl) && r.1.dist == Some(dist) &&
      r.2.location == Position(refl, dist, t.distFactor, h.pos) &&
      Shows(r.2, Track(refl, s.axis, UpAxis(s.axis)))
  {
    AbsentChar("MOUSEMOVE", "SHIFT", 2);
    AbsentChar("MOUSEMOVE", "CTRL", 0);
  }

  // ------------------------------------------------------------------
  // The operator.
  // ------------------------------------------------------------------

  /** The object being placed. */
  class SceneObject {
    var location: Vec3
    var mode: RotationMode
    var euler: EulerRot
    var quat: QuatRot

    function Current(): Pose
      reads this
    {
      Pose(location, mode, euler, quat)
    }

    constructor(p: Pose)
      ensures Current() == p
    {
      location, mode, euler, quat := p.location, p.mode, p.euler, p.quat;
    }
  }

  /** `OBJECT_OT_PlaceReflection` once `invoke` has found a selected
    * object. */
  class PlaceReflection {
    const settings: Settings
    /** The pose recorded at `invoke`. */
    const start: Pose
    var isDragging: bool
    var shiftPressed: bool
    var ctrlPressed: bool
    var dragPos: Option<Vec3>
    var dist: Option<real>
    var reflVector: Option<Vec3>
    var distFactor: real

    function State(): Tool
      reads this
    {
      Tool(isDragging, shiftPressed, ctrlPressed, dragPos, dist, reflVector, distFactor)
    }

    predicate Valid()
      reads this
    {
      State().Valid()
    }

    /** `invoke` with a selected object: the operator starts from its
      * class attributes and records the object's pose. */
    constructor(settings: Settings, obj: SceneObject)
      ensures this.settings == settings && start == obj.Current()
      ensures State() == InitialTool && Valid()
    {
      this.settings := settings;
      start := obj.Current();
      isDragging, shiftPressed, ctrlPressed := false, false, false;
      dragPos, dist, reflVector := None, None, None;
      distFactor := 1.0;
    }

    /** `set_distance_factor`. */
    method SetDistanceFactor(kind: string)
      requires Valid()
      modifies this
      ensures State() == old(State()).(distFactor := DistanceFactor(old(distFactor), shiftPressed, ctrlPressed, kind))
      ensures Valid()
    {
      var speed := 0.05;
      if shiftPressed {
        speed := speed * 0.1;
      } else if ctrlPressed {
        speed := speed * 10.0;
      }
      if kind == WHEEL_UP {
        distFactor := distFactor + speed;
      } else if kind == WHEEL_DOWN {
        distFactor := distFactor - speed;
      }
      if distFactor < 0.0 {
        distFactor := 0.0;
      }
    }

    /** `set_position`. */
    method SetPosition(obj: SceneObject)
      requires Valid()
      modifies obj
      ensures obj.Current() == Positioned(State(), old(obj.Current()))
    {
      if reflVector.None? {
        return;
      }
      obj.location := Add(Scale(distFactor, Scale(dist.value, reflVector.value)), dragPos.value);
    }

    /** `set_rotation`, with an axis-angle object given the quaternion
      * after its mode is switched. */
    method SetRotation(obj: SceneObject)
      modifies obj
      ensures obj.Current() == Rotated(settings, State(), old(obj.Current()))
    {
      if reflVector.None? {
        return;
      }
      var upAxis := PosZ;
      if settings.axis == PosZ || settings.axis == NegZ {
        upAxis := PosY;
      }
      var q := Track(reflVector.value, settings.axis, upAxis);
      var order := obj.mode;
      if order == AxisAngle {
        obj.mode := Quaternion;
      }
      if order == Quaternion || order == AxisAngle {
        obj.quat := QuatOf(q);
      } else {
        obj.euler := EulerOf(q, order.order);
      }
    }

    /** `applyPlacement`, which is also what `execute` does. */
    method ApplyPlacement(obj: SceneObject)
      requires Valid()
      modifies obj
      ensures obj.Current() == Placed(settings, State(), old(obj.Current()))
    {
      if settings.locationValue {
        SetPosition(obj);
      }
      if settings.rotationValue {
        SetRotation(obj);
      }
    }

    /** `drag_placement`. */
    method DragPlacement(obj: SceneObject, e: Event)
      requires Valid()
      modifies this, obj
      ensures (State(), obj.Current()) == Dragged(settings, old(State()), old(obj.Current()), e)
      ensures Valid()
    {
      if e.hit.None? || e.hit.value.isPlaced {
        return;
      }
      var h := e.hit.value;
      dragPos := Some(h.pos);
      reflVector := Some(ReflectionVector(e.view, h.normal));
      if dist.None? {
        dist := Some(h.measured);
      }
      ApplyPlacement(obj);
    }

    /** `cancel`: the recorded pose is put back and dragging ends. */
    method Cancel(obj: SceneObject) returns (status: Status)
      modifies this, obj
      ensures obj.Current() == start && status == Cancelled
      ensures State() == old(State()).(isDragging := false)
    {
      obj.location, obj.mode, obj.euler, obj.quat := start.location, start.mode, start.euler, start.quat;
      isDragging := false;
      return Cancelled;
    }

    /** The toggles at the top of `modal`. */
    method Toggle(kind: string)
      requires Valid()
      modifies this
      ensures State() == Toggled(old(State()), kind) && Valid()
    {
      if kind == "LEFTMOUSE" {
        isDragging := !isDragging;
      }
      if Contains(kind, "SHIFT") {
        shiftPressed := !shiftPressed;
      }
      if Contains(kind, "CTRL") {
        ctrlPressed := !ctrlPressed;
      }
    }

    /** `modal`: one event. */
    method Modal(obj: SceneObject, e: Event) returns (status: Status)
      requires Valid()
      modifies this, obj
      ensures (status, State(), obj.Current()) == Step(settings, start, old(State()), old(obj.Current()), e)
      ensures Valid()
    {
      Prepare(obj, e.kind);
      status := Act(obj, e);
    }

    /** The toggles and the wheel. */
    method Prepare(obj: SceneObject, kind: string)
      requires Valid()
      modifies this, obj
      ensures (State(), obj.Current()) == Prepared(old(State()), old(obj.Current()), kind)
      ensures Valid()
    {
      Toggle(kind);
      if kind == WHEEL_UP || kind == WHEEL_DOWN {
        SetDistanceFactor(kind);
        SetPosition(obj);
      }
    }

    /** Dragging, finishing or cancelling. */
    method Act(obj: SceneObject, e: Event) returns (status: Status)
      requires Valid()
      modifies this, obj
      ensures (status, State(), obj.Current()) == Acted(settings, start, old(State()), old(obj.Current()), e)
      ensures Valid()
    {
      if e.kind == "MOUSEMOVE" && isDragging {
        DragPlacement(obj, e);
        status := RunningModal;
      } else if IsFinish(e.kind) {
        isDragging := false;
        status := Finished;
      } else if IsCancel(e.kind) {
        status := Cancel(obj);
      } else {
        status := RunningModal;
      }
    }
  }
}
