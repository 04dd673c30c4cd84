/**
 The causal crop controller (`DeterministicCropPlanner`): hysteresis gates, timestamp-based
 motion, source clamping and the containment repair that overrides them.
 */
module SeedPlanner {
  import opened Prelude
  import opened Geometry
  import opened Motion

  datatype Profile = Tight | Balanced | Safe | FullMovement

  function TargetFraction(p: Profile): (r: real)
    ensures 0.0 < r < 1.0
  {
    match p
    case Tight => 0.60
    case Balanced => 0.50
    case Safe => 0.40
    case FullMovement => 0.33
  }

  const ZOOM := Limits(0.5, 1.0)
  const PAN := Limits(0.25, 0.5)
  const SCALE_ENTER := 0.05
  const SCALE_EXIT := 0.02
  const CENTER_ENTER := 0.01
  const CENTER_EXIT := 0.004

  /** The square root, logarithm and exponential the controller calls. */
  datatype Functions = Functions(root: Root, log: real -> real, exp: real -> real)

  ghost predicate ValidFunctions(fn: Functions) {
    && IsSqrt(fn.root)
    && (forall h: real :: h > 0.0 ==> fn.exp(fn.log(h)) == h)
    && (forall y: real :: fn.exp(y) > 0.0 && fn.log(fn.exp(y)) == y)
    && (forall y: real, z: real :: y < z ==> fn.exp(y) < fn.exp(z))
  }

  datatype Camera = Camera(frame: Frame, profile: Profile)

  datatype Measurement = Measurement(bounds: Option<Rect>, timestamp: int, sampled: bool)

  /** Signed pan velocities per axis and the zoom velocity. */
  datatype Velocities = Velocities(x: real, y: real, zoom: real) {
    predicate Any() { x != 0.0 || y != 0.0 || zoom != 0.0 }
  }

  const REST := Velocities(0.0, 0.0, 0.0)

  datatype Action =
    | Initial | Smoothed | DeadbandHold | StartFullFrame | WidenOnMiss
    | SourceAspectLimited | ContainmentOverride

  datatype Gates = Gates(scaleAdjusting: bool, centerAdjusting: bool)

  /** The relative errors the gates compare, absent on misses and on the first frame. */
  datatype Errors = Errors(observedFraction: real, scale: real, x: real, y: real)

  datatype SeedTrace = SeedTrace(
    desired: Rect, missed: bool, smoothing: bool, containmentOverride: bool,
    sourceAspectLimited: bool, action: Action, errors: Option<Errors>,
    scaleHeld: bool, centerHeld: bool, gates: Gates)

  /** What one frame hands to the next. */
  datatype SeedState = SeedState(
    previous: Option<Rect>, timestamp: Option<int>, velocities: Velocities, gates: Gates)

  const INITIAL_STATE := SeedState(None, None, REST, Gates(false, false))

  datatype SeedFrame = SeedFrame(crop: Rect, trace: SeedTrace)

  datatype PlanError = NegativeTimestamp | TimestampNotIncreasing | CropTooLarge

  /* ---------------------------------------------------------------------------------------
     The parts of one frame.
     --------------------------------------------------------------------------------------- */

  predicate OutsideDeadband(error: real, threshold: real) {
    Abs(error) > threshold
  }

  /** The crop a detection asks for, before any smoothing. */
  function DesiredCrop(cam: Camera, detection: Rect): Result<Rect, GeometryError>
    requires ValidFrame(cam.frame)
  {
    var full := FullFrame(cam.frame);
    var height := Min(full.height, detection.height / TargetFraction(cam.profile));
    var width := WidthFor(height, cam.frame.aspect);
    if width > full.width then
      ClampCrop(Centered(detection.CenterX(), detection.CenterY(), full.width, full.height), cam.frame)
    else
      ClampCrop(Centered(detection.CenterX(), detection.CenterY(), width, height), cam.frame)
  }

  /** One pan axis in pixels, moved in units of the source extent. */
  function PanAxis(root: Root, center: real, velocity: real, target: Option<real>, extent: real, dt: real): Kinetic
    requires extent > 0.0
  {
    var goal := match target case None => None case Some(t) => Some(t / extent);
    var k := Advance(root, Kinetic(center / extent, velocity), goal, dt, PAN);
    Kinetic(k.position * extent, k.velocity)
  }

  /** The zoom component: the new size and zoom velocity. */
  datatype Zoomed = Zoomed(width: real, height: real, velocity: real)

  function Zoom(cam: Camera, fn: Functions, previous: Rect, target: Option<real>, velocity: real, dt: real): Zoomed
    requires ValidFrame(cam.frame)
  {
    var position := fn.log(previous.height);
    var goal := match target case None => None case Some(h) => Some(fn.log(h));
    var k := Advance(fn.root, Kinetic(position, velocity), goal, dt, ZOOM);
    if k.position == position then
      Zoomed(previous.width, previous.height, k.velocity)
    else
      var height := if goal == Some(k.position) && target.Some? then target.value else fn.exp(k.position);
      var width := if height == FullFrame(cam.frame).height then FullFrame(cam.frame).width
                   else WidthFor(height, cam.frame.aspect);
      Zoomed(width, height, k.velocity)
  }

  /** `_adjust`: motion of the three components towards the desired crop, through open gates
      or while velocity remains. */
  function Adjust(cam: Camera, fn: Functions, previous: Rect, desired: Rect, gates: Gates,
                  v: Velocities, dt: real): (Rect, Velocities)
    requires ValidFrame(cam.frame)
  {
    if !gates.scaleAdjusting && !gates.centerAdjusting && !v.Any() then
      (previous, v)
    else
      var cx, cy := previous.CenterX(), previous.CenterY();
      var px := if gates.centerAdjusting || v.x != 0.0
                then PanAxis(fn.root, cx, v.x, if gates.centerAdjusting then Some(desired.CenterX()) else None,
                             cam.frame.width, dt)
                else Kinetic(cx, v.x);
      var py := if gates.centerAdjusting || v.y != 0.0
                then PanAxis(fn.root, cy, v.y, if gates.centerAdjusting then Some(desired.CenterY()) else None,
                             cam.frame.height, dt)
                else Kinetic(cy, v.y);
      var z := if gates.scaleAdjusting || v.zoom != 0.0
               then Zoom(cam, fn, previous, if gates.scaleAdjusting then Some(desired.height) else None, v.zoom, dt)
               else Zoomed(previous.width, previous.height, v.zoom);
      (Rect(if px.position == cx && z.width == previous.width then previous.x else px.position - z.width / 2.0,
            if py.position == cy && z.height == previous.height then previous.y else py.position - z.height / 2.0,
            z.width, z.height),
       Velocities(px.velocity, py.velocity, z.velocity))
  }

  /** A candidate larger than the full frame is replaced by the full size at its center. */
  function Capped(cam: Camera, candidate: Rect): Rect
    requires ValidFrame(cam.frame)
  {
    var full := FullFrame(cam.frame);
    if candidate.width > full.width || candidate.height > full.height then
      Centered(candidate.CenterX(), candidate.CenterY(), full.width, full.height)
    else
      candidate
  }

  datatype Contained = Contained(crop: Rect, sourceAspectLimited: bool)

  /** `_contain`: the repair that makes the crop contain the detection, whenever a crop of the
      aspect ratio can. */
  function Contain(cam: Camera, crop: Rect, detection: Rect): Result<Contained, GeometryError>
    requires ValidFrame(cam.frame)
  {
    var full := FullFrame(cam.frame);
    if crop.Contains(detection) then
      Success(Contained(crop, false))
    else if detection.width > full.width || detection.height > full.height then
      match ClampCrop(Centered(detection.CenterX(), detection.CenterY(), full.width, full.height), cam.frame)
      case Failure(e) => Failure(e)
      case Success(c) => Success(Contained(c, true))
    else
      var required := Max(Max(crop.height, detection.height), HeightFor(detection.width, cam.frame.aspect));
      var height := Min(required, full.height);
      var width := if height == crop.height then crop.width else WidthFor(height, cam.frame.aspect);
      var x := Max(Min(crop.x, detection.x), detection.Right() - width);
      var y := Max(Min(crop.y, detection.y), detection.Bottom() - height);
      match ClampCrop(Rect(x, y, width, height), cam.frame)
      case Failure(e) => Failure(e)
      case Success(c) => Success(Contained(c, false))
  }

  /** What a frame proposes before safety: a candidate crop with its motion and evidence. */
  datatype Proposal = Proposal(
    desired: Rect, candidate: Rect, velocities: Velocities, gates: Gates,
    errors: Option<Errors>, scaleHeld: bool, centerHeld: bool, smoothing: bool, action: Action)

  function ProposeMiss(cam: Camera, fn: Functions, s: SeedState, dt: real): Proposal
    requires ValidFrame(cam.frame)
  {
    var full := FullFrame(cam.frame);
    var closed := Gates(false, false);
    match s.previous
    case None =>
      Proposal(full, full, s.velocities, closed, None, false, false, false, StartFullFrame)
    case Some(previous) =>
      var desired := Centered(previous.CenterX(), previous.CenterY(), full.width, full.height);
      var kept := Velocities(0.0, 0.0, Max(0.0, s.velocities.zoom));
      var (candidate, velocities) := Adjust(cam, fn, previous, desired, Gates(true, false), kept, dt);
      Proposal(desired, candidate, velocities, closed, None, false, false,
               candidate != previous, WidenOnMiss)
  }

  function GateErrors(cam: Camera, previous: Rect, desired: Rect, detection: Rect): Errors
    requires previous.width != 0.0 && previous.height != 0.0
  {
    var observed := detection.height / previous.height;
    Errors(observed, observed / TargetFraction(cam.profile) - 1.0,
           (desired.CenterX() - previous.CenterX()) / previous.width,
           (desired.CenterY() - previous.CenterY()) / previous.height)
  }

  function NextGates(gates: Gates, e: Errors): Gates {
    var scaleThreshold := if gates.scaleAdjusting then SCALE_EXIT else SCALE_ENTER;
    var centerThreshold := if gates.centerAdjusting then CENTER_EXIT else CENTER_ENTER;
    Gates(OutsideDeadband(e.scale, scaleThreshold),
          OutsideDeadband(e.x, centerThreshold) || OutsideDeadband(e.y, centerThreshold))
  }

  ghost predicate UsablePrevious(s: SeedState) {
    s.previous.Some? ==> s.previous.value.width > 0.0 && s.previous.value.height > 0.0
  }

  function ProposeDetected(cam: Camera, fn: Functions, s: SeedState, detection: Rect, desired: Rect, dt: real): Proposal
    requires ValidFrame(cam.frame) && UsablePrevious(s)
  {
    match s.previous
    case None =>
      Proposal(desired, desired, s.velocities, s.gates, None, false, false, false, Initial)
    case Some(previous) =>
      var e := GateErrors(cam, previous, desired, detection);
      var gates := NextGates(s.gates, e);
      var smoothing := gates.scaleAdjusting || gates.centerAdjusting || s.velocities.Any();
      var (candidate, velocities) := Adjust(cam, fn, previous, desired, gates, s.velocities, dt);
      Proposal(desired, candidate, velocities, gates, Some(e),
               !gates.scaleAdjusting, !gates.centerAdjusting, smoothing,
               if smoothing then Smoothed else DeadbandHold)
  }

  /** Only the components a correction touched lose their velocity. */
  function Synchronized(p: Proposal, crop: Rect): Velocities {
    if crop == p.candidate then p.velocities
    else Velocities(
      if crop.CenterX() == p.candidate.CenterX() then p.velocities.x else 0.0,
      if crop.CenterY() == p.candidate.CenterY() then p.velocities.y else 0.0,
      if crop.height == p.candidate.height then p.velocities.zoom else 0.0)
  }

  /** Clamping and containment of a proposal, and the frame's trace. */
  function Settle(cam: Camera, s: SeedState, p: Proposal, m: Measurement): Result<(SeedState, SeedFrame), PlanError>
    requires ValidFrame(cam.frame)
  {
    match ClampCrop(Capped(cam, p.candidate), cam.frame)
    case Failure(_) => Failure(CropTooLarge)
    case Success(clamped) =>
      var repaired := match m.bounds
                      case None => Success(Contained(clamped, false))
                      case Some(box) => Contain(cam, clamped, box);
      match repaired
      case Failure(_) => Failure(CropTooLarge)
      case Success(c) =>
        var override := c.crop != p.candidate && !c.sourceAspectLimited;
        var action := if c.sourceAspectLimited then SourceAspectLimited
                      else if override then ContainmentOverride else p.action;
        Success((
          SeedState(Some(c.crop), Some(m.timestamp), Synchronized(p, c.crop), p.gates),
          SeedFrame(c.crop, SeedTrace(p.desired, m.bounds.None?, p.smoothing, override,
                                      c.sourceAspectLimited, action, p.errors,
                                      p.scaleHeld, p.centerHeld, p.gates))))
  }

  /** Seconds since the previous frame. */
  function Elapsed(s: SeedState, timestamp: int): real {
    match s.timestamp
    case None => 0.0
    case Some(t) => (timestamp - t) as real / 1000.0
  }

  /** One iteration of `DeterministicCropPlanner.plan`. */
  function Step(cam: Camera, fn: Functions, s: SeedState, m: Measurement): Result<(SeedState, SeedFrame), PlanError>
    requires ValidFrame(cam.frame) && UsablePrevious(s)
  {
    if m.timestamp < 0 then Failure(NegativeTimestamp)
    else if s.timestamp.Some? && m.timestamp <= s.timestamp.value then Failure(TimestampNotIncreasing)
    else
      var dt := Elapsed(s, m.timestamp);
      match m.bounds
      case None => Settle(cam, s, ProposeMiss(cam, fn, s, dt), m)
      case Some(box) =>
        match DesiredCrop(cam, box)
        case Failure(_) => Failure(CropTooLarge)
        case Success(desired) => Settle(cam, s, ProposeDetected(cam, fn, s, box, desired, dt), m)
  }
}
