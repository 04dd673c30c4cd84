/** Detected frames of the causal controller: what one of them does to the crop, its motion and
    its gates, and how a run of them lands on the crop that frames the detection. */
module SeedDetections {
  import opened Prelude
  import opened Geometry
  import opened Motion
  import opened SeedPlanner
  import opened SeedSafety
  import opened SeedRun
  import opened MissWidening
  import opened SeedMotion

  /** `candidate` moving with `w` is where the three integrators get from `previous` moving with
      `v` in `dt` seconds: the center in source widths and heights, capped at a quarter a second
      and changing by half a second at most, and the logarithm of the height, at twice that. An
      open gate gives its components the desired crop as target, a closed one none. */
  ghost predicate Moves(cam: Camera, fn: Functions, previous: Rect, v: Velocities, desired: Rect, gates: Gates, dt: real,
                        candidate: Rect, w: Velocities)
  {
    var pan, zoom := Limits(0.25, 0.5), Limits(0.5, 1.0);
    && ValidFrame(cam.frame) && Shaped(candidate, cam.frame)
    && Kinetic(candidate.CenterX() / cam.frame.width, w.x)
       == Advance(fn.root, Kinetic(previous.CenterX() / cam.frame.width, v.x),
                  if gates.centerAdjusting then Some(desired.CenterX() / cam.frame.width) else None, dt, pan)
    && Kinetic(candidate.CenterY() / cam.frame.height, w.y)
       == Advance(fn.root, Kinetic(previous.CenterY() / cam.frame.height, v.y),
                  if gates.centerAdjusting then Some(desired.CenterY() / cam.frame.height) else None, dt, pan)
    && Kinetic(fn.log(candidate.height), w.zoom)
       == Advance(fn.root, Kinetic(fn.log(previous.height), v.zoom),
                  if gates.scaleAdjusting then Some(fn.log(desired.height)) else None, dt, zoom)
  }

  /** The candidate no larger than the full frame, brought into the source, and repaired to
      contain the box. */
  ghost predicate Corrects(cam: Camera, candidate: Rect, box: Rect, crop: Rect, limited: bool)
    requires ValidFrame(cam.frame)
  {
    var full := FullFrame(cam.frame);
    var sized := if candidate.width > full.width || candidate.height > full.height
                 then Centered(candidate.CenterX(), candidate.CenterY(), full.width, full.height) else candidate;
    && ClampCrop(sized, cam.frame).Success?
    && Contain(cam, ClampCrop(sized, cam.frame).value, box) == Success(Contained(crop, limited))
  }

  /** Only components a correction changed lose their velocity. */
  ghost predicate Keeps(candidate: Rect, w: Velocities, crop: Rect, after: Velocities) {
    && after.x == (if crop.CenterX() == candidate.CenterX() then w.x else 0.0)
    && after.y == (if crop.CenterY() == candidate.CenterY() then w.y else 0.0)
    && after.zoom == (if crop.height == candidate.height then w.zoom else 0.0)
  }

  /** The relative errors a trace records of a detection. */
  ghost predicate RecordsErrors(cam: Camera, previous: Rect, desired: Rect, box: Rect, e: Errors) {
    && e.observedFraction * previous.height == box.height
    && (e.scale + 1.0) * TargetFraction(cam.profile) == e.observedFraction
    && e.x * previous.width == desired.CenterX() - previous.CenterX()
    && e.y * previous.height == desired.CenterY() - previous.CenterY()
  }

  /** A detection after a first frame: the gates are open exactly outside their bands, the crop
      is the corrected result of the motion through them towards the desired crop, and the trace
      says so. */
  ghost predicate Follows(cam: Camera, fn: Functions, s: SeedState, m: Measurement, after: SeedState, frame: SeedFrame)
    requires ValidFrame(cam.frame) && s.previous.Some? && m.bounds.Some?
  {
    var previous, box, t := s.previous.value, m.bounds.value, frame.trace;
    && DesiredCrop(cam, box) == Success(t.desired)
    && (after.gates.scaleAdjusting <==> !WithinScaleBand(cam, previous, box, s.gates))
    && (after.gates.centerAdjusting <==> !WithinCenterBands(previous, t.desired, s.gates))
    && (exists candidate: Rect, w: Velocities ::
          && Moves(cam, fn, previous, s.velocities, t.desired, after.gates, Elapsed(s, m.timestamp), candidate, w)
          && Corrects(cam, candidate, box, frame.crop, t.sourceAspectLimited)
          && Keeps(candidate, w, frame.crop, after.velocities)
          && (t.containmentOverride <==> frame.crop != candidate && !t.sourceAspectLimited))
    && t.errors.Some? && RecordsErrors(cam, previous, t.desired, box, t.errors.value)
    && t.gates == after.gates && t.scaleHeld == !after.gates.scaleAdjusting && t.centerHeld == !after.gates.centerAdjusting
    && t.smoothing == (after.gates.scaleAdjusting || after.gates.centerAdjusting || s.velocities.Any())
    && t.action == (if t.sourceAspectLimited then SourceAspectLimited
                    else if t.containmentOverride then ContainmentOverride
                    else if t.smoothing then Smoothed else DeadbandHold)
  }

  /** The first frame, detected: the desired crop, corrected. */
  ghost predicate Starts(cam: Camera, s: SeedState, m: Measurement, after: SeedState, frame: SeedFrame)
    requires ValidFrame(cam.frame) && m.bounds.Some?
  {
    var t := frame.trace;
    && DesiredCrop(cam, m.bounds.value) == Success(t.desired)
    && Contain(cam, t.desired, m.bounds.value) == Success(Contained(frame.crop, t.sourceAspectLimited))
    && Keeps(t.desired, s.velocities, frame.crop, after.velocities)
    && after.gates == s.gates && t.errors.None?
    && (t.containmentOverride <==> frame.crop != t.desired && !t.sourceAspectLimited)
    && t.action == (if t.sourceAspectLimited then SourceAspectLimited
                    else if t.containmentOverride then ContainmentOverride else Initial)
  }

  /** A miss: the full frame at first, and after that the zoom alone moves, outwards and towards
      the full frame at the previous center, brought into the source; both gates are closed. */
  ghost predicate Misses(cam: Camera, fn: Functions, s: SeedState, m: Measurement, after: SeedState, frame: SeedFrame)
    requires ValidFrame(cam.frame)
  {
    var full, t := FullFrame(cam.frame), frame.trace;
    && after.gates == t.gates == Gates(false, false)
    && t.missed && t.errors.None? && !t.scaleHeld && !t.centerHeld && !t.sourceAspectLimited
    && match s.previous
       case None =>
         && frame.crop == t.desired == full && after.velocities == s.velocities
         && !t.smoothing && !t.containmentOverride && t.action == StartFullFrame
       case Some(previous) =>
         && t.desired == Centered(previous.CenterX(), previous.CenterY(), full.width, full.height)
         && t.action == (if t.containmentOverride then ContainmentOverride else WidenOnMiss)
         && exists candidate: Rect, w: Velocities ::
              && Moves(cam, fn, previous, Velocities(0.0, 0.0, Max(0.0, s.velocities.zoom)), t.desired, Gates(true, false),
                       Elapsed(s, m.timestamp), candidate, w)
              && Clamps(cam, candidate, frame.crop)
              && Keeps(candidate, w, frame.crop, after.velocities)
              && (t.smoothing <==> candidate != previous) && (t.containmentOverride <==> frame.crop != candidate)
  }

  /** The candidate no larger than the full frame, brought into the source. */
  ghost predicate Clamps(cam: Camera, candidate: Rect, crop: Rect)
    requires ValidFrame(cam.frame)
  {
    var full := FullFrame(cam.frame);
    ClampCrop(if candidate.width > full.width || candidate.height > full.height
              then Centered(candidate.CenterX(), candidate.CenterY(), full.width, full.height) else candidate,
              cam.frame) == Success(crop)
  }

  /** What every frame decides: a detection is followed, a first one framed at once, and a miss
      widens the view. */
  lemma StepDecides(cam: Camera, fn: Functions, s: SeedState, m: Measurement)
    requires ValidFrame(cam.frame) && ValidFunctions(fn) && ValidState(cam, s) && SourceBox(cam, m)
    requires UsablePrevious(s) && Step(cam, fn, s, m).Success?
    ensures var (after, frame) := Step(cam, fn, s, m).value;
            && (m.bounds.Some? && s.previous.Some? ==> Follows(cam, fn, s, m, after, frame))
            && (m.bounds.Some? && s.previous.None? ==> Starts(cam, s, m, after, frame))
            && (m.bounds.None? ==> Misses(cam, fn, s, m, after, frame))
  {
    StepSafe(cam, fn, s, m);
    match m.bounds
    case None =>
      if s.previous.Some? {
        MissWidens(cam, fn, s, m);
      } else {
        FirstMissed(cam, fn, s, m);
      }
    case Some(box) =>
      if s.previous.Some? {
        DetectionFollowed(cam, fn, s, m);
      } else {
        FirstDetected(cam, fn, s, m);
      }
  }

  lemma FirstMissed(cam: Camera, fn: Functions, s: SeedState, m: Measurement)
    requires ValidFrame(cam.frame) && UsablePrevious(s) && Step(cam, fn, s, m).Success? && m.bounds.None? && s.previous.None?
    ensures var (after, frame) := Step(cam, fn, s, m).value; Misses(cam, fn, s, m, after, frame)
  {
    hide FullFrame, WidthFor;
    FullFrameValid(cam.frame);
    ClampInside(FullFrame(cam.frame), cam.frame);
  }

  lemma MissWidens(cam: Camera, fn: Functions, s: SeedState, m: Measurement)
    requires ValidFrame(cam.frame) && ValidFunctions(fn) && ValidState(cam, s)
    requires UsablePrevious(s) && Step(cam, fn, s, m).Success? && m.bounds.None? && s.previous.Some?
    ensures var (after, frame) := Step(cam, fn, s, m).value; Misses(cam, fn, s, m, after, frame)
  {
    hide FullFrame, WidthFor, ClampCrop, Adjust, Advance;
    var previous, full, dt := s.previous.value, FullFrame(cam.frame), Elapsed(s, m.timestamp);
    FullFrameValid(cam.frame);
    var desired, v := Centered(previous.CenterX(), previous.CenterY(), full.width, full.height),
                      Velocities(0.0, 0.0, Max(0.0, s.velocities.zoom));
    var gates := Gates(true, false);
    var (candidate, w) := Adjust(cam, fn, previous, desired, gates, v, dt);
    AdjustIsMotion(cam, fn, previous, desired, gates, v, dt);
    AdjustShaped(cam, fn, previous, desired, gates, v, dt);
    assert Moves(cam, fn, previous, v, desired, gates, dt, candidate, w);
    var (after, frame) := Step(cam, fn, s, m).value;
    assert Clamps(cam, candidate, frame.crop);
    assert Keeps(candidate, w, frame.crop, after.velocities);
  }

  lemma FirstDetected(cam: Camera, fn: Functions, s: SeedState, m: Measurement)
    requires ValidFrame(cam.frame) && ValidFunctions(fn) && ValidState(cam, s) && SourceBox(cam, m)
    requires UsablePrevious(s) && Step(cam, fn, s, m).Success? && m.bounds.Some? && s.previous.None?
    ensures var (after, frame) := Step(cam, fn, s, m).value; Starts(cam, s, m, after, frame)
  {
    hide FullFrame, WidthFor, DesiredCrop, Contain;
    DesiredHeld(cam, m.bounds.value);
    ClampInside(DesiredCrop(cam, m.bounds.value).value, cam.frame);
  }

  lemma DetectionFollowed(cam: Camera, fn: Functions, s: SeedState, m: Measurement)
    requires ValidFrame(cam.frame) && ValidFunctions(fn) && ValidState(cam, s) && SourceBox(cam, m)
    requires UsablePrevious(s) && Step(cam, fn, s, m).Success? && m.bounds.Some? && s.previous.Some?
    ensures var (after, frame) := Step(cam, fn, s, m).value; Follows(cam, fn, s, m, after, frame)
  {
    hide FullFrame, WidthFor, DesiredCrop, Contain, ClampCrop, Adjust, Advance, NextGates, GateErrors, WithinScaleBand,
         WithinCenterBands, TargetFraction;
    var previous, box, dt := s.previous.value, m.bounds.value, Elapsed(s, m.timestamp);
    DesiredHeld(cam, box);
    var desired := DesiredCrop(cam, box).value;
    BandsAreGates(cam, previous, desired, box, s.gates);
    var gates := NextGates(s.gates, GateErrors(cam, previous, desired, box));
    var (candidate, w) := Adjust(cam, fn, previous, desired, gates, s.velocities, dt);
    AdjustIsMotion(cam, fn, previous, desired, gates, s.velocities, dt);
    AdjustShaped(cam, fn, previous, desired, gates, s.velocities, dt);
    assert Moves(cam, fn, previous, s.velocities, desired, gates, dt, candidate, w);
    ErrorsRecorded(cam, previous, desired, box);
    var (after, frame) := Step(cam, fn, s, m).value;
    assert Corrects(cam, candidate, box, frame.crop, frame.trace.sourceAspectLimited);
    assert Keeps(candidate, w, frame.crop, after.velocities);
  }

  lemma ErrorsRecorded(cam: Camera, previous: Rect, desired: Rect, box: Rect)
    requires previous.width > 0.0 && previous.height > 0.0
    ensures RecordsErrors(cam, previous, desired, box, GateErrors(cam, previous, desired, box))
  {
  }

  /* ---------------------------------------------------------------------------------------
     Runs of detections.
     --------------------------------------------------------------------------------------- */

  /** The trace of frame `i`, and how the controller leaves it. */
  ghost function TraceOf(cam: Camera, fn: Functions, ms: seq<Measurement>, i: nat): SeedTrace
    requires ValidFrame(cam.frame) && ValidFunctions(fn) && SourceBoxes(cam, ms)
    requires IncreasingTimestamps(ms) && i < |ms|
  {
    After(cam, fn, ms, i + 1).frames[i].trace
  }

  ghost function VelocitiesAt(cam: Camera, fn: Functions, ms: seq<Measurement>, i: nat): Velocities
    requires ValidFrame(cam.frame) && ValidFunctions(fn) && SourceBoxes(cam, ms)
    requires IncreasingTimestamps(ms) && i < |ms|
  {
    After(cam, fn, ms, i + 1).state.velocities
  }

  /** What a frame decides of the state before it. */
  ghost predicate Decides(cam: Camera, fn: Functions, s: SeedState, m: Measurement, after: SeedState, frame: SeedFrame)
    requires ValidFrame(cam.frame)
  {
    && after.previous == Some(frame.crop) && after.timestamp == Some(m.timestamp)
    && (m.bounds.Some? && s.previous.Some? ==> Follows(cam, fn, s, m, after, frame))
    && (m.bounds.Some? && s.previous.None? ==> Starts(cam, s, m, after, frame))
    && (m.bounds.None? ==> Misses(cam, fn, s, m, after, frame))
  }

  /** A shot planned frame by frame, from a controller at rest with closed gates and no crop. */
  ghost predicate DecidedRun(cam: Camera, fn: Functions, ms: seq<Measurement>, states: seq<SeedState>, frames: seq<SeedFrame>)
    requires ValidFrame(cam.frame)
  {
    && |frames| == |ms| && |states| == |ms| + 1
    && states[0] == SeedState(None, None, Velocities(0.0, 0.0, 0.0), Gates(false, false))
    && forall i :: 0 <= i < |ms| ==> Decides(cam, fn, states[i], ms[i], states[i + 1], frames[i])
  }

  lemma {:induction false} FramesKept(cam: Camera, fn: Functions, ms: seq<Measurement>, i: nat, n: nat)
    requires ValidFrame(cam.frame) && ValidFunctions(fn) && SourceBoxes(cam, ms) && IncreasingTimestamps(ms)
    requires i < n <= |ms|
    ensures After(cam, fn, ms, n).frames[i] == After(cam, fn, ms, i + 1).frames[i]
    decreases n
  {
    if i + 1 < n {
      FramesKept(cam, fn, ms, i, n - 1);
      hide Step, Run, After, HeldCrop;
      AfterExtends(cam, fn, ms, n - 1);
      var init := After(cam, fn, ms, n - 1).frames;
      assert After(cam, fn, ms, n).frames[..n - 1] == init;
    }
  }

  lemma FrameDecides(cam: Camera, fn: Functions, ms: seq<Measurement>, i: nat)
    requires ValidFrame(cam.frame) && ValidFunctions(fn) && SourceBoxes(cam, ms) && IncreasingTimestamps(ms) && i < |ms|
    ensures Decides(cam, fn, After(cam, fn, ms, i).state, ms[i], After(cam, fn, ms, i + 1).state,
                    After(cam, fn, ms, |ms|).frames[i])
  {
    hide Step, Run, After, Follows, Starts, Misses, HeldCrop;
    AfterExtends(cam, fn, ms, i);
    FramesKept(cam, fn, ms, i, |ms|);
    assert SourceBox(cam, ms[i]);
    StepDecides(cam, fn, After(cam, fn, ms, i).state, ms[i]);
  }

  /** Every planned shot is planned so. */
  lemma RunDecides(cam: Camera, fn: Functions, ms: seq<Measurement>) returns (states: seq<SeedState>)
    requires ValidFrame(cam.frame) && ValidFunctions(fn) && SourceBoxes(cam, ms) && IncreasingTimestamps(ms)
    ensures Run(cam, fn, ms).Success? && DecidedRun(cam, fn, ms, states, Run(cam, fn, ms).value.frames)
  {
    hide Decides, Step, HeldCrop;
    states := seq(|ms| + 1, i requires 0 <= i <= |ms| => After(cam, fn, ms, i).state);
    RunSafe(cam, fn, ms);
    assert ms[..|ms|] == ms && ms[..0] == [];
    forall i | 0 <= i < |ms| ensures Decides(cam, fn, states[i], ms[i], states[i + 1], Run(cam, fn, ms).value.frames[i]) {
      FrameDecides(cam, fn, ms, i);
    }
  }

  predicate Uncorrected(t: SeedTrace) {
    !t.containmentOverride && !t.sourceAspectLimited
  }

  /** Frames `i + 1` to `j` detect the same box. */
  ghost predicate StaysPut(ms: seq<Measurement>, i: nat, j: nat, box: Rect) {
    i <= j < |ms| && forall k :: i < k <= j ==> ms[k].bounds == Some(box)
  }

  /** Frames `i + 1` to `j` need no correction and leave the gates as given. */
  ghost predicate Undisturbed(cam: Camera, fn: Functions, ms: seq<Measurement>, i: nat, j: nat, gates: Gates)
    requires ValidFrame(cam.frame) && ValidFunctions(fn) && SourceBoxes(cam, ms) && IncreasingTimestamps(ms)
    requires j < |ms|
  {
    forall k: nat :: i < k <= j ==> Uncorrected(TraceOf(cam, fn, ms, k)) && TraceOf(cam, fn, ms, k).gates == gates
  }

  lemma MovesUnique(cam: Camera, fn: Functions, previous: Rect, v: Velocities, desired: Rect, gates: Gates, dt: real,
                    a: Rect, w: Velocities, b: Rect, x: Velocities)
    requires ValidFunctions(fn) && Moves(cam, fn, previous, v, desired, gates, dt, a, w)
    requires Moves(cam, fn, previous, v, desired, gates, dt, b, x)
    ensures a == b && w == x
  {
    hide Advance;
    ComponentsDetermine(cam, fn, a, w, b, x);
  }

  /** Motion over `t` seconds and then over `u` is motion over their sum. */
  lemma MovesCompose(cam: Camera, fn: Functions, a: Rect, v: Velocities, desired: Rect, gates: Gates, t: real, u: real,
                     b: Rect, w: Velocities, c: Rect, x: Velocities)
    requires ValidFunctions(fn) && BoundedVelocities(v) && t >= 0.0 && u >= 0.0
    requires Moves(cam, fn, a, v, desired, gates, t, b, w) && Moves(cam, fn, b, w, desired, gates, u, c, x)
    ensures Moves(cam, fn, a, v, desired, gates, t + u, c, x)
  {
    hide Advance, Shaped;
    var f := cam.frame;
    AdvanceComposes(fn.root, Kinetic(a.CenterX() / f.width, v.x),
                    Goal(gates.centerAdjusting, desired.CenterX() / f.width), t, u, PAN);
    AdvanceComposes(fn.root, Kinetic(a.CenterY() / f.height, v.y),
                    Goal(gates.centerAdjusting, desired.CenterY() / f.height), t, u, PAN);
    AdvanceComposes(fn.root, Kinetic(fn.log(a.height), v.zoom),
                    Goal(gates.scaleAdjusting, fn.log(desired.height)), t, u, ZOOM);
  }

  /** One uncorrected detected frame moves the crop itself. */
  lemma UncorrectedMoves(cam: Camera, fn: Functions, ms: seq<Measurement>, k: nat, box: Rect)
    requires ValidFrame(cam.frame) && ValidFunctions(fn) && SourceBoxes(cam, ms) && IncreasingTimestamps(ms)
    requires 0 < k < |ms| && ms[k].bounds == Some(box) && Uncorrected(TraceOf(cam, fn, ms, k))
    ensures DesiredCrop(cam, box).Success?
    ensures Moves(cam, fn, CropAt(cam, fn, ms, k - 1), VelocitiesAt(cam, fn, ms, k - 1), DesiredCrop(cam, box).value,
                  TraceOf(cam, fn, ms, k).gates, Seconds(ms, k - 1, k),
                  CropAt(cam, fn, ms, k), VelocitiesAt(cam, fn, ms, k))
  {
    hide Step, Advance, FullFrame, Run, DesiredCrop, Contain, ClampCrop, Corrects, WithinScaleBand, WithinCenterBands,
         RecordsErrors, Moves, HeldCrop;
    AfterExtends(cam, fn, ms, k);
    assert SourceBox(cam, ms[k]);
    StepDecides(cam, fn, After(cam, fn, ms, k).state, ms[k]);
  }

  /** A run of uncorrected detections of one box is one uninterrupted motion towards the crop
      that frames it, however the time is cut into frames. */
  lemma {:induction false} DetectionRun(cam: Camera, fn: Functions, ms: seq<Measurement>, i: nat, j: nat, box: Rect, gates: Gates)
    requires ValidFrame(cam.frame) && ValidFunctions(fn) && SourceBoxes(cam, ms) && IncreasingTimestamps(ms)
    requires i < j && StaysPut(ms, i, j, box) && Undisturbed(cam, fn, ms, i, j, gates)
    ensures DesiredCrop(cam, box).Success?
    ensures Moves(cam, fn, CropAt(cam, fn, ms, i), VelocitiesAt(cam, fn, ms, i), DesiredCrop(cam, box).value, gates,
                  Seconds(ms, i, j), CropAt(cam, fn, ms, j), VelocitiesAt(cam, fn, ms, j))
    decreases j
  {
    hide Moves, DesiredCrop, CropAt, TraceOf;
    UncorrectedMoves(cam, fn, ms, j, box);
    if i < j - 1 {
      DetectionRun(cam, fn, ms, i, j - 1, box, gates);
      TimestampsOrdered(ms, i, j - 1);
      TimestampsOrdered(ms, j - 1, j);
      assert Seconds(ms, i, j - 1) + Seconds(ms, j - 1, j) == Seconds(ms, i, j);
      MovesCompose(cam, fn, CropAt(cam, fn, ms, i), VelocitiesAt(cam, fn, ms, i), DesiredCrop(cam, box).value, gates,
                   Seconds(ms, i, j - 1), Seconds(ms, j - 1, j),
                   CropAt(cam, fn, ms, j - 1), VelocitiesAt(cam, fn, ms, j - 1),
                   CropAt(cam, fn, ms, j), VelocitiesAt(cam, fn, ms, j));
    }
  }

  /** Motion through open gates rests exactly on the desired crop from the landing time on. */
  lemma MovesLand(cam: Camera, fn: Functions, previous: Rect, v: Velocities, desired: Rect, dt: real, crop: Rect, w: Velocities)
    requires ValidFunctions(fn) && BoundedVelocities(v) && dt >= 0.0
    requires Moves(cam, fn, previous, v, desired, Gates(true, true), dt, crop, w) && Shaped(desired, cam.frame)
    ensures crop == desired && w == REST <==> dt >= LandingTime(cam, fn, previous, desired, v)
  {
    hide Advance, ArrivalTime, WidthFor;
    var k := ComponentsOf(cam, fn, previous, v);
    ArrivesExactly(fn.root, k.x, desired.CenterX() / cam.frame.width, dt, PAN);
    ArrivesExactly(fn.root, k.y, desired.CenterY() / cam.frame.height, dt, PAN);
    ArrivesExactly(fn.root, k.zoom, fn.log(desired.height), dt, ZOOM);
    if ComponentsOf(cam, fn, crop, w) == ComponentsOf(cam, fn, desired, REST) {
      ComponentsDetermine(cam, fn, crop, w, desired, REST);
    }
  }

  /** While both gates stay open on detections that stay put, the crop rests on the one that
      frames them exactly from the landing time on. */
  lemma DetectionsLand(cam: Camera, fn: Functions, ms: seq<Measurement>, i: nat, j: nat, box: Rect)
    requires ValidFrame(cam.frame) && ValidFunctions(fn) && SourceBoxes(cam, ms) && IncreasingTimestamps(ms)
    requires i < j && StaysPut(ms, i, j, box) && Undisturbed(cam, fn, ms, i, j, Gates(true, true))
    ensures DesiredCrop(cam, box).Success?
    ensures CropAt(cam, fn, ms, j) == DesiredCrop(cam, box).value && VelocitiesAt(cam, fn, ms, j) == REST
       <==> Seconds(ms, i, j)
            >= LandingTime(cam, fn, CropAt(cam, fn, ms, i), DesiredCrop(cam, box).value, VelocitiesAt(cam, fn, ms, i))
  {
    hide Moves, DesiredCrop, LandingTime, TraceOf, Run, HeldCrop;
    DetectionRun(cam, fn, ms, i, j, box, Gates(true, true));
    TimestampsOrdered(ms, i, j);
    assert SourceBox(cam, ms[j]);
    DesiredShaped(cam, box);
    MovesLand(cam, fn, CropAt(cam, fn, ms, i), VelocitiesAt(cam, fn, ms, i), DesiredCrop(cam, box).value,
              Seconds(ms, i, j), CropAt(cam, fn, ms, j), VelocitiesAt(cam, fn, ms, j));
  }

  lemma DesiredShaped(cam: Camera, box: Rect)
    requires ValidFrame(cam.frame) && InSource(box, cam.frame)
    ensures DesiredCrop(cam, box).Success? && HeldCrop(cam, DesiredCrop(cam, box).value)
    ensures Shaped(DesiredCrop(cam, box).value, cam.frame)
  {
    hide DesiredCrop;
    DesiredHeld(cam, box);
  }

  /** A crop at rest on its target stays there through any gates. */
  lemma RestMoves(cam: Camera, fn: Functions, desired: Rect, gates: Gates, dt: real)
    requires ValidFrame(cam.frame) && ValidFunctions(fn) && Shaped(desired, cam.frame)
    ensures Moves(cam, fn, desired, REST, desired, gates, dt, desired, REST)
  {
    hide Advance;
    RestStays(fn.root, desired.CenterX() / cam.frame.width, gates.centerAdjusting, dt, PAN);
    RestStays(fn.root, desired.CenterY() / cam.frame.height, gates.centerAdjusting, dt, PAN);
    RestStays(fn.root, fn.log(desired.height), gates.scaleAdjusting, dt, ZOOM);
  }

  lemma RestStays(root: Root, p: real, open: bool, dt: real, lim: Limits)
    requires ValidLimits(lim)
    ensures Advance(root, Kinetic(p, 0.0), if open then Some(p) else None, dt, lim) == Kinetic(p, 0.0)
  {
  }

  /** One more detection of the box the crop rests on changes nothing, whatever its gates. */
  lemma RestFollows(cam: Camera, fn: Functions, s: SeedState, m: Measurement)
    requires ValidFrame(cam.frame) && ValidFunctions(fn) && ValidState(cam, s) && SourceBox(cam, m) && UsablePrevious(s)
    requires Step(cam, fn, s, m).Success? && m.bounds.Some? && s.previous.Some? && s.velocities == REST
    requires DesiredCrop(cam, m.bounds.value) == Success(s.previous.value) && s.previous.value.Contains(m.bounds.value)
    ensures var (after, frame) := Step(cam, fn, s, m).value; frame.crop == s.previous.value && after.velocities == REST
  {
    var previous, box, dt := s.previous.value, m.bounds.value, Elapsed(s, m.timestamp);
    hide Step, Advance, FullFrame, DesiredCrop, Moves, WithinScaleBand, WithinCenterBands, RecordsErrors, HeldCrop;
    StepDecides(cam, fn, s, m);
    var (after, frame) := Step(cam, fn, s, m).value;
    var candidate: Rect, w: Velocities :|
      && Moves(cam, fn, previous, REST, previous, after.gates, dt, candidate, w)
      && Corrects(cam, candidate, box, frame.crop, frame.trace.sourceAspectLimited)
      && Keeps(candidate, w, frame.crop, after.velocities);
    DesiredShaped(cam, box);
    RestMoves(cam, fn, previous, after.gates, dt);
    MovesUnique(cam, fn, previous, REST, previous, after.gates, dt, candidate, w, previous, REST);
    HeldUncorrected(cam, previous, box);
  }

  lemma HeldUncorrected(cam: Camera, crop: Rect, box: Rect)
    requires ValidFrame(cam.frame) && HeldCrop(cam, crop) && crop.Contains(box)
    ensures forall c: Rect, limited: bool :: Corrects(cam, crop, box, c, limited) ==> c == crop && !limited
  {
    hide FullFrame;
    ClampInside(crop, cam.frame);
  }

  /** Frame `k` of a shot as a step from the frame before it. */
  lemma FrameSteps(cam: Camera, fn: Functions, ms: seq<Measurement>, k: nat)
    requires ValidFrame(cam.frame) && ValidFunctions(fn) && SourceBoxes(cam, ms) && IncreasingTimestamps(ms)
    requires 0 < k < |ms|
    ensures var s := After(cam, fn, ms, k).state;
            && ValidState(cam, s) && UsablePrevious(s) && SourceBox(cam, ms[k]) && Step(cam, fn, s, ms[k]).Success?
            && s.previous == Some(CropAt(cam, fn, ms, k - 1)) && s.velocities == VelocitiesAt(cam, fn, ms, k - 1)
            && CropAt(cam, fn, ms, k) == Step(cam, fn, s, ms[k]).value.1.crop
            && VelocitiesAt(cam, fn, ms, k) == Step(cam, fn, s, ms[k]).value.0.velocities
  {
    hide Step, Run, HeldCrop;
    AfterExtends(cam, fn, ms, k);
  }

  /** Once landed the crop stays, for as long as the detections stay put. */
  lemma {:induction false} LandedStays(cam: Camera, fn: Functions, ms: seq<Measurement>, l: nat, j: nat, box: Rect)
    requires ValidFrame(cam.frame) && ValidFunctions(fn) && SourceBoxes(cam, ms) && IncreasingTimestamps(ms)
    requires StaysPut(ms, l, j, box) && DesiredCrop(cam, box) == Success(CropAt(cam, fn, ms, l))
    requires VelocitiesAt(cam, fn, ms, l) == REST && CropAt(cam, fn, ms, l).Contains(box)
    ensures CropAt(cam, fn, ms, j) == CropAt(cam, fn, ms, l) && VelocitiesAt(cam, fn, ms, j) == REST
    decreases j
  {
    if l < j {
      hide Step, Run, DesiredCrop, HeldCrop, CropAt, VelocitiesAt, After;
      LandedStays(cam, fn, ms, l, j - 1, box);
      FrameSteps(cam, fn, ms, j);
      RestFollows(cam, fn, After(cam, fn, ms, j).state, ms[j]);
    }
  }

  /** Detections that stay put bring the crop exactly onto the one that frames them and keep it
      there: both gates open and no correction needed for the landing time, and from then on
      whatever the gates do. */
  lemma DetectionsReach(cam: Camera, fn: Functions, ms: seq<Measurement>, i: nat, l: nat, j: nat, box: Rect)
    requires ValidFrame(cam.frame) && ValidFunctions(fn) && SourceBoxes(cam, ms) && IncreasingTimestamps(ms)
    requires i < l <= j && StaysPut(ms, i, j, box) && Undisturbed(cam, fn, ms, i, l, Gates(true, true))
    requires DesiredCrop(cam, box).Success?
    requires Seconds(ms, i, l)
          >= LandingTime(cam, fn, CropAt(cam, fn, ms, i), DesiredCrop(cam, box).value, VelocitiesAt(cam, fn, ms, i))
    ensures CropAt(cam, fn, ms, j) == DesiredCrop(cam, box).value && VelocitiesAt(cam, fn, ms, j) == REST
  {
    hide DesiredCrop, LandingTime, Run, Step;
    DetectionsLand(cam, fn, ms, i, l, box);
    UncorrectedContains(cam, fn, ms, l, box);
    LandedStays(cam, fn, ms, l, j, box);
  }

  lemma UncorrectedContains(cam: Camera, fn: Functions, ms: seq<Measurement>, k: nat, box: Rect)
    requires ValidFrame(cam.frame) && ValidFunctions(fn) && SourceBoxes(cam, ms) && IncreasingTimestamps(ms)
    requires k < |ms| && ms[k].bounds == Some(box) && Uncorrected(TraceOf(cam, fn, ms, k))
    ensures CropAt(cam, fn, ms, k).Contains(box)
  {
    hide Step, Run, FullFrame, HeldCrop;
    AfterExtends(cam, fn, ms, k);
    assert SourceBox(cam, ms[k]);
    StepSafe(cam, fn, After(cam, fn, ms, k).state, ms[k]);
  }
}
