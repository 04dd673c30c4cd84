/**
 The look-ahead planner (`LookaheadCropPlanner.plan`): both axes of a seeded shot solved and
 repaired, every geometric promise re-checked, and the frame traces of the result.
 */
module Lookahead {
  import opened Prelude
  import opened Geometry
  import opened SeedPlanner
  import opened SeedSafety
  import opened SeedRun
  import opened AxisProgram
  import opened FramingCosts
  import opened AxisSolver
  import opened AxisGuarantees
  import opened AxisLoop
  import opened Kinematics

  /** A sampled detection the seed crop's size can contain. */
  predicate Possible(m: Measurement, crop: Rect) {
    m.sampled && m.bounds.Some? && m.bounds.value.width <= crop.width && m.bounds.value.height <= crop.height
  }

  function Constraint(m: Measurement, crop: Rect): Option<Rect> {
    if Possible(m, crop) then m.bounds else None
  }

  predicate IsClose(x: real, y: real) {
    Abs(x - y) <= TOLERANCE * Max(Abs(x), Abs(y))
  }

  /** `_validate_geometry` on one crop. */
  predicate SoundGeometry(f: Frame, crop: Rect) {
    && crop.width > 0.0 && crop.height > 0.0
    && 0.0 <= crop.x < crop.Right() <= f.width
    && 0.0 <= crop.y < crop.Bottom() <= f.height
    && IsClose(crop.width / crop.height, Ratio(f.aspect))
  }

  lemma ValidIsSound(f: Frame, crop: Rect)
    requires ValidFrame(f) && ValidCrop(crop, f)
    ensures SoundGeometry(f, crop)
  {
    assert crop.width / crop.height == Ratio(f.aspect);
  }

  /** In a safe run the constrained frames are exactly the sampled detections without a source
      limit, and every seed crop already contains its constraint. */
  lemma ConstraintsSafe(cam: Camera, m: Measurement, frame: SeedFrame)
    requires ValidFrame(cam.frame) && SourceBox(cam, m) && SafeFrame(cam, m, frame)
    ensures Possible(m, frame.crop) <==> m.sampled && m.bounds.Some? && !frame.trace.sourceAspectLimited
    ensures Possible(m, frame.crop) ==> frame.crop.Contains(m.bounds.value)
    ensures forall h: bool :: LegalOrigin(cam.frame, frame.crop, Constraint(m, frame.crop), h, Near(frame.crop, h))
  {
    hide FullFrame;
  }

  /* ---------------------------------------------------------------------------------------
     One axis of a seeded shot.
     --------------------------------------------------------------------------------------- */

  ghost predicate Seeded(cam: Camera, ms: seq<Measurement>, seed: seq<SeedFrame>) {
    && ValidFrame(cam.frame) && SourceBoxes(cam, ms) && IncreasingTimestamps(ms) && |ms| == |seed| > 0
    && forall i :: 0 <= i < |ms| ==> SafeFrame(cam, ms[i], seed[i])
  }

  function Timestamps(ms: seq<Measurement>): seq<int> {
    seq(|ms|, i requires 0 <= i < |ms| => ms[i].timestamp)
  }

  function Crops(seed: seq<SeedFrame>): seq<Rect> {
    seq(|seed|, i requires 0 <= i < |seed| => seed[i].crop)
  }

  function Constraints(ms: seq<Measurement>, crops: seq<Rect>): seq<Option<Rect>>
    requires |ms| == |crops|
  {
    seq(|ms|, i requires 0 <= i < |ms| => Constraint(ms[i], crops[i]))
  }

  function AxisOf(f: Frame, crops: seq<Rect>, legal: seq<Interval>, intervals: seq<real>, horizontal: bool): Axis {
    Axis(SourceExtent(f, horizontal),
         seq(|crops|, i requires 0 <= i < |crops| => Extent(crops[i], horizontal)),
         seq(|crops|, i requires 0 <= i < |crops| => Near(crops[i], horizontal)),
         legal, intervals)
  }

  lemma SeededIntervals(cam: Camera, ms: seq<Measurement>, seed: seq<SeedFrame>)
    requires Seeded(cam, ms, seed)
    ensures var iv := Intervals(Timestamps(ms));
            |iv| == |ms| - 1 && forall i :: 0 <= i < |iv| ==> iv[i] > 0.0
  {
    forall i | 0 <= i < |ms| - 1 ensures Intervals(Timestamps(ms))[i] > 0.0 {
      var j := i + 1;
      assert ms[j - 1].timestamp < ms[j].timestamp;
    }
  }

  /** Every interval of a safe seeded shot is non-empty. */
  lemma SeededNonempty(cam: Camera, ms: seq<Measurement>, seed: seq<SeedFrame>, horizontal: bool, i: nat)
    requires Seeded(cam, ms, seed) && i < |ms|
    ensures var crop := seed[i].crop;
            var l := LegalInterval(cam.frame, crop, Constraint(ms[i], crop), horizontal);
            l.originLower <= Near(crop, horizontal) <= l.originUpper
  {
    hide SafeFrame, LegalInterval, LegalOrigin;
    var crop := seed[i].crop;
    assert SourceBox(cam, ms[i]);
    ConstraintsSafe(cam, ms[i], seed[i]);
    LegalIntervalMeans(cam.frame, crop, Constraint(ms[i], crop), horizontal, Near(crop, horizontal));
  }

  ghost predicate SeededAxis(cam: Camera, ms: seq<Measurement>, seed: seq<SeedFrame>, horizontal: bool, a: Axis) {
    && Seeded(cam, ms, seed) && ValidAxis(a) && a.Count() == |ms|
    && a == AxisOf(cam.frame, Crops(seed), a.legal, Intervals(Timestamps(ms)), horizontal)
    && (forall i :: 0 <= i < |ms| ==>
          a.legal[i] == LegalInterval(cam.frame, seed[i].crop, Constraint(ms[i], seed[i].crop), horizontal))
    && LegalOrigins(a, a.origins)
  }

  lemma AxisReady(cam: Camera, ms: seq<Measurement>, seed: seq<SeedFrame>, horizontal: bool, legal: seq<Interval>)
    requires Seeded(cam, ms, seed) && |legal| == |ms|
    requires forall i :: 0 <= i < |ms| ==>
      legal[i] == LegalInterval(cam.frame, seed[i].crop, Constraint(ms[i], seed[i].crop), horizontal)
    ensures SeededAxis(cam, ms, seed, horizontal,
                       AxisOf(cam.frame, Crops(seed), legal, Intervals(Timestamps(ms)), horizontal))
  {
    SeededIntervals(cam, ms, seed);
    hide Intervals, Timestamps, CenterOf, Constraint;
    var a := AxisOf(cam.frame, Crops(seed), legal, Intervals(Timestamps(ms)), horizontal);
    forall i: nat | i < |ms|
      ensures a.extents[i] >= 0.0 && ValidInterval(a, i)
      ensures legal[i].originLower <= a.origins[i] <= legal[i].originUpper
    {
      SeededNonempty(cam, ms, seed, horizontal, i);
      assert SafeFrame(cam, ms[i], seed[i]);
    }
  }

  /** The axis a seeded shot is solved on. */
  ghost function SeedAxis(cam: Camera, ms: seq<Measurement>, seed: seq<SeedFrame>, horizontal: bool): (a: Axis)
    requires Seeded(cam, ms, seed)
    ensures SeededAxis(cam, ms, seed, horizontal, a)
  {
    var legal := seq(|ms|, i requires 0 <= i < |ms| =>
      LegalInterval(cam.frame, seed[i].crop, Constraint(ms[i], seed[i].crop), horizontal));
    AxisReady(cam, ms, seed, horizontal, legal);
    AxisOf(cam.frame, Crops(seed), legal, Intervals(Timestamps(ms)), horizontal)
  }

  /** Its source is the frame's width or height, its seeds are the seed crops' own corners, its
      intervals the seconds between timestamps, and an origin is legal when the crop stays in the
      source and around a sampled detection that fits it. */
  lemma SeedAxisMeans(cam: Camera, ms: seq<Measurement>, seed: seq<SeedFrame>, i: nat, x: real, y: real)
    requires Seeded(cam, ms, seed) && i < |ms|
    ensures var a, b, m, crop := SeedAxis(cam, ms, seed, true), SeedAxis(cam, ms, seed, false), ms[i], seed[i].crop;
            var held := m.sampled && m.bounds.Some? && !seed[i].trace.sourceAspectLimited;
            && a.source == cam.frame.width && a.extents[i] == crop.width && a.origins[i] == crop.x
            && b.source == cam.frame.height && b.extents[i] == crop.height && b.origins[i] == crop.y
            && (i > 0 ==> a.intervals[i - 1] == b.intervals[i - 1] == (m.timestamp - ms[i - 1].timestamp) as real / 1000.0)
            && (a.legal[i].originLower <= x <= a.legal[i].originUpper
                && b.legal[i].originLower <= y <= b.legal[i].originUpper
                <==> && 0.0 <= x && x + crop.width <= cam.frame.width
                     && 0.0 <= y && y + crop.height <= cam.frame.height
                     && (held ==> Rect(x, y, crop.width, crop.height).Contains(m.bounds.value)))
  {
    hide SafeFrame, LegalInterval;
    var a, b, m, crop := SeedAxis(cam, ms, seed, true), SeedAxis(cam, ms, seed, false), ms[i], seed[i].crop;
    assert SourceBox(cam, m) && SafeFrame(cam, m, seed[i]);
    ConstraintsSafe(cam, m, seed[i]);
    LegalIntervalMeans(cam.frame, crop, Constraint(m, crop), true, x);
    LegalIntervalMeans(cam.frame, crop, Constraint(m, crop), false, y);
  }

  /** Errors that only an answer of the solver can cause. */
  const SOLVER_ERRORS := {SolverRaised, NotOptimal, InconsistentAnswer, CenterOutsideInterval, ConstraintViolated, BoundViolated}

  lemma {:induction false} SolvedErrors(a: Axis, answers: seq<Answer>, k: nat)
    requires ValidAxis(a) && a.Count() >= 2 && 1 <= k <= PASSES && k <= |answers|
    ensures Solved(a, answers, k).Failure? ==> Solved(a, answers, k).error in SOLVER_ERRORS
  {
    hide RepairOf, Checked, ProgramAt, Feasible, Consistent;
    CheckedMeans(a, Optima(answers, k - 1), k - 1, answers[k - 1]);
    if k > 1 {
      SolvedErrors(a, answers, k - 1);
    }
  }

  /** What an axis gets back: legal origins, of bounded motion, or an error of the solver. */
  ghost predicate AxisOutcome(cam: Camera, ms: seq<Measurement>, seed: seq<SeedFrame>, horizontal: bool,
                              answers: seq<Answer>, r: Result<seq<real>, PlannerError>)
    requires Seeded(cam, ms, seed) && |answers| == PASSES
  {
    match r
    case Failure(e) => e in SOLVER_ERRORS
    case Success(origins) =>
      && |origins| == |ms|
      && (forall i :: 0 <= i < |ms| ==>
            LegalOrigin(cam.frame, seed[i].crop, Constraint(ms[i], seed[i].crop), horizontal, origins[i]))
      && (|ms| >= 2 ==>
            var c := AxisCenters(cam.frame, Crops(seed), origins, horizontal);
            && PathOf(Intervals(Timestamps(ms)), c)
            && MotionWithin(Intervals(Timestamps(ms)), c, OptimumOf(answers[0]), OptimumOf(answers[1])))
  }

  function AxisCenters(f: Frame, crops: seq<Rect>, origins: seq<real>, horizontal: bool): seq<real>
    requires ValidFrame(f) && |origins| == |crops|
  {
    seq(|crops|, i requires 0 <= i < |crops| =>
      CenterOf(SourceExtent(f, horizontal), Extent(crops[i], horizontal), origins[i]))
  }

  lemma SolvedOutcome(cam: Camera, ms: seq<Measurement>, seed: seq<SeedFrame>, horizontal: bool, a: Axis, answers: seq<Answer>)
    requires SeededAxis(cam, ms, seed, horizontal, a) && |ms| >= 2 && |answers| == PASSES
    ensures var solved := Solved(a, answers, PASSES);
            AxisOutcome(cam, ms, seed, horizontal, answers,
                        match solved case Failure(e) => Failure(e) case Success(x) => Success(x.origins))
  {
    hide Solved;
    SolvedErrors(a, answers, PASSES);
    if Solved(a, answers, PASSES).Success? {
      SolvedMotion(a, answers);
      Delivered(cam, ms, seed, horizontal, a, answers, Solved(a, answers, PASSES).value.origins);
    }
  }

  lemma Delivered(cam: Camera, ms: seq<Measurement>, seed: seq<SeedFrame>, horizontal: bool, a: Axis,
                  answers: seq<Answer>, origins: seq<real>)
    requires SeededAxis(cam, ms, seed, horizontal, a) && |ms| >= 2 && |answers| == PASSES && LegalOrigins(a, origins)
    requires MotionWithin(a.intervals, CentersOf(a, origins), OptimumOf(answers[0]), OptimumOf(answers[1]))
    ensures AxisOutcome(cam, ms, seed, horizontal, answers, Success(origins))
  {
    hide LegalInterval, LegalOrigin, MotionWithin, CenterOf, SafeFrame, Constraint, Intervals;
    assert AxisCenters(cam.frame, Crops(seed), origins, horizontal) == CentersOf(a, origins);
    LegalEach(cam, ms, seed, horizontal, a, origins);
  }

  lemma LegalEach(cam: Camera, ms: seq<Measurement>, seed: seq<SeedFrame>, horizontal: bool, a: Axis, origins: seq<real>)
    requires SeededAxis(cam, ms, seed, horizontal, a) && LegalOrigins(a, origins)
    ensures forall i :: 0 <= i < |ms| ==>
      LegalOrigin(cam.frame, seed[i].crop, Constraint(ms[i], seed[i].crop), horizontal, origins[i])
  {
    hide LegalInterval, LegalOrigin, CenterOf, SafeFrame, Constraint;
    forall i | 0 <= i < |ms|
      ensures LegalOrigin(cam.frame, seed[i].crop, Constraint(ms[i], seed[i].crop), horizontal, origins[i])
    {
      LegalIntervalMeans(cam.frame, seed[i].crop, Constraint(ms[i], seed[i].crop), horizontal, origins[i]);
    }
  }

  /** A single frame keeps its seed; a longer shot gets what the six passes make of the answers. */
  ghost function AxisPlan(cam: Camera, ms: seq<Measurement>, seed: seq<SeedFrame>, horizontal: bool,
                          answers: seq<Answer>): Result<seq<real>, PlannerError>
    requires Seeded(cam, ms, seed) && |answers| == PASSES
  {
    if |ms| == 1 then Success([Near(seed[0].crop, horizontal)])
    else
      match Solved(SeedAxis(cam, ms, seed, horizontal), answers, PASSES)
      case Failure(e) => Failure(e)
      case Success(x) => Success(x.origins)
  }

  /** One axis from its legal intervals to its origins: the empty-interval error cannot occur. */
  method PlanAxis(cam: Camera, ms: seq<Measurement>, seed: seq<SeedFrame>, intervals: seq<real>, horizontal: bool,
                  answers: seq<Answer>)
    returns (r: Result<seq<real>, PlannerError>)
    requires Seeded(cam, ms, seed) && |answers| == PASSES && intervals == Intervals(Timestamps(ms))
    ensures AxisOutcome(cam, ms, seed, horizontal, answers, r)
    ensures r == AxisPlan(cam, ms, seed, horizontal, answers)
  {
    hide LegalInterval, LegalOrigin, SafeFrame, Constraint;
    var crops := Crops(seed);
    var legal := AxisIntervals(cam.frame, crops, Constraints(ms, crops), horizontal);
    forall i: nat | i < |ms| ensures Nonempty(LegalInterval(cam.frame, crops[i], Constraints(ms, crops)[i], horizontal)) {
      SeededNonempty(cam, ms, seed, horizontal, i);
    }
    AxisReady(cam, ms, seed, horizontal, legal.value);
    var a := AxisOf(cam.frame, crops, legal.value, intervals, horizontal);
    assert a == SeedAxis(cam, ms, seed, horizontal) by {
      assert legal.value == SeedAxis(cam, ms, seed, horizontal).legal;
    }
    hide SeedAxis;
    r := SolveAxis(a, answers);
    if |ms| >= 2 {
      SolvedOutcome(cam, ms, seed, horizontal, a, answers);
    } else {
      LegalEach(cam, ms, seed, horizontal, a, r.value);
    }
  }

  /* ---------------------------------------------------------------------------------------
     Traces.
     --------------------------------------------------------------------------------------- */

  datatype LookaheadAction = SourceLimited | First | WidenMiss | LookaheadPan | LookaheadHold

  datatype LookaheadTrace = LookaheadTrace(
    desired: Rect, missed: bool, smoothing: bool, sourceAspectLimited: bool, action: LookaheadAction,
    errors: Option<Errors>, centerAdjusted: bool, sampledConstraint: bool,
    sampledContained: Option<bool>, heldContained: Option<bool>,
    velocity: Option<Pan>, acceleration: Option<Pan>, speedExceeded: bool, accelerationExceeded: bool)

  predicate SameCenter(a: Rect, b: Rect) {
    a.CenterX() == b.CenterX() && a.CenterY() == b.CenterY()
  }

  function TraceAt(crops: seq<Rect>, m: Measurement, seed: SeedFrame, i: nat, motion: FrameMotion): LookaheadTrace
    requires i < |crops|
  {
    var crop := crops[i];
    var contained := if m.bounds.Some? then Some(crop.Contains(m.bounds.value)) else None;
    var moved := i > 0 && !SameCenter(crop, crops[i - 1]);
    var action := if seed.trace.sourceAspectLimited then SourceLimited
                  else if i == 0 then First
                  else if seed.trace.missed then WidenMiss
                  else if moved then LookaheadPan else LookaheadHold;
    LookaheadTrace(
      seed.trace.desired, seed.trace.missed, i > 0 && crop != crops[i - 1], seed.trace.sourceAspectLimited, action,
      seed.trace.errors, !SameCenter(crop, seed.crop), m.sampled && m.bounds.Some?,
      if m.sampled then contained else None, if m.sampled then None else contained,
      motion.velocity, motion.acceleration,
      LimitExceeded(motion.speed, PAN_MAX_SPEED), LimitExceeded(motion.accelerationMagnitude, PAN_MAX_ACCELERATION))
  }

  /** `_traces`. */
  method Traces(f: Frame, crops: seq<Rect>, ms: seq<Measurement>, seed: seq<SeedFrame>, intervals: seq<real>)
    returns (traces: seq<LookaheadTrace>)
    requires TimedPath(f, crops, intervals) && |crops| == |ms| == |seed| == |intervals| + 1
    ensures |traces| == |crops|
    ensures forall i :: 0 <= i < |crops| ==>
              traces[i] == TraceAt(crops, ms[i], seed[i], i, MotionAt(PanVelocities(f, crops, intervals), intervals, i))
  {
    hide TraceAt, MotionAt, PanVelocities;
    var velocities := PanVelocities(f, crops, intervals);
    assert |velocities| == |intervals| by { VelocityCount(f, crops, intervals); }
    traces := [];
    for i := 0 to |crops|
      invariant |traces| == i
      invariant forall j :: 0 <= j < i ==>
        traces[j] == TraceAt(crops, ms[j], seed[j], j, MotionAt(velocities, intervals, j))
    {
      traces := traces + [TraceAt(crops, ms[i], seed[i], i, MotionAt(velocities, intervals, i))];
    }
  }

  lemma VelocityCount(f: Frame, crops: seq<Rect>, intervals: seq<real>)
    requires TimedPath(f, crops, intervals)
    ensures |PanVelocities(f, crops, intervals)| == |intervals|
  {
  }

  /* ---------------------------------------------------------------------------------------
     The plan.
     --------------------------------------------------------------------------------------- */

  datatype LookaheadPlan = LookaheadPlan(crops: seq<Rect>, traces: seq<LookaheadTrace>)

  /** What one frame of an accepted plan promises: the seed's size, a valid crop, and every
      sampled detection contained unless no crop of the aspect ratio could. */
  ghost predicate PlannedFrame(cam: Camera, m: Measurement, seed: SeedFrame, crop: Rect, trace: LookaheadTrace)
    requires ValidFrame(cam.frame)
  {
    && crop.width == seed.crop.width && crop.height == seed.crop.height && ValidCrop(crop, cam.frame)
    && (trace.sampledConstraint <==> m.sampled && m.bounds.Some?)
    && (trace.sampledConstraint ==>
          && trace.sampledContained == Some(crop.Contains(m.bounds.value))
          && (!trace.sourceAspectLimited ==> crop.Contains(m.bounds.value))
          && (trace.sourceAspectLimited <==>
               m.bounds.value.width > FullFrame(cam.frame).width || m.bounds.value.height > FullFrame(cam.frame).height))
  }

  /** A detection no crop of the aspect ratio can contain. */
  predicate ExceedsFull(f: Frame, m: Measurement)
    requires ValidFrame(f)
  {
    m.bounds.Some? && (m.bounds.value.width > FullFrame(f).width || m.bounds.value.height > FullFrame(f).height)
  }

  /** The signed motion a trace shows: the change of each center since the frame before in source
      extents per second, and how much that velocity differs from the one before over the mean of
      the two intervals. A first frame shows neither, a second one no acceleration. */
  ghost predicate TracedMotion(f: Frame, crops: seq<Rect>, i: nat, intervals: seq<real>, trace: LookaheadTrace)
    requires i < |crops| && TimedPath(f, crops, intervals)
  {
    && (trace.velocity.Some? <==> i >= 1)
    && (i >= 1 ==>
          && trace.velocity.value.x * intervals[i - 1] * f.width == crops[i].CenterX() - crops[i - 1].CenterX()
          && trace.velocity.value.y * intervals[i - 1] * f.height == crops[i].CenterY() - crops[i - 1].CenterY())
    && (trace.acceleration.Some? <==> i >= 2)
    && (i >= 2 ==>
          var mean, x, y := (intervals[i - 2] + intervals[i - 1]) / 2.0, CentersX(f, crops), CentersY(f, crops);
          && trace.acceleration.value.x * mean == Velocity(intervals, x, i - 1) - Velocity(intervals, x, i - 2)
          && trace.acceleration.value.y * mean == Velocity(intervals, y, i - 1) - Velocity(intervals, y, i - 2))
  }

  /** What a frame's trace tells about the plan: which action it took, whether look-ahead moved
      the seed crop at all, whether the crop changed, whether a held box is in view, and whether
      its motion exceeds a limit. */
  ghost predicate TracedFrame(f: Frame, m: Measurement, seed: SeedFrame, crops: seq<Rect>, i: nat, intervals: seq<real>,
                              trace: LookaheadTrace)
    requires i < |crops| && TimedPath(f, crops, intervals)
  {
    var limited, later := ExceedsFull(f, m), i > 0 && m.bounds.Some? && !ExceedsFull(f, m);
    && (trace.action == SourceLimited <==> limited) && (trace.sourceAspectLimited <==> limited)
    && (trace.action == First <==> i == 0 && !limited)
    && (trace.action == WidenMiss <==> i > 0 && m.bounds.None?)
    && (trace.action == LookaheadHold <==> later && SameCenter(crops[i], crops[i - 1]))
    && (trace.action == LookaheadPan <==> later && !SameCenter(crops[i], crops[i - 1]))
    && (trace.missed <==> m.bounds.None?)
    && trace.desired == seed.trace.desired && trace.errors == seed.trace.errors
    && TracedMotion(f, crops, i, intervals, trace)
    && (trace.centerAdjusted <==> crops[i] != seed.crop)
    && (trace.smoothing <==> i > 0 && crops[i] != crops[i - 1])
    && trace.heldContained == (if !m.sampled && m.bounds.Some? then Some(crops[i].Contains(m.bounds.value)) else None)
    && (trace.speedExceeded <==> LimitExceeded(FrameSpeed(f, crops, intervals, i), PAN_MAX_SPEED))
    && (trace.accelerationExceeded <==> LimitExceeded(FrameMagnitude(f, crops, intervals, i), PAN_MAX_ACCELERATION))
  }

  /** Every frame of a plan is traced so. */
  ghost predicate TracedPlan(f: Frame, ms: seq<Measurement>, seed: seq<SeedFrame>, plan: LookaheadPlan)
    requires |plan.crops| == |plan.traces| == |ms| == |seed|
  {
    var iv := Intervals(Timestamps(ms));
    && TimedPath(f, plan.crops, iv)
    && forall i :: 0 <= i < |ms| ==> TracedFrame(f, ms[i], seed[i], plan.crops, i, iv, plan.traces[i])
  }

  lemma CentersCount(f: Frame, crops: seq<Rect>)
    requires ValidFrame(f)
    ensures |CentersX(f, crops)| == |crops| && |CentersY(f, crops)| == |crops|
  {
  }

  lemma VelocityScaled(a: real, b: real, extent: real, dt: real)
    requires extent > 0.0 && dt > 0.0
    ensures (a - b) / extent / dt * dt * extent == a - b
  {
    var d := (a - b) / extent;
    assert d / dt * dt == d && d * extent == a - b;
  }

  lemma RateScaled(v: Pan, w: Pan, dt: real)
    requires dt > 0.0
    ensures PanAcceleration(v, w, dt).x * dt == v.x - w.x && PanAcceleration(v, w, dt).y * dt == v.y - w.y
  {
  }

  lemma MotionFields(f: Frame, crops: seq<Rect>, intervals: seq<real>, i: nat)
    requires TimedPath(f, crops, intervals) && i < |crops|
    ensures |crops| == |intervals| + 1 && |PanVelocities(f, crops, intervals)| == |intervals|
    ensures var motion := MotionAt(PanVelocities(f, crops, intervals), intervals, i);
            && motion.velocity == (if i >= 1 then Some(PanVelocity(f, crops[i - 1], crops[i], intervals[i - 1])) else None)
            && motion.acceleration
               == (if i >= 2 then Some(PanAcceleration(PanVelocity(f, crops[i - 1], crops[i], intervals[i - 1]),
                                                       PanVelocity(f, crops[i - 2], crops[i - 1], intervals[i - 2]),
                                                       (intervals[i - 2] + intervals[i - 1]) / 2.0))
                   else None)
  {
    hide PanVelocity, PanAcceleration, CentersX, CentersY;
    CentersCount(f, crops);
  }

  lemma MotionTraced(f: Frame, crops: seq<Rect>, intervals: seq<real>, m: Measurement, seed: SeedFrame, i: nat)
    requires TimedPath(f, crops, intervals) && i < |crops|
    ensures |PanVelocities(f, crops, intervals)| == |intervals|
    ensures TracedMotion(f, crops, i, intervals,
                         TraceAt(crops, m, seed, i, MotionAt(PanVelocities(f, crops, intervals), intervals, i)))
  {
    hide PanVelocity, PanVelocities, PanAcceleration, MotionAt, Velocity, LimitExceeded, CentersX, CentersY;
    MotionFields(f, crops, intervals, i);
    if i >= 1 {
      VelocityAt(f, crops, intervals, i - 1);
    }
    if i >= 2 {
      VelocityAt(f, crops, intervals, i - 2);
      RateScaled(PanVelocity(f, crops[i - 1], crops[i], intervals[i - 1]),
                 PanVelocity(f, crops[i - 2], crops[i - 1], intervals[i - 2]), (intervals[i - 2] + intervals[i - 1]) / 2.0);
    }
  }

  lemma VelocityAt(f: Frame, crops: seq<Rect>, intervals: seq<real>, i: nat)
    requires TimedPath(f, crops, intervals) && i < |intervals| && |crops| == |intervals| + 1
    ensures var v := PanVelocity(f, crops[i], crops[i + 1], intervals[i]);
            && v == Pan(Velocity(intervals, CentersX(f, crops), i), Velocity(intervals, CentersY(f, crops), i))
            && v.x * intervals[i] * f.width == crops[i + 1].CenterX() - crops[i].CenterX()
            && v.y * intervals[i] * f.height == crops[i + 1].CenterY() - crops[i].CenterY()
  {
    PanVelocityMeans(f, crops, intervals, i);
    VelocityScaled(crops[i + 1].CenterX(), crops[i].CenterX(), f.width, intervals[i]);
    VelocityScaled(crops[i + 1].CenterY(), crops[i].CenterY(), f.height, intervals[i]);
  }

  /** When each action occurs, and the meaning of the other fields. */
  lemma TraceMeans(cam: Camera, crops: seq<Rect>, intervals: seq<real>, m: Measurement, seed: SeedFrame, i: nat)
    requires TimedPath(cam.frame, crops, intervals) && i < |crops|
    requires SafeFrame(cam, m, seed) && crops[i].width == seed.crop.width && crops[i].height == seed.crop.height
    ensures |PanVelocities(cam.frame, crops, intervals)| == |intervals|
    ensures TracedFrame(cam.frame, m, seed, crops, i, intervals,
                        TraceAt(crops, m, seed, i, MotionAt(PanVelocities(cam.frame, crops, intervals), intervals, i)))
  {
    MotionTraced(cam.frame, crops, intervals, m, seed, i);
    hide FullFrame, PanVelocity, LimitExceeded, HeldCrop, TracedMotion;
  }

  ghost predicate PlanPromise(cam: Camera, ms: seq<Measurement>, seed: seq<SeedFrame>, plan: LookaheadPlan,
                              ax: seq<Answer>, ay: seq<Answer>)
    requires ValidFrame(cam.frame) && |ax| == |ay| == PASSES && |seed| == |ms|
  {
    && |plan.crops| == |plan.traces| == |ms|
    && (forall i :: 0 <= i < |ms| ==> PlannedFrame(cam, ms[i], seed[i], plan.crops[i], plan.traces[i]))
    && (|ms| >= 1 ==> TracedPlan(cam.frame, ms, seed, plan))
    && (|ms| >= 2 ==>
          var iv := Intervals(Timestamps(ms));
          && TimedPath(cam.frame, plan.crops, iv)
          && MotionWithin(iv, CentersX(cam.frame, plan.crops), OptimumOf(ax[0]), OptimumOf(ax[1]))
          && MotionWithin(iv, CentersY(cam.frame, plan.crops), OptimumOf(ay[0]), OptimumOf(ay[1])))
  }

  /** A seed crop moved to other origins. */
  function Moved(crops: seq<Rect>, x: seq<real>, y: seq<real>): seq<Rect>
    requires |crops| == |x| == |y|
  {
    seq(|crops|, i requires 0 <= i < |crops| => Rect(x[i], y[i], crops[i].width, crops[i].height))
  }

  lemma MovedSafe(cam: Camera, m: Measurement, seed: SeedFrame, x: real, y: real)
    requires ValidFrame(cam.frame) && SourceBox(cam, m) && SafeFrame(cam, m, seed)
    requires LegalOrigin(cam.frame, seed.crop, Constraint(m, seed.crop), true, x)
    requires LegalOrigin(cam.frame, seed.crop, Constraint(m, seed.crop), false, y)
    ensures var crop := Rect(x, y, seed.crop.width, seed.crop.height);
            && ValidCrop(crop, cam.frame) && SoundGeometry(cam.frame, crop)
            && (Possible(m, seed.crop) ==> crop.Contains(m.bounds.value))
  {
    hide FullFrame;
    ValidIsSound(cam.frame, Rect(x, y, seed.crop.width, seed.crop.height));
  }

  lemma MovedPlanned(cam: Camera, crops: seq<Rect>, m: Measurement, seed: SeedFrame, i: nat, motion: FrameMotion)
    requires ValidFrame(cam.frame) && SourceBox(cam, m) && SafeFrame(cam, m, seed) && i < |crops|
    requires crops[i].width == seed.crop.width && crops[i].height == seed.crop.height && ValidCrop(crops[i], cam.frame)
    requires Possible(m, seed.crop) ==> crops[i].Contains(m.bounds.value)
    ensures PlannedFrame(cam, m, seed, crops[i], TraceAt(crops, m, seed, i, motion))
  {
    ConstraintsSafe(cam, m, seed);
    hide FullFrame, ValidCrop, SameCenter;
  }

  lemma MovedCenters(f: Frame, crops: seq<Rect>, x: seq<real>, y: seq<real>)
    requires ValidFrame(f) && |crops| == |x| == |y|
    ensures CentersX(f, Moved(crops, x, y)) == AxisCenters(f, crops, x, true)
    ensures CentersY(f, Moved(crops, x, y)) == AxisCenters(f, crops, y, false)
  {
  }

  /** None of the checks on the seed can fail. */
  lemma SeedSound(cam: Camera, ms: seq<Measurement>, seed: seq<SeedFrame>)
    requires Seeded(cam, ms, seed)
    ensures forall crop :: crop in Crops(seed) ==> SoundGeometry(cam.frame, crop)
    ensures forall m :: m in ms && m.bounds.Some? ==> m.bounds.value.width > 0.0 && m.bounds.value.height > 0.0
    ensures forall i :: 0 <= i < |ms| && ms[i].sampled && ms[i].bounds.Some? && !seed[i].trace.sourceAspectLimited ==>
              Possible(ms[i], Crops(seed)[i])
  {
    hide SoundGeometry, FullFrame;
    forall i | 0 <= i < |ms|
      ensures SoundGeometry(cam.frame, seed[i].crop)
      ensures ms[i].sampled && ms[i].bounds.Some? && !seed[i].trace.sourceAspectLimited ==> Possible(ms[i], seed[i].crop)
    {
      assert SourceBox(cam, ms[i]) && SafeFrame(cam, ms[i], seed[i]);
      ValidIsSound(cam.frame, seed[i].crop);
      ConstraintsSafe(cam, ms[i], seed[i]);
    }
  }

  /** None of the checks on the moved crops can fail. */
  lemma ShotMoved(cam: Camera, ms: seq<Measurement>, seed: seq<SeedFrame>, x: seq<real>, y: seq<real>)
    requires Seeded(cam, ms, seed) && |x| == |y| == |ms|
    requires forall i :: 0 <= i < |ms| ==>
      && LegalOrigin(cam.frame, seed[i].crop, Constraint(ms[i], seed[i].crop), true, x[i])
      && LegalOrigin(cam.frame, seed[i].crop, Constraint(ms[i], seed[i].crop), false, y[i])
    ensures var moved := Moved(Crops(seed), x, y);
            && |moved| == |ms|
            && (forall crop :: crop in moved ==> SoundGeometry(cam.frame, crop))
            && forall i :: 0 <= i < |ms| ==>
                 && SourceBox(cam, ms[i])
                 && moved[i].width == seed[i].crop.width && moved[i].height == seed[i].crop.height
                 && ValidCrop(moved[i], cam.frame)
                 && (Possible(ms[i], seed[i].crop) ==> moved[i].Contains(ms[i].bounds.value))
  {
    hide SoundGeometry, SafeFrame, LegalOrigin, ValidCrop, SourceBox, Constraint;
    forall i | 0 <= i < |ms|
      ensures var crop := Rect(x[i], y[i], seed[i].crop.width, seed[i].crop.height);
              && SourceBox(cam, ms[i]) && SoundGeometry(cam.frame, crop) && ValidCrop(crop, cam.frame)
              && (Possible(ms[i], seed[i].crop) ==> crop.Contains(ms[i].bounds.value))
    {
      MovedSafe(cam, ms[i], seed[i], x[i], y[i]);
    }
  }

  lemma MovedTimed(cam: Camera, ms: seq<Measurement>, seed: seq<SeedFrame>, moved: seq<Rect>)
    requires Seeded(cam, ms, seed) && |moved| == |ms|
    ensures |Intervals(Timestamps(ms))| == |ms| - 1
    ensures TimedPath(cam.frame, moved, Intervals(Timestamps(ms)))
  {
    SeededIntervals(cam, ms, seed);
    hide Intervals, CentersX, CentersY;
    CentersCount(cam.frame, moved);
  }

  ghost predicate LegalOn(cam: Camera, ms: seq<Measurement>, seed: seq<SeedFrame>, horizontal: bool, origins: seq<real>) {
    && |origins| == |ms| == |seed|
    && forall i :: 0 <= i < |ms| ==>
         LegalOrigin(cam.frame, seed[i].crop, Constraint(ms[i], seed[i].crop), horizontal, origins[i])
  }

  /** The crops at the solved origins: neither the geometry check nor the containment check on
      them can fail. */
  method Place(cam: Camera, ms: seq<Measurement>, seed: seq<SeedFrame>, intervals: seq<real>, x: seq<real>, y: seq<real>)
    returns (r: Result<LookaheadPlan, PlannerError>)
    requires Seeded(cam, ms, seed) && intervals == Intervals(Timestamps(ms))
    requires LegalOn(cam, ms, seed, true, x) && LegalOn(cam, ms, seed, false, y)
    ensures r.Success? && r.value.crops == Moved(Crops(seed), x, y) && |r.value.traces| == |ms|
    ensures forall i :: 0 <= i < |ms| ==>
              PlannedFrame(cam, ms[i], seed[i], r.value.crops[i], r.value.traces[i])
    ensures TracedPlan(cam.frame, ms, seed, r.value)
  {
    hide SafeFrame, Intervals, PlannedFrame, LegalOrigin, SoundGeometry, ValidCrop, Constraint, TraceAt, MotionAt,
         PanVelocities, SourceBox, TimedPath, TracedFrame, FrameSpeed, FrameMagnitude;
    var crops := Crops(seed);
    var moved := Moved(crops, x, y);
    ShotMoved(cam, ms, seed, x, y);
    if !(forall crop :: crop in moved ==> SoundGeometry(cam.frame, crop)) {
      return Failure(InvalidGeometry);
    }
    if exists i :: 0 <= i < |ms| && Possible(ms[i], crops[i]) && !moved[i].Contains(ms[i].bounds.value) {
      return Failure(NotContained);
    }
    MovedTimed(cam, ms, seed, moved);
    SeededIntervals(cam, ms, seed);
    VelocityCount(cam.frame, moved, intervals);
    var traces := Traces(cam.frame, moved, ms, seed, intervals);
    forall i | 0 <= i < |ms| ensures PlannedFrame(cam, ms[i], seed[i], moved[i], traces[i]) {
      assert SafeFrame(cam, ms[i], seed[i]);
      MovedPlanned(cam, moved, ms[i], seed[i], i, MotionAt(PanVelocities(cam.frame, moved, intervals), intervals, i));
    }
    forall i | 0 <= i < |ms| ensures TracedFrame(cam.frame, ms[i], seed[i], moved, i, intervals, traces[i]) {
      assert SafeFrame(cam, ms[i], seed[i]);
      TraceMeans(cam, moved, intervals, ms[i], seed[i], i);
    }
    return Success(LookaheadPlan(moved, traces));
  }

  lemma Promised(cam: Camera, ms: seq<Measurement>, seed: seq<SeedFrame>, plan: LookaheadPlan, ax: seq<Answer>,
                 ay: seq<Answer>, x: seq<real>, y: seq<real>)
    requires Seeded(cam, ms, seed) && |ax| == |ay| == PASSES
    requires AxisOutcome(cam, ms, seed, true, ax, Success(x)) && AxisOutcome(cam, ms, seed, false, ay, Success(y))
    requires plan.crops == Moved(Crops(seed), x, y) && |plan.traces| == |ms|
    requires forall i :: 0 <= i < |ms| ==> PlannedFrame(cam, ms[i], seed[i], plan.crops[i], plan.traces[i])
    requires TracedPlan(cam.frame, ms, seed, plan)
    ensures PlanPromise(cam, ms, seed, plan, ax, ay)
  {
    hide SafeFrame, Intervals, PlannedFrame, TracedPlan, LegalOrigin, Constraint, MotionWithin, AxisCenters, CentersX, CentersY, PathOf;
    MovedCenters(cam.frame, Crops(seed), x, y);
    MovedTimed(cam, ms, seed, plan.crops);
  }

  /** A plan is the seed shot with its corners where the two axes put them, the horizontal axis
      first; an axis that fails fails the plan. */
  ghost predicate PlannedBy(cam: Camera, ms: seq<Measurement>, seed: seq<SeedFrame>, ax: seq<Answer>, ay: seq<Answer>,
                            r: Result<LookaheadPlan, PlannerError>)
    requires Seeded(cam, ms, seed) && |ax| == |ay| == PASSES
  {
    var x, y := AxisPlan(cam, ms, seed, true, ax), AxisPlan(cam, ms, seed, false, ay);
    if x.Failure? then r == Failure(x.error)
    else if y.Failure? then r == Failure(y.error)
    else
      && r.Success? && |r.value.crops| == |x.value| == |y.value| == |ms|
      && forall i :: 0 <= i < |ms| ==>
           r.value.crops[i] == Rect(x.value[i], y.value[i], seed[i].crop.width, seed[i].crop.height)
  }

  /** `LookaheadCropPlanner.plan`, with the solver's answers for both axes. Whatever they are,
      planning in-source boxes fails only on timestamps or on an answer itself, and a plan that
      is returned keeps every promise. */
  method PlanShot(cam: Camera, fn: Functions, ms: seq<Measurement>, ax: seq<Answer>, ay: seq<Answer>)
    returns (r: Result<LookaheadPlan, PlannerError>)
    requires ValidFrame(cam.frame) && ValidFunctions(fn) && SourceBoxes(cam, ms) && |ax| == |ay| == PASSES
    ensures r.Failure? && r.error !in SOLVER_ERRORS <==> !IncreasingTimestamps(ms)
    ensures r.Failure? && r.error !in SOLVER_ERRORS ==> r.error == PlannerError.Timestamps
    ensures r.Success? ==>
              var seed := Run(cam, fn, ms);
              seed.Success? && PlanPromise(cam, ms, seed.value.frames, r.value, ax, ay)
    ensures IncreasingTimestamps(ms) && ms != [] ==>
              var seed := Run(cam, fn, ms);
              && seed.Success? && Seeded(cam, ms, seed.value.frames)
              && PlannedBy(cam, ms, seed.value.frames, ax, ay, r)
  {
    hide AxisPlan, Run, SafeFrame, Intervals, PlannedFrame, TracedPlan, LegalOrigin, SoundGeometry, Constraint, SourceBox, MotionWithin,
         AxisCenters, CentersX, CentersY, PathOf;
    var planned := Plan(cam, fn, ms);
    if planned.Failure? {
      return Failure(PlannerError.Timestamps);
    }
    var seed := planned.value;
    if seed == [] {
      return Success(LookaheadPlan([], []));
    }
    var crops := Crops(seed);
    SeedSound(cam, ms, seed);
    if !(forall crop :: crop in crops ==> SoundGeometry(cam.frame, crop)) {
      return Failure(InvalidGeometry);
    }
    if exists m :: m in ms && m.bounds.Some? && (m.bounds.value.width <= 0.0 || m.bounds.value.height <= 0.0) {
      return Failure(InvalidDetector);
    }
    if exists i :: 0 <= i < |ms| && ms[i].sampled && ms[i].bounds.Some? && !Possible(ms[i], crops[i])
                   && !seed[i].trace.sourceAspectLimited {
      return Failure(CannotFit);
    }
    var intervals := Intervals(Timestamps(ms));
    var x := PlanAxis(cam, ms, seed, intervals, true, ax);
    if x.Failure? {
      return Failure(x.error);
    }
    var y := PlanAxis(cam, ms, seed, intervals, false, ay);
    if y.Failure? {
      return Failure(y.error);
    }
    r := Place(cam, ms, seed, intervals, x.value, y.value);
    Promised(cam, ms, seed, r.value, ax, ay, x.value, y.value);
  }
}
