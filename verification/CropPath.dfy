/**
 The analysis stage end to end (`_crop_path`): a decoded video and a tap in, a crop path out,
 through the frame clock, sampling, association, measurement and both planners.
 */
module CropPath {
  import opened Prelude
  import opened Geometry
  import opened Motion
  import opened Association
  import opened FrameClock
  import opened Tracking
  import SeedPlanner
  import SeedRun
  import SeedSafety
  import AxisGuarantees
  import AxisSolver
  import Kinematics
  import opened Lookahead

  /** What an analysis can fail with. `IndexOutOfRange` is the list access that a selection past
      the last analyzed frame makes. */
  datatype PipelineError =
    | SelectionOutside | InconsistentVideo | IndexOutOfRange | NoAthlete | Unplannable(error: AxisSolver.PlannerError)

  /** The parts of an analysis: the video's clock, the camera, the sampling step, the selected
      time and tap, and the mathematical functions. */
  datatype Analysis = Analysis(
    clock: Clock, camera: SeedPlanner.Camera, step: SampleStep, time: int, tap: Point, capture: bool,
    functions: SeedPlanner.Functions)

  ghost predicate ValidAnalysis(a: Analysis) {
    && ValidClock(a.clock) && a.clock.rate <= 1000.0 && ValidFrame(a.camera.frame) && ValidStep(a.step)
    && SeedPlanner.ValidFunctions(a.functions)
  }

  /** What the detector promises: boxes of positive area clipped to the source. */
  ghost predicate ClippedBoxes(f: Frame, frames: seq<DecodedFrame>) {
    forall i :: 0 <= i < |frames| ==> forall d :: d in frames[i].found ==> InSource(d.bounds, f)
  }

  /** A crop path keeps every accepted box: its crops are valid, and each contains the box of its
      frame unless the box exceeds the largest crop of the aspect ratio. */
  ghost predicate KeepsTarget(f: Frame, observations: seq<Observation>, crops: seq<Rect>)
    requires ValidFrame(f)
  {
    && |crops| == |observations|
    && forall i :: 0 <= i < |crops| ==>
         && ValidCrop(crops[i], f)
         && (observations[i].detection.Some? ==>
               var box := observations[i].detection.value.bounds;
               crops[i].Contains(box) || box.width > FullFrame(f).width || box.height > FullFrame(f).height)
  }

  /** Every accepted box comes from its frame's detections. */
  lemma AcceptedFound(root: Root, detections: seq<Option<seq<Detection>>>, f: Footage, observations: seq<Observation>,
                      tap: Point, i: nat)
    requires Tracked(f, observations) && f.detections == detections && f.root == root && i < |observations|
    requires detections[f.selected].Some? && f.selected < |f.timestamps|
    requires Success(observations[f.selected])
          == SelectTapped(root, detections[f.selected].value, f.selected, f.timestamps[f.selected], tap, f.capture)
    ensures observations[i].detection.Some? ==>
              detections[i].Some? && observations[i].detection.value in detections[i].value
  {
    hide SoundEvidence, WithinGate, DistanceSquared, ContainsPoint, EvidenceOf;
    if observations[i].detection.Some? && i != f.selected {
      assert observations[i].outcome != DetectionSkipped;
      var p: nat :| DecidedAgainst(f, observations, i, p);
    }
  }

  /** Observations fit for planning: dated by the clock, boxes inside the source, and samples on
      exactly the sampled frames. */
  ghost predicate Usable(a: Analysis, selected: nat, observations: seq<Observation>)
    requires ValidAnalysis(a)
  {
    && (forall i: nat :: i < |observations| ==> observations[i].timestamp == Timestamp(a.clock.rate, i))
    && (forall i: nat :: i < |observations| && observations[i].detection.Some? ==>
          InSource(observations[i].detection.value.bounds, a.camera.frame))
    && (forall i :: 0 <= i < |observations| ==>
          (observations[i].outcome != DetectionSkipped <==> Sampled(a.step, selected, i)))
    && (forall i :: 0 <= i < |observations| ==>
          observations[i].outcome == DetectionSkipped ==> observations[i].detection.None?)
  }

  /** What the association passes read of an analyzed video. */
  function FootageOf(a: Analysis, frames: seq<DecodedFrame>, selected: nat, box: Rect): Footage
    requires ValidAnalysis(a)
  {
    Footage(a.functions.root,
            seq(|frames|, i requires 0 <= i < |frames| =>
              if Sampled(a.step, selected, i) then Some(frames[i].found) else None),
            ClockTimes(a.clock.rate, |frames|), selected, box, a.capture)
  }

  function ClockTimes(rate: real, n: nat): seq<int>
    requires rate != 0.0
  {
    seq(n, i requires 0 <= i < n => Timestamp(rate, i))
  }

  /** The tap was resolved in the selected frame, and every other sampled frame was decided
      against the next accepted frame towards it. */
  ghost predicate TrackedVideo(a: Analysis, frames: seq<DecodedFrame>, observations: seq<Observation>)
    requires ValidAnalysis(a) && FrameForTime(a.clock, a.time).Success?
  {
    var selected := FrameForTime(a.clock, a.time).value;
    && |observations| == |frames| && 0 <= selected < |frames|
    && Success(observations[selected])
       == SelectTapped(a.functions.root, frames[selected].found, selected, Timestamp(a.clock.rate, selected), a.tap, a.capture)
    && observations[selected].detection.Some?
    && Tracked(FootageOf(a, frames, selected, observations[selected].detection.value.bounds), observations)
    && Usable(a, selected, observations)
  }

  /** The input reaches the indexing of the analyzed frames. */
  ghost predicate Decodable(a: Analysis, frames: seq<DecodedFrame>)
    requires ValidAnalysis(a)
  {
    FrameForTime(a.clock, a.time).Success? && Aligned(a.clock.rate, ExpectedFrames(a.clock), frames)
  }

  /** A selected time past the last analyzed frame, in terms of the request and the metadata. */
  predicate PastEnd(a: Analysis) {
    a.time as real * a.clock.rate >= ExpectedFrames(a.clock) as real * 1000.0
  }

  /** Exactly when each error of selection, sampling and association occurs. */
  ghost predicate FailsExactly(a: Analysis, frames: seq<DecodedFrame>, r: Option<PipelineError>)
    requires ValidAnalysis(a)
  {
    && (r == Some(SelectionOutside) <==> FrameForTime(a.clock, a.time).Failure?)
    && (r == Some(InconsistentVideo) <==>
          FrameForTime(a.clock, a.time).Success? && !Aligned(a.clock.rate, ExpectedFrames(a.clock), frames))
    && (r == Some(IndexOutOfRange) <==> Decodable(a, frames) && PastEnd(a))
    && (r == Some(NoAthlete) <==>
          && Decodable(a, frames) && !PastEnd(a)
          && var selected := FrameForTime(a.clock, a.time).value;
             0 <= selected < |frames| && frames[selected].found == [])
    && (r == Some(IndexOutOfRange) ==> !SelectionInRange(a.clock))
  }

  function ErrorOf<T>(r: Result<T, PipelineError>): Option<PipelineError> {
    match r case Success(_) => None case Failure(e) => Some(e)
  }

  /** The first half of `_crop_path`: selection, sampling and association. */
  method ObserveVideo(a: Analysis, frames: seq<DecodedFrame>) returns (r: Result<seq<Observation>, PipelineError>)
    requires ValidAnalysis(a) && ClippedBoxes(a.camera.frame, frames)
    ensures FailsExactly(a, frames, ErrorOf(r))
    ensures r.Failure? ==> !r.error.Unplannable?
    ensures r.Success? ==> Decodable(a, frames) && TrackedVideo(a, frames, r.value)
  {
    hide Timestamp, ExpectedFrames, OnGrid, SelectTapped, Tracked, InSource, DurationMs, FrameForTime, SelectionInRange,
         PastEnd, Aligned, SeedPlanner.ValidFunctions, Usable;
    var root := a.functions.root;
    var selection := FrameForTime(a.clock, a.time);
    if selection.Failure? {
      return Failure(SelectionOutside);
    }
    SelectedFrame(a.clock, a.time);
    SelectionMissed(a);
    var selected: nat := selection.value;
    var sampled := SampleFrames(a.clock.rate, ExpectedFrames(a.clock), a.step, selected, frames);
    if sampled.Failure? {
      return Failure(InconsistentVideo);
    }
    AlignedCount(a.clock, frames);
    var detections := sampled.value;
    if selected >= |detections| {
      return Failure(IndexOutOfRange);
    }
    var timestamps := ClockTimes(a.clock.rate, |frames|);
    RootOf(a.functions);
    ClockNonNegative(a.clock.rate, timestamps);
    var tracked := TrackTarget(root, detections, timestamps, selected, a.tap, a.capture);
    if tracked.Failure? {
      return Failure(NoAthlete);
    }
    ghost var f := FootageOf(a, frames, selected, tracked.value[selected].detection.value.bounds);
    assert f.detections == detections;
    ObservationsUsable(a, frames, f, tracked.value);
    return Success(tracked.value);
  }

  /** The rendered motion respects the limits, up to the first claimed optima and tolerances. */
  ghost predicate MotionKept(a: Analysis, crops: seq<Rect>, ax: seq<AxisSolver.Answer>, ay: seq<AxisSolver.Answer>)
    requires ValidAnalysis(a) && |ax| == |ay| == AxisSolver.PASSES
  {
    |crops| >= 2 ==>
      var iv, f := Kinematics.Intervals(ClockTimes(a.clock.rate, |crops|)), a.camera.frame;
      && Kinematics.TimedPath(f, crops, iv)
      && AxisGuarantees.MotionWithin(iv, Kinematics.CentersX(f, crops),
                                     AxisSolver.OptimumOf(ax[0]), AxisSolver.OptimumOf(ax[1]))
      && AxisGuarantees.MotionWithin(iv, Kinematics.CentersY(f, crops),
                                     AxisSolver.OptimumOf(ay[0]), AxisSolver.OptimumOf(ay[1]))
  }

  /** What the planner is given for the observations. */
  function MeasurementsOf(observations: seq<Observation>): seq<SeedPlanner.Measurement> {
    seq(|observations|, i requires 0 <= i < |observations| =>
      SeedPlanner.Measurement(BoundsOf(Held(observations, i + 1)), observations[i].timestamp,
                              observations[i].outcome != DetectionSkipped))
  }

  /** The plan is the seed run of these measurements with its corners where the answers put them,
      and its traces tell so. */
  ghost predicate PlannedVideo(a: Analysis, observations: seq<Observation>, ax: seq<AxisSolver.Answer>,
                               ay: seq<AxisSolver.Answer>, plan: LookaheadPlan)
    requires ValidAnalysis(a) && |ax| == |ay| == AxisSolver.PASSES
  {
    var ms := MeasurementsOf(observations);
    && SeedRun.SourceBoxes(a.camera, ms)
    && var seed := SeedRun.Run(a.camera, a.functions, ms);
       && seed.Success? && Seeded(a.camera, ms, seed.value.frames) && |plan.crops| == |plan.traces| == |ms|
       && TracedPlan(a.camera.frame, ms, seed.value.frames, plan)
       && PlannedBy(a.camera, ms, seed.value.frames, ax, ay, Success(plan))
  }

  /** `_crop_path`, for whatever the solver answers. Each error of the input occurs exactly where
      stated and every other is an answer's own; a returned crop path keeps every accepted box of
      the whole association chain in view, within the motion limits. */
  method AnalyzeVideo(a: Analysis, frames: seq<DecodedFrame>, ax: seq<AxisSolver.Answer>, ay: seq<AxisSolver.Answer>)
    returns (r: Result<LookaheadPlan, PipelineError>, observations: seq<Observation>)
    requires ValidAnalysis(a) && ClippedBoxes(a.camera.frame, frames) && |ax| == |ay| == AxisSolver.PASSES
    ensures FailsExactly(a, frames, ErrorOf(r))
    ensures r.Failure? && r.error.Unplannable? ==> r.error.error in SOLVER_ERRORS && Decodable(a, frames)
    ensures r.Success? ==>
              && Decodable(a, frames) && TrackedVideo(a, frames, observations)
              && |r.value.traces| == |r.value.crops| == |frames|
              && KeepsTarget(a.camera.frame, observations, r.value.crops)
              && MotionKept(a, r.value.crops, ax, ay)
              && PlannedVideo(a, observations, ax, ay, r.value)
  {
    hide Timestamp, ExpectedFrames, FrameForTime, SelectionInRange, PastEnd, Aligned, KeepsTarget, Usable, PlanPromise,
         MotionKept, Tracked, SelectTapped, SeedPlanner.ValidFunctions, SeedRun.Run, PlannedBy, TracedPlan, PlannedVideo;
    observations := [];
    var observed := ObserveVideo(a, frames);
    if observed.Failure? {
      return Failure(observed.error), [];
    }
    observations := observed.value;
    var ms := PlannerMeasurements(observed.value);
    UsablePlannable(a, FrameForTime(a.clock, a.time).value, observations, ms);
    var plan := PlanShot(a.camera, a.functions, ms, ax, ay);
    if plan.Failure? {
      return Failure(Unplannable(plan.error)), observations;
    }
    ghost var seed := SeedRun.Run(a.camera, a.functions, ms).value.frames;
    TargetKept(a.camera, observations, ms, seed, plan.value, ax, ay);
    MotionPromised(a, ms, seed, plan.value, ax, ay);
    PlanTraced(a, observations, ms, plan.value, ax, ay);
    return Success(plan.value), observations;
  }

  lemma PlanTraced(a: Analysis, observations: seq<Observation>, ms: seq<SeedPlanner.Measurement>, plan: LookaheadPlan,
                   ax: seq<AxisSolver.Answer>, ay: seq<AxisSolver.Answer>)
    requires ValidAnalysis(a) && |ax| == |ay| == AxisSolver.PASSES && |ms| == |observations| > 0
    requires forall i :: 0 <= i < |ms| ==>
      ms[i] == SeedPlanner.Measurement(BoundsOf(Held(observations, i + 1)), observations[i].timestamp,
                                       observations[i].outcome != DetectionSkipped)
    requires SeedRun.SourceBoxes(a.camera, ms)
    requires var seed := SeedRun.Run(a.camera, a.functions, ms);
             && seed.Success? && Seeded(a.camera, ms, seed.value.frames)
             && PlanPromise(a.camera, ms, seed.value.frames, plan, ax, ay)
             && PlannedBy(a.camera, ms, seed.value.frames, ax, ay, Success(plan))
    ensures PlannedVideo(a, observations, ax, ay, plan)
  {
    hide SeedRun.Run, Seeded, TracedPlan, PlannedBy, PlannedFrame, Held;
    assert ms == MeasurementsOf(observations);
  }

  lemma MotionPromised(a: Analysis, ms: seq<SeedPlanner.Measurement>, seed: seq<SeedPlanner.SeedFrame>, plan: LookaheadPlan,
                       ax: seq<AxisSolver.Answer>, ay: seq<AxisSolver.Answer>)
    requires ValidAnalysis(a) && |ax| == |ay| == AxisSolver.PASSES && |seed| == |ms|
    requires PlanPromise(a.camera, ms, seed, plan, ax, ay)
    requires forall i: nat :: i < |ms| ==> ms[i].timestamp == Timestamp(a.clock.rate, i)
    ensures |plan.traces| == |plan.crops| == |ms| && MotionKept(a, plan.crops, ax, ay)
  {
    hide Timestamp, PlannedFrame, TracedPlan, AxisGuarantees.MotionWithin, Kinematics.Intervals, Kinematics.TimedPath;
    assert Timestamps(ms) == ClockTimes(a.clock.rate, |ms|);
  }

  lemma AlignedCount(c: Clock, frames: seq<DecodedFrame>)
    requires c.rate != 0.0 && Aligned(c.rate, ExpectedFrames(c), frames)
    ensures |frames| == ExpectedFrames(c)
  {
  }

  lemma {:induction false} UsablePlannable(a: Analysis, selected: nat, observations: seq<Observation>,
                                           ms: seq<SeedPlanner.Measurement>)
    requires ValidAnalysis(a) && Usable(a, selected, observations) && |ms| == |observations|
    requires forall i :: 0 <= i < |ms| ==>
      ms[i] == SeedPlanner.Measurement(BoundsOf(Held(observations, i + 1)), observations[i].timestamp,
                                       observations[i].outcome != DetectionSkipped)
    ensures SeedRun.IncreasingTimestamps(ms) && SeedRun.SourceBoxes(a.camera, ms)
    ensures forall i :: 0 <= i < |observations| ==>
              observations[i].outcome == DetectionSkipped ==> observations[i].detection.None?
    ensures forall i: nat :: i < |ms| ==> ms[i].timestamp == Timestamp(a.clock.rate, i)
  {
    hide Timestamp, InSource;
    MeasurementsPlannable(a.camera, a.clock.rate, observations, ms);
  }

  lemma RootOf(fn: SeedPlanner.Functions)
    requires SeedPlanner.ValidFunctions(fn)
    ensures IsSqrt(fn.root)
  {
  }

  lemma SelectedFrame(c: Clock, time: int)
    requires ValidClock(c) && FrameForTime(c, time).Success?
    ensures FrameForTime(c, time).value >= 0
  {
    FirstFrame(c.rate);
    FramesOrdered(c.rate, 0, time);
  }

  /** The index error in terms of the request: a frame past the last one. */
  lemma SelectionMissed(a: Analysis)
    requires ValidClock(a.clock) && FrameForTime(a.clock, a.time).Success?
    ensures FrameForTime(a.clock, a.time).value >= ExpectedFrames(a.clock) <==> PastEnd(a)
    ensures PastEnd(a) ==> !SelectionInRange(a.clock)
  {
    hide ExpectedFrames, FrameAt, SelectionInRange;
    SelectionsInRange(a.clock);
    LastSelection(a.clock, a.time, ExpectedFrames(a.clock));
  }

  lemma ClockNonNegative(rate: real, timestamps: seq<int>)
    requires 0.0 < rate <= 1000.0 && forall i: nat :: i < |timestamps| ==> timestamps[i] == Timestamp(rate, i)
    ensures forall i :: 0 <= i < |timestamps| ==> timestamps[i] >= 0
  {
    hide Timestamp;
    forall i: nat | i < |timestamps| ensures timestamps[i] >= 0 {
      StrictlyIncreasing(rate, i);
    }
  }

  /** Observations carry the clock's timestamps and only boxes inside the source, and are samples
      exactly on the sampled frames. */
  lemma ObservationsUsable(a: Analysis, frames: seq<DecodedFrame>, f: Footage, observations: seq<Observation>)
    requires ValidAnalysis(a) && ClippedBoxes(a.camera.frame, frames)
    requires Tracked(f, observations) && |observations| == |frames| == |f.timestamps|
    requires f.detections[f.selected].Some?
    requires Success(observations[f.selected])
          == SelectTapped(f.root, f.detections[f.selected].value, f.selected, f.timestamps[f.selected], a.tap, f.capture)
    requires forall i :: 0 <= i < |frames| ==>
      f.detections[i] == if Sampled(a.step, f.selected, i) then Some(frames[i].found) else None
    requires forall i: nat :: i < |frames| ==> f.timestamps[i] == Timestamp(a.clock.rate, i)
    ensures Usable(a, f.selected, observations)
  {
    hide Timestamp, OnGrid, SelectTapped, InSource, SoundEvidence, DecidedAgainst;
    forall i: nat | i < |observations| && observations[i].detection.Some?
      ensures InSource(observations[i].detection.value.bounds, a.camera.frame)
    {
      AcceptedFound(f.root, f.detections, f, observations, a.tap, i);
    }
  }

  /** An accepted box is its own frame's measurement, and so is kept by the plan. */
  lemma {:induction false} TargetKept(cam: SeedPlanner.Camera, observations: seq<Observation>, ms: seq<SeedPlanner.Measurement>,
                   seed: seq<SeedPlanner.SeedFrame>, plan: LookaheadPlan, ax: seq<AxisSolver.Answer>, ay: seq<AxisSolver.Answer>)
    requires ValidFrame(cam.frame) && |ax| == |ay| == AxisSolver.PASSES && |seed| == |ms| == |observations|
    requires PlanPromise(cam, ms, seed, plan, ax, ay)
    requires forall i :: 0 <= i < |observations| ==>
      observations[i].outcome == DetectionSkipped ==> observations[i].detection.None?
    requires forall i :: 0 <= i < |ms| ==>
      ms[i] == SeedPlanner.Measurement(BoundsOf(Held(observations, i + 1)), observations[i].timestamp,
                                       observations[i].outcome != DetectionSkipped)
    ensures KeepsTarget(cam.frame, observations, plan.crops)
  {
    hide FullFrame, ValidCrop;
    forall i | 0 <= i < |observations|
      ensures ValidCrop(plan.crops[i], cam.frame)
      ensures observations[i].detection.Some? ==>
                var box := observations[i].detection.value.bounds;
                || plan.crops[i].Contains(box)
                || box.width > FullFrame(cam.frame).width || box.height > FullFrame(cam.frame).height
    {
      assert PlannedFrame(cam, ms[i], seed[i], plan.crops[i], plan.traces[i]);
      if observations[i].detection.Some? {
        assert Held(observations, i + 1) == observations[i].detection;
      }
    }
  }
}
