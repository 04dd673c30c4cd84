/** What the review of a planned video shows: the trace records written from its observations and
    its plan, and the warnings in terms of boxes, crops and motion. */
module ReviewTrace {
  import opened Prelude
  import opened Geometry
  import opened Association
  import opened Kinematics
  import opened FrameClock
  import opened Lookahead
  import opened Tracking
  import opened WarningIntervals
  import AxisSolver
  import CropPath
  import SeedPlanner
  import SeedRun

  /* ---------------------------------------------------------------------------------------
     Labels.
     --------------------------------------------------------------------------------------- */

  function Text(l: Label): string {
    match l
    case DetectionUnavailable => "Detection unavailable"
    case HeldDetectionUnavailable => "Held detection unavailable"
    case HeldTargetOutside => "Held target outside crop"
    case PanAccelerationExceeded => "Pan acceleration limit exceeded"
    case PanSpeedExceeded => "Pan speed limit exceeded"
    case SourceAspectLimited => "Source/aspect limited"
  }

  /** The texts differ first at position `k`, where `a` has the smaller character. */
  predicate DiffersAt(a: string, b: string, k: nat) {
    k < |a| && k < |b| && a[..k] == b[..k] && a[k] < b[k]
  }

  /** The order of texts; none of the labels is a prefix of another. */
  ghost predicate TextBefore(a: string, b: string) {
    exists k: nat :: DiffersAt(a, b, k)
  }

  lemma SharedPrefix(a: string, b: string, k: nat, j: nat)
    requires j < k <= |a| && k <= |b| && a[..k] == b[..k]
    ensures a[j] == b[j]
  {
    assert a[..k][j] == b[..k][j];
  }

  lemma DiffersOnce(a: string, b: string, k: nat)
    requires DiffersAt(a, b, k)
    ensures TextBefore(a, b) && !TextBefore(b, a)
  {
    forall j: nat ensures !DiffersAt(b, a, j) {
      if j < k {
        SharedPrefix(a, b, k, j);
      } else if k < j && j <= |a| && j <= |b| && a[..j] == b[..j] {
        SharedPrefix(a, b, j, k);
      }
    }
  }

  lemma InOrder(l: Label, m: Label)
    requires Rank(l) < Rank(m)
    ensures TextBefore(Text(l), Text(m)) && !TextBefore(Text(m), Text(l))
  {
    if l == HeldDetectionUnavailable && m == HeldTargetOutside {
      DiffersOnce("Held detection unavailable", "Held target outside crop", 5);
    } else if l == PanAccelerationExceeded && m == PanSpeedExceeded {
      DiffersOnce("Pan acceleration limit exceeded", "Pan speed limit exceeded", 4);
    } else {
      FirstCharacters(l);
      FirstCharacters(m);
      hide Text;
      DiffersOnce(Text(l), Text(m), 0);
    }
  }

  lemma FirstCharacters(l: Label)
    ensures |Text(l)| > 0
    ensures Text(l)[0] == match l
                          case DetectionUnavailable => 'D'
                          case HeldDetectionUnavailable => 'H'
                          case HeldTargetOutside => 'H'
                          case PanAccelerationExceeded => 'P'
                          case PanSpeedExceeded => 'P'
                          case SourceAspectLimited => 'S'
  {
  }

  lemma NotBeforeItself(a: string)
    ensures !TextBefore(a, a)
  {
  }

  /** Warnings that start together are shown in the order of their texts. */
  lemma RankIsTextual(l: Label, m: Label)
    ensures Rank(l) < Rank(m) <==> TextBefore(Text(l), Text(m))
    ensures Rank(l) == Rank(m) <==> l == m
  {
    hide Text, TextBefore;
    if Rank(l) < Rank(m) {
      InOrder(l, m);
    } else if Rank(m) < Rank(l) {
      InOrder(m, l);
    } else {
      NotBeforeItself(Text(l));
    }
  }

  /* ---------------------------------------------------------------------------------------
     Records.
     --------------------------------------------------------------------------------------- */

  datatype TraceError = MismatchedCounts | TooManyFrames

  /** A record shows the time and the detection of its frame's observation, and the decision of
      its frame's trace. */
  ghost predicate Recorded(o: Observation, t: LookaheadTrace, r: TraceRecord) {
    && r.timestamp == o.timestamp && (r.skipped <==> o.outcome == DetectionSkipped) && (r.hasBounds <==> o.detection.Some?)
    && r.missed == t.missed && r.sourceAspectLimited == t.sourceAspectLimited
    && r.speedExceeded == t.speedExceeded && r.accelerationExceeded == t.accelerationExceeded
    && r.heldContained == t.heldContained
  }

  /** `_write_analysis_trace`, without its limit on bytes. */
  method AnalysisTrace(observations: seq<Observation>, ms: seq<SeedPlanner.Measurement>, plan: LookaheadPlan, maxFrames: nat)
    returns (r: Result<seq<TraceRecord>, TraceError>)
    ensures r == Failure(MismatchedCounts) <==> !(|observations| == |ms| == |plan.crops| == |plan.traces|)
    ensures r == Failure(TooManyFrames)
       <==> |observations| == |ms| == |plan.crops| == |plan.traces| && |observations| > maxFrames
    ensures r.Success? ==>
              && |r.value| == |observations| == |plan.traces|
              && forall i :: 0 <= i < |r.value| ==> Recorded(observations[i], plan.traces[i], r.value[i])
  {
    if !(|observations| == |ms| == |plan.crops| == |plan.traces|) {
      return Failure(MismatchedCounts);
    }
    if |observations| > maxFrames {
      return Failure(TooManyFrames);
    }
    var records := [];
    for i := 0 to |observations|
      invariant |records| == i
      invariant forall j :: 0 <= j < i ==> Recorded(observations[j], plan.traces[j], records[j])
    {
      var o, t := observations[i], plan.traces[i];
      records := records + [TraceRecord(o.timestamp, o.outcome == DetectionSkipped, o.detection.Some?, t.missed,
                                        t.sourceAspectLimited, t.speedExceeded, t.accelerationExceeded, t.heldContained)];
    }
    return Success(records);
  }

  /* ---------------------------------------------------------------------------------------
     Warnings.
     --------------------------------------------------------------------------------------- */

  /** A planned video: what was observed, what the planner was given, and the crops. */
  datatype View = View(
    frame: Frame, observations: seq<Observation>, ms: seq<SeedPlanner.Measurement>, crops: seq<Rect>, intervals: seq<real>)

  ghost predicate ValidView(v: View) {
    TimedPath(v.frame, v.crops, v.intervals) && |v.observations| == |v.ms| == |v.crops| == |v.intervals| + 1
  }

  function PhaseOf(l: Label): Phase {
    if l == DetectionUnavailable then DetectionPhase else FramingPhase
  }

  /** When a frame carries a label: a sample without a detection; no box to hold; a box too large
      for the aspect ratio; a pan faster than a quarter of the source a second, or accelerating by
      more than half of it a second squared, both beyond tolerance; a held box out of view. */
  ghost predicate Shows(v: View, l: Label, i: nat)
    requires ValidView(v) && i < |v.crops|
  {
    match l
    case DetectionUnavailable => v.observations[i].outcome != DetectionSkipped && v.observations[i].detection.None?
    case HeldDetectionUnavailable => v.ms[i].bounds.None?
    case SourceAspectLimited => ExceedsFull(v.frame, v.ms[i])
    case PanSpeedExceeded => FrameSpeed(v.frame, v.crops, v.intervals, i) > 0.25 + 0.00000001 + 0.000000000001
    case PanAccelerationExceeded => FrameMagnitude(v.frame, v.crops, v.intervals, i) > 0.5 + 0.00000001 + 0.000000000001
    case HeldTargetOutside => !v.ms[i].sampled && v.ms[i].bounds.Some? && !v.crops[i].Contains(v.ms[i].bounds.value)
  }

  lemma LimitMeans(value: real, limit: real)
    ensures LimitExceeded(value, limit) <==> value > limit + 0.00000001 + 0.000000000001
  {
  }

  /** The label each field of a record raises. */
  lemma RaisedBy(records: seq<TraceRecord>, phase: Phase, l: Label, i: nat)
    requires i < |records|
    ensures var r := records[i];
            Carries(records, phase, l, i)
            <==> && phase == PhaseOf(l)
                 && match l
                    case DetectionUnavailable => !r.skipped && !r.hasBounds
                    case HeldDetectionUnavailable => r.missed
                    case SourceAspectLimited => r.sourceAspectLimited
                    case PanSpeedExceeded => r.speedExceeded
                    case PanAccelerationExceeded => r.accelerationExceeded
                    case HeldTargetOutside => r.heldContained == Some(false)
  {
  }

  lemma CarriesMeans(v: View, seed: SeedPlanner.SeedFrame, t: LookaheadTrace, records: seq<TraceRecord>, phase: Phase,
                     l: Label, i: nat)
    requires ValidView(v) && i < |v.crops| == |records|
    requires TracedFrame(v.frame, v.ms[i], seed, v.crops, i, v.intervals, t) && Recorded(v.observations[i], t, records[i])
    ensures Carries(records, phase, l, i) <==> phase == PhaseOf(l) && Shows(v, l, i)
  {
    LimitMeans(FrameSpeed(v.frame, v.crops, v.intervals, i), 0.25);
    LimitMeans(FrameMagnitude(v.frame, v.crops, v.intervals, i), 0.5);
    RaisedBy(records, phase, l, i);
    hide Carries, FrameSpeed, FrameMagnitude, LimitExceeded, TracedMotion, ExceedsFull, TimedPath;
  }

  /** A maximal run of frames that carry a label. */
  ghost predicate RunOf(v: View, l: Label, i: nat, j: nat)
    requires ValidView(v)
  {
    && i < j <= |v.crops|
    && (forall k: nat :: i <= k < j ==> Shows(v, l, k))
    && (i > 0 ==> !Shows(v, l, i - 1)) && (j < |v.crops| ==> !Shows(v, l, j))
  }

  /** The interval shown for a run: from its first frame to the first without the label, or to the
      last frame of the video. */
  ghost predicate WarningOf(v: View, w: Warning, i: nat, j: nat)
    requires ValidView(v)
  {
    && RunOf(v, w.name, i, j) && w.start == v.observations[i].timestamp
    && w.end == v.observations[if j < |v.crops| then j else j - 1].timestamp
  }

  /** The warnings of a phase are exactly the maximal runs of its labels, each once. */
  ghost predicate ExactView(v: View, phase: Phase, ws: seq<Warning>)
    requires ValidView(v)
  {
    && Distinct(ws)
    && (forall w :: w in ws ==> PhaseOf(w.name) == phase && exists i: nat, j: nat :: WarningOf(v, w, i, j))
    && (forall w: Warning, i: nat, j: nat :: PhaseOf(w.name) == phase && WarningOf(v, w, i, j) ==> w in ws)
  }

  /** The records of a view. */
  ghost predicate RecordsView(v: View, records: seq<TraceRecord>)
    requires ValidView(v)
  {
    && |records| == |v.crops|
    && (forall i :: 0 <= i < |records| ==> records[i].timestamp == v.observations[i].timestamp)
    && forall phase, l, i: nat :: i < |records| ==>
         (Carries(records, phase, l, i) <==> phase == PhaseOf(l) && Shows(v, l, i))
  }

  lemma MaximalAgrees(v: View, records: seq<TraceRecord>, phase: Phase, l: Label, i: nat, j: nat)
    requires ValidView(v) && RecordsView(v, records)
    ensures MaximalRun(records, phase, l, i, j) <==> PhaseOf(l) == phase && RunOf(v, l, i, j)
  {
    hide Shows, Carries, ValidView;
    if MaximalRun(records, phase, l, i, j) {
      assert Carries(records, phase, l, i);
      forall k: nat | i <= k < j ensures Shows(v, l, k) {
        assert Carries(records, phase, l, k);
      }
      assert j < |records| ==> !Carries(records, phase, l, j);
    }
    if PhaseOf(l) == phase && RunOf(v, l, i, j) {
      forall k: nat | i <= k < j ensures Carries(records, phase, l, k) {
        assert Shows(v, l, k);
      }
    }
  }

  lemma RunsAgree(v: View, records: seq<TraceRecord>, phase: Phase, w: Warning, i: nat, j: nat)
    requires ValidView(v) && RecordsView(v, records)
    ensures IsRun(records, phase, w, i, j) <==> PhaseOf(w.name) == phase && WarningOf(v, w, i, j)
  {
    MaximalAgrees(v, records, phase, w.name, i, j);
    hide Shows, Carries, ValidView;
  }

  lemma ExactMeans(v: View, records: seq<TraceRecord>, phase: Phase, ws: seq<Warning>)
    requires ValidView(v) && RecordsView(v, records) && Exact(records, phase, ws)
    ensures ExactView(v, phase, ws)
  {
    hide WarningOf, IsRun, RecordsView, ValidView, Distinct;
    forall w | w in ws ensures PhaseOf(w.name) == phase && exists i: nat, j: nat :: WarningOf(v, w, i, j) {
      var i: nat, j: nat :| IsRun(records, phase, w, i, j);
      RunsAgree(v, records, phase, w, i, j);
    }
    forall w: Warning, i: nat, j: nat | PhaseOf(w.name) == phase && WarningOf(v, w, i, j) ensures w in ws {
      RunsAgree(v, records, phase, w, i, j);
      RunListed(records, phase, ws, w, i, j);
    }
  }

  lemma RunListed(records: seq<TraceRecord>, phase: Phase, ws: seq<Warning>, w: Warning, i: nat, j: nat)
    requires Exact(records, phase, ws) && IsRun(records, phase, w, i, j)
    ensures w in ws
  {
  }

  /** The first hundred of the exact intervals of a phase, in order of start and label. */
  ghost predicate ShownView(v: View, phase: Phase, shown: seq<Warning>)
    requires ValidView(v)
  {
    exists all: seq<Warning> :: Truncates(all, shown) && ExactView(v, phase, all) && Sorted(all)
  }

  /* ---------------------------------------------------------------------------------------
     A whole video.
     --------------------------------------------------------------------------------------- */

  /** What a plan of a video's observations lets a viewer see. */
  ghost function ViewOf(a: CropPath.Analysis, observations: seq<Observation>, plan: LookaheadPlan): View {
    var ms := CropPath.MeasurementsOf(observations);
    View(a.camera.frame, observations, ms, plan.crops, Intervals(Timestamps(ms)))
  }

  lemma ViewRecorded(a: CropPath.Analysis, observations: seq<Observation>, plan: LookaheadPlan, ax: seq<AxisSolver.Answer>,
                     ay: seq<AxisSolver.Answer>, records: seq<TraceRecord>)
    requires CropPath.ValidAnalysis(a) && |ax| == |ay| == AxisSolver.PASSES && observations != []
    requires CropPath.PlannedVideo(a, observations, ax, ay, plan) && |records| == |observations|
    requires forall i :: 0 <= i < |records| ==> Recorded(observations[i], plan.traces[i], records[i])
    ensures var v := ViewOf(a, observations, plan);
            ValidView(v) && |v.crops| == |observations| && RecordsView(v, records)
  {
    hide SeedRun.Run, Seeded, PlannedBy, TracedFrame, Carries, Shows;
    var v := ViewOf(a, observations, plan);
    var seed := SeedRun.Run(a.camera, a.functions, v.ms).value.frames;
    ViewValid(v);
    forall phase, l, i: nat | i < |records| ensures Carries(records, phase, l, i) <==> phase == PhaseOf(l) && Shows(v, l, i) {
      CarriesMeans(v, seed[i], plan.traces[i], records, phase, l, i);
    }
  }

  lemma ViewValid(v: View)
    requires TimedPath(v.frame, v.crops, v.intervals) && |v.observations| == |v.ms| == |v.crops| > 0
    ensures ValidView(v)
  {
  }

  lemma RecordsOrdered(a: CropPath.Analysis, frames: seq<DecodedFrame>, observations: seq<Observation>, plan: LookaheadPlan,
                       records: seq<TraceRecord>)
    requires CropPath.ValidAnalysis(a) && CropPath.Decodable(a, frames) && CropPath.TrackedVideo(a, frames, observations)
    requires |records| == |observations| == |plan.traces|
    requires forall i :: 0 <= i < |records| ==> Recorded(observations[i], plan.traces[i], records[i])
    ensures observations != [] && Ordered(records)
  {
    hide Timestamp, ExpectedFrames, FrameForTime, SelectTapped, Tracked, Sampled, InSource, Aligned;
    CropPath.AlignedCount(a.clock, frames);
    AlignedOrdered(a.clock, records);
  }

  datatype ReviewError = Unanalyzed(analysis: CropPath.PipelineError) | Untraced(trace: TraceError)

  /** From a decoded video to its review: analyzed, traced, and shown phase by phase. What is
      shown are the first hundred maximal runs of frames that carry each label of the phase. */
  method ReviewVideo(a: CropPath.Analysis, frames: seq<DecodedFrame>, ax: seq<AxisSolver.Answer>, ay: seq<AxisSolver.Answer>,
                     maxFrames: nat)
    returns (r: Result<(seq<Warning>, seq<Warning>), ReviewError>, ghost observations: seq<Observation>, ghost plan: LookaheadPlan)
    requires CropPath.ValidAnalysis(a) && CropPath.ClippedBoxes(a.camera.frame, frames)
    requires |ax| == |ay| == AxisSolver.PASSES
    ensures r.Failure? && r.error.Untraced? ==> r.error.trace == TooManyFrames && |frames| > maxFrames
    ensures r.Success? ==>
              && |frames| <= maxFrames && CropPath.Decodable(a, frames) && CropPath.TrackedVideo(a, frames, observations)
              && CropPath.PlannedVideo(a, observations, ax, ay, plan)
              && var v := ViewOf(a, observations, plan);
                 ValidView(v) && ShownView(v, DetectionPhase, r.value.0) && ShownView(v, FramingPhase, r.value.1)
  {
    hide CropPath.TrackedVideo, CropPath.KeepsTarget, CropPath.MotionKept, CropPath.FailsExactly, CropPath.PlannedVideo,
         CropPath.ValidAnalysis, CropPath.Decodable, Recorded, ValidView, RecordsView, ShownView, Ordered, ViewOf;
    observations, plan := [], LookaheadPlan([], []);
    var analyzed, observed := CropPath.AnalyzeVideo(a, frames, ax, ay);
    if analyzed.Failure? {
      return Failure(Unanalyzed(analyzed.error)), [], plan;
    }
    observations, plan := observed, analyzed.value;
    Counted(a, frames, observed);
    var ms := CropPath.MeasurementsOf(observed);
    var records := AnalysisTrace(observed, ms, analyzed.value, maxFrames);
    if records.Failure? {
      return Failure(Untraced(records.error)), observed, plan;
    }
    RecordsOrdered(a, frames, observed, plan, records.value);
    ViewRecorded(a, observed, plan, ax, ay, records.value);
    var detection := ReviewPhase(ViewOf(a, observed, plan), records.value, DetectionPhase);
    var framing := ReviewPhase(ViewOf(a, observed, plan), records.value, FramingPhase);
    return Success((detection, framing)), observed, plan;
  }

  lemma Counted(a: CropPath.Analysis, frames: seq<DecodedFrame>, observations: seq<Observation>)
    requires CropPath.ValidAnalysis(a) && CropPath.Decodable(a, frames) && CropPath.TrackedVideo(a, frames, observations)
    ensures |observations| == |frames|
  {
  }

  method ReviewPhase(ghost v: View, records: seq<TraceRecord>, phase: Phase) returns (shown: seq<Warning>)
    requires ValidView(v) && RecordsView(v, records) && Ordered(records)
    ensures ShownView(v, phase, shown)
  {
    hide ValidView, RecordsView, Exact, ExactView, Sorted, Truncates;
    shown := ReviewWarnings(records, phase);
    ghost var all :| Truncates(all, shown) && Exact(records, phase, all) && Sorted(all);
    ExactMeans(v, records, phase, all);
  }
}
