/**
 The evidence pipeline over a whole video: which frames are sampled, the two association
 passes outwards from the selected frame, and the measurements held between samples.
 */
module Tracking {
  import opened Prelude
  import opened Geometry
  import opened Motion
  import opened Association
  import opened FrameClock
  import SeedPlanner
  import SeedRun

  /* ---------------------------------------------------------------------------------------
     Sampling.
     --------------------------------------------------------------------------------------- */

  /** The sampling step, in lowest terms: samples per second over frames per second. */
  datatype SampleStep = SampleStep(numerator: nat, denominator: nat)

  ghost predicate ValidStep(s: SampleStep) {
    s.denominator > 0
  }

  function Ticks(s: SampleStep, index: nat): nat
    requires ValidStep(s)
  {
    index * s.numerator / s.denominator
  }

  /** A frame of the regular grid. */
  predicate OnGrid(s: SampleStep, index: nat)
    requires ValidStep(s)
  {
    s.numerator == 0 || s.numerator >= s.denominator || index == 0 || Ticks(s, index) > Ticks(s, index - 1)
  }

  /** The selected frame is an extra sample. */
  predicate Sampled(s: SampleStep, selected: nat, index: nat)
    requires ValidStep(s)
  {
    OnGrid(s, index) || index == selected
  }

  /** The first frame is always a sample, and every frame is one when no rate is asked for or one
      at least the video's. */
  lemma EveryFrame(s: SampleStep, selected: nat, index: nat)
    requires ValidStep(s)
    ensures Sampled(s, selected, 0) && Sampled(s, selected, selected)
    ensures s.numerator == 0 || s.numerator >= s.denominator ==> Sampled(s, selected, index)
  {
  }

  datatype FrameError = InconsistentFrames

  /** A decoded frame and what the detector would find in it. */
  datatype DecodedFrame = DecodedFrame(index: nat, timestamp: int, found: seq<Detection>)

  ghost predicate Aligned(rate: real, expected: int, frames: seq<DecodedFrame>)
    requires rate != 0.0
  {
    |frames| == expected
    && forall i :: 0 <= i < |frames| ==> frames[i].index == i && frames[i].timestamp == Timestamp(rate, i)
  }

  /** The sampling loop: detections of the sampled frames, None for the others; any frame out
      of order, misdated, missing or beyond the expected count is an error. */
  method SampleFrames(rate: real, expected: int, step: SampleStep, selected: nat, frames: seq<DecodedFrame>)
    returns (r: Result<seq<Option<seq<Detection>>>, FrameError>)
    requires rate > 0.0 && ValidStep(step)
    ensures r.Success? <==> Aligned(rate, expected, frames)
    ensures r.Success? ==>
              && |r.value| == |frames|
              && forall i :: 0 <= i < |frames| ==>
                   r.value[i] == if Sampled(step, selected, i) then Some(frames[i].found) else None
  {
    hide Timestamp, OnGrid;
    var detections := [];
    for i := 0 to |frames|
      invariant |detections| == i && (i > 0 ==> i <= expected)
      invariant forall j :: 0 <= j < i ==>
        && frames[j].index == j && frames[j].timestamp == Timestamp(rate, j)
        && detections[j] == if Sampled(step, selected, j) then Some(frames[j].found) else None
    {
      var frame := frames[i];
      if i >= expected || frame.index != i || frame.timestamp != Timestamp(rate, i) {
        return Failure(InconsistentFrames);
      }
      var sampled := OnGrid(step, i) || i == selected;
      detections := detections + [if sampled then Some(frame.found) else None];
    }
    if |detections| != expected {
      return Failure(InconsistentFrames);
    }
    return Success(detections);
  }

  /** How many frames among the first `n` are on the grid. */
  function GridCount(s: SampleStep, n: nat): nat
    requires ValidStep(s)
  {
    if n == 0 then 0 else GridCount(s, n - 1) + if OnGrid(s, n - 1) then 1 else 0
  }

  lemma QuotientStep(a: nat, b: nat, d: nat)
    requires d > 0 && b <= d
    ensures a / d <= (a + b) / d <= a / d + 1
  {
    var q := a / d;
    assert a == q * d + a % d;
    QuotientIs(a + b, d, if a % d + b < d then q else q + 1, if a % d + b < d then a % d + b else a % d + b - d);
  }

  lemma QuotientIs(a: nat, d: nat, q: nat, r: nat)
    requires d > 0 && a == q * d + r && r < d
    ensures a / d == q
  {
    var p := a / d;
    assert a == p * d + a % d;
    assert q * d == p * d + (q - p) * d && p * d == q * d + (p - q) * d;
    if p < q {
      ProductAtLeast(q - p, d);
    } else if p > q {
      ProductAtLeast(p - q, d);
    }
  }

  lemma ProductAtLeast(k: int, d: nat)
    requires k >= 1
    ensures k * d >= d
  {
    if k > 1 {
      ProductAtLeast(k - 1, d);
      assert k * d == (k - 1) * d + d;
    }
  }

  /** A fractional step ticks at most once per frame. */
  lemma TickStep(s: SampleStep, index: nat)
    requires ValidStep(s) && s.numerator < s.denominator
    ensures Ticks(s, index) <= Ticks(s, index + 1) <= Ticks(s, index) + 1
  {
    assert (index + 1) * s.numerator == index * s.numerator + s.numerator;
    QuotientStep(index * s.numerator, s.numerator, s.denominator);
  }

  /** For a fractional step, the grid samples among frames 0 to k number exactly
      1 + floor(k n / d). */
  lemma {:induction false} GridCountExact(s: SampleStep, k: nat)
    requires ValidStep(s) && 0 < s.numerator < s.denominator
    ensures GridCount(s, k + 1) == 1 + Ticks(s, k)
  {
    if k == 0 {
      assert GridCount(s, 1) == GridCount(s, 0) + 1;
      assert 0 * s.numerator == 0;
    } else {
      hide Ticks;
      GridCountExact(s, k - 1);
      TickStep(s, k - 1);
    }
  }

  /** The frames a sample is never further apart than. */
  function Window(s: SampleStep): nat
    requires s.numerator > 0
  {
    (s.denominator + s.numerator - 1) / s.numerator
  }

  lemma {:induction false} NoGridNoTicks(s: SampleStep, start: nat, w: nat)
    requires ValidStep(s) && 0 < s.numerator < s.denominator && start > 0
    requires forall i: nat :: start <= i < start + w ==> !OnGrid(s, i)
    ensures Ticks(s, start + w - 1) == Ticks(s, start - 1)
  {
    if w > 0 {
      hide Ticks;
      NoGridNoTicks(s, start, w - 1);
      TickStep(s, start + w - 2);
      assert !OnGrid(s, start + w - 1);
    }
  }

  lemma WindowTicks(s: SampleStep, start: nat)
    requires ValidStep(s) && 0 < s.numerator < s.denominator && start > 0
    ensures Ticks(s, start + Window(s) - 1) > Ticks(s, start - 1)
  {
    var n, d, w := s.numerator, s.denominator, Window(s);
    var top := d + n - 1;
    assert top == w * n + top % n;
    var a := (start - 1) * n;
    assert (start + w - 1) * n == a + w * n;
    var q := a / d;
    assert a == q * d + a % d;
    AtLeastQuotient(a + w * n, d, q + 1);
  }

  lemma AtLeastQuotient(a: nat, d: nat, q: nat)
    requires d > 0 && a >= q * d
    ensures a / d >= q
  {
    var p := a / d;
    assert a == p * d + a % d;
    assert q * d == p * d + (q - p) * d;
    if p < q {
      ProductAtLeast(q - p, d);
    }
  }

  /** Every window of ceil(d / n) consecutive frames holds a grid sample, for every step. */
  lemma WindowSampled(s: SampleStep, start: nat)
    requires ValidStep(s) && s.numerator > 0
    ensures Window(s) >= 1
    ensures exists i: nat :: start <= i < start + Window(s) && OnGrid(s, i)
  {
    AtLeastQuotient(s.denominator + s.numerator - 1, s.numerator, 1);
    if start == 0 || s.numerator >= s.denominator {
      assert OnGrid(s, start);
    } else if forall i: nat :: start <= i < start + Window(s) ==> !OnGrid(s, i) {
      hide Ticks, Window;
      NoGridNoTicks(s, start, Window(s));
      WindowTicks(s, start);
      assert false;
    }
  }

  /* ---------------------------------------------------------------------------------------
     Association passes.
     --------------------------------------------------------------------------------------- */

  /** What both passes read: the sampled detections, the timestamps, and the selected frame with
      its box. */
  datatype Footage = Footage(
    root: Root, detections: seq<Option<seq<Detection>>>, timestamps: seq<int>, selected: nat, box: Rect, capture: bool)

  ghost predicate ValidFootage(f: Footage) {
    && IsSqrt(f.root) && |f.timestamps| == |f.detections| && f.selected < |f.detections|
    && forall i :: 0 <= i < |f.timestamps| ==> f.timestamps[i] >= 0
  }

  /** The frame `k` steps from the selected one. */
  function At(f: Footage, direction: int, k: nat): int {
    if direction == 1 then f.selected + k else f.selected - k
  }

  /** How many steps a pass takes to a frame; negative or zero for frames it does not reach. */
  function Steps(f: Footage, direction: int, i: int): int {
    if direction == 1 then i - f.selected else f.selected - i
  }

  predicate InVideo(f: Footage, i: int) {
    0 <= i < |f.detections|
  }

  ghost predicate ValidDirection(direction: int) {
    direction == 1 || direction == -1
  }

  function Skipped(f: Footage, i: nat): Observation
    requires i < |f.timestamps|
  {
    Observation(i, f.timestamps[i], None, DetectionSkipped, None)
  }

  /** The reference box after `k` frames of a pass: the last accepted one. */
  function Reference(f: Footage, direction: int, k: nat): Rect
    requires ValidFootage(f) && ValidDirection(direction) && InVideo(f, At(f, direction, k))
    decreases k, 1
  {
    if k == 0 then f.box
    else
      var o := Observed(f, direction, k);
      if o.detection.Some? then o.detection.value.bounds else Reference(f, direction, k - 1)
  }

  /** What the pass observes in its `k`-th frame. */
  function Observed(f: Footage, direction: int, k: nat): Observation
    requires ValidFootage(f) && ValidDirection(direction) && k > 0 && InVideo(f, At(f, direction, k))
    decreases k, 0
  {
    assert InVideo(f, At(f, direction, k - 1));
    var i := At(f, direction, k);
    match f.detections[i]
    case None => Skipped(f, i)
    case Some(ds) => Associate(f.root, ds, i, f.timestamps[i], Reference(f, direction, k - 1), f.capture)
  }

  /** `_associate_from_selected`: overwrites the observations of the sampled frames on one side
      of the selected frame, and nothing else. */
  method AssociateFromSelected(f: Footage, observations: array<Observation>, direction: int)
    requires ValidFootage(f) && ValidDirection(direction) && observations.Length == |f.detections|
    requires observations[f.selected].detection.Some? && observations[f.selected].detection.value.bounds == f.box
    modifies observations
    ensures forall k: nat :: k > 0 && InVideo(f, At(f, direction, k)) ==>
              observations[At(f, direction, k)]
              == if f.detections[At(f, direction, k)].Some? then Observed(f, direction, k)
                 else old(observations[At(f, direction, k)])
    ensures forall i :: 0 <= i < observations.Length && Steps(f, direction, i) <= 0 ==>
              observations[i] == old(observations[i])
  {
    hide Associate;
    var referenceBounds := observations[f.selected].detection.value.bounds;
    var index, k := f.selected + direction, 1;
    while InVideo(f, index)
      invariant k > 0 && index == At(f, direction, k) && (InVideo(f, index) || InVideo(f, At(f, direction, k - 1)))
      invariant InVideo(f, At(f, direction, k - 1)) && referenceBounds == Reference(f, direction, k - 1)
      invariant forall j: nat :: 0 < j < k && InVideo(f, At(f, direction, j)) ==>
        observations[At(f, direction, j)]
        == if f.detections[At(f, direction, j)].Some? then Observed(f, direction, j)
           else old(observations[At(f, direction, j)])
      invariant forall i :: 0 <= i < observations.Length && !(0 < Steps(f, direction, i) < k) ==>
        observations[i] == old(observations[i])
      decreases if direction == 1 then |f.detections| - index else index + 1
    {
      if f.detections[index].Some? {
        var o := Associate(f.root, f.detections[index].value, index, f.timestamps[index], referenceBounds, f.capture);
        observations[index] := o;
        if o.detection.Some? {
          referenceBounds := o.detection.value.bounds;
        }
      }
      index, k := index + direction, k + 1;
    }
  }

  /** Where a pass's reference comes from: the last accepted frame on its way. */
  lemma {:induction false} ReferenceMeans(f: Footage, direction: int, k: nat) returns (j: nat)
    requires ValidFootage(f) && ValidDirection(direction) && InVideo(f, At(f, direction, k))
    ensures j <= k && InVideo(f, At(f, direction, j))
    ensures j == 0 ==> Reference(f, direction, k) == f.box
    ensures j > 0 ==>
              && Observed(f, direction, j).detection.Some?
              && Observed(f, direction, j).detection.value.bounds == Reference(f, direction, k)
    ensures forall m: nat :: j < m <= k ==> InVideo(f, At(f, direction, m)) && Observed(f, direction, m).detection.None?
  {
    hide Associate;
    if k == 0 || Observed(f, direction, k).detection.Some? {
      j := k;
    } else {
      assert InVideo(f, At(f, direction, k - 1));
      j := ReferenceMeans(f, direction, k - 1);
    }
  }

  /** Frame `p` is strictly between frame `i` and the selected one, or is the selected one. */
  predicate Towards(selected: int, i: int, p: int) {
    selected <= p < i || i < p <= selected
  }

  predicate Between(p: int, q: int, i: int) {
    p < q < i || i < q < p
  }

  /** Frame `i` was decided against frame `p`: the next accepted frame towards the selection. A
      box is accepted only within the gate of that one, as the best there; and a sampled frame is
      a miss only when it has no box there. */
  ghost predicate DecidedAgainst(f: Footage, observations: seq<Observation>, i: nat, p: nat)
    requires |observations| == |f.detections| && i < |observations| && f.detections[i].Some?
  {
    && p < |observations| && Towards(f.selected, i, p) && observations[p].detection.Some?
    && (forall q: nat :: q < |observations| && Between(p, q, i) ==> observations[q].detection.None?)
    && var reference := observations[p].detection.value.bounds;
       match observations[i].detection
       case None => forall d :: d in f.detections[i].value ==> !WithinGate(f.root, d.bounds, reference)
       case Some(d) => BestWithinGate(f.root, f.detections[i].value, reference, d)
  }

  /** The observations of a whole video. */
  ghost predicate Tracked(f: Footage, observations: seq<Observation>) {
    && |observations| == |f.detections| == |f.timestamps| && f.selected < |observations|
    && observations[f.selected].detection.Some? && observations[f.selected].detection.value.bounds == f.box
    && (forall i :: 0 <= i < |observations| ==>
          && SoundObservation(observations[i]) && observations[i].timestamp == f.timestamps[i]
          && (observations[i].outcome != DetectionSkipped <==> f.detections[i].Some?))
    && (forall i: nat :: i < |observations| && i != f.selected && f.detections[i].Some? ==>
          exists p: nat :: DecidedAgainst(f, observations, i, p))
  }

  /** What both passes leave in one frame. */
  ghost predicate Passed(f: Footage, observations: seq<Observation>, direction: int)
    requires ValidFootage(f) && ValidDirection(direction) && |observations| == |f.detections|
  {
    forall k: nat :: k > 0 && InVideo(f, At(f, direction, k)) ==>
      observations[At(f, direction, k)] == Observed(f, direction, k)
  }

  lemma SideDecided(f: Footage, observations: seq<Observation>, direction: int, k: nat)
    requires ValidFootage(f) && ValidDirection(direction) && |observations| == |f.detections|
    requires Passed(f, observations, direction) && k > 0 && InVideo(f, At(f, direction, k))
    requires observations[f.selected].detection.Some? && observations[f.selected].detection.value.bounds == f.box
    ensures var i: nat := At(f, direction, k);
            && SoundObservation(observations[i]) && observations[i].timestamp == f.timestamps[i]
            && (observations[i].outcome != DetectionSkipped <==> f.detections[i].Some?)
            && (f.detections[i].Some? ==> exists p: nat :: DecidedAgainst(f, observations, i, p))
  {
    hide Associate, BestWithinGate, WithinGate;
    var i: nat := At(f, direction, k);
    assert observations[i] == Observed(f, direction, k);
    if f.detections[i].Some? {
      assert InVideo(f, At(f, direction, k - 1));
      var reference := Reference(f, direction, k - 1);
      AssociateMeans(f.root, f.detections[i].value, i, f.timestamps[i], reference, f.capture);
      var j := ReferenceMeans(f, direction, k - 1);
      var p: nat := At(f, direction, j);
      assert j > 0 ==> observations[p] == Observed(f, direction, j);
      forall q: nat | q < |observations| && Between(p, q, i) ensures observations[q].detection.None? {
        var m: nat := Steps(f, direction, q);
        assert q == At(f, direction, m);
        assert observations[q] == Observed(f, direction, m);
      }
      assert DecidedAgainst(f, observations, i, p);
    }
  }

  lemma BothDecided(f: Footage, observations: seq<Observation>)
    requires ValidFootage(f) && |observations| == |f.detections| && f.detections[f.selected].Some?
    requires Passed(f, observations, 1) && Passed(f, observations, -1)
    requires SoundObservation(observations[f.selected]) && observations[f.selected].outcome != DetectionSkipped
    requires observations[f.selected].timestamp == f.timestamps[f.selected]
    requires observations[f.selected].detection.Some? && observations[f.selected].detection.value.bounds == f.box
    ensures Tracked(f, observations)
  {
    hide Passed, SoundObservation, DecidedAgainst;
    forall i: nat | i < |observations| && i != f.selected
      ensures SoundObservation(observations[i]) && observations[i].timestamp == f.timestamps[i]
      ensures observations[i].outcome != DetectionSkipped <==> f.detections[i].Some?
      ensures f.detections[i].Some? ==> exists p: nat :: DecidedAgainst(f, observations, i, p)
    {
      if i > f.selected {
        assert i == At(f, 1, i - f.selected);
        SideDecided(f, observations, 1, i - f.selected);
      } else {
        assert i == At(f, -1, f.selected - i);
        SideDecided(f, observations, -1, f.selected - i);
      }
    }
  }

  /** The tapped detection is sound, contains the tap whenever a detection does, and is then the
      nearest to it. */
  lemma TappedMeans(root: Root, ds: seq<Detection>, frame: nat, timestamp: int, tap: Point, capture: bool)
    requires IsSqrt(root) && timestamp >= 0
    ensures SelectTapped(root, ds, frame, timestamp, tap, capture).Success? <==> ds != []
    ensures ds != [] ==>
              var o := SelectTapped(root, ds, frame, timestamp, tap, capture).value;
              && SoundObservation(o) && o.outcome != DetectionSkipped && o.detection == Some(ds[Select(ds, tap)])
              && o.timestamp == timestamp
              && (o.outcome == SelectedContainingTap <==> exists d :: d in ds && ContainsPoint(d.bounds, tap))
  {
    hide EvidenceOf, ContainsPoint, Select, SoundEvidence, DistanceSquared;
    if ds != [] {
      var i := Select(ds, tap);
      SelectMeans(ds, tap);
      EvidenceSound(root, ds, tap,
                    if ContainsPoint(ds[i].bounds, tap) then SelectedContainingTap else SelectedNearestTap, Some(i));
    }
  }

  /** Selection and both passes over one array of observations. */
  method TrackTarget(root: Root, detections: seq<Option<seq<Detection>>>, timestamps: seq<int>, selected: nat, tap: Point,
                     capture: bool)
    returns (r: Result<seq<Observation>, AnalysisError>)
    requires IsSqrt(root) && |timestamps| == |detections| && selected < |detections| && detections[selected].Some?
    requires forall i :: 0 <= i < |timestamps| ==> timestamps[i] >= 0
    ensures r.Success? <==> detections[selected].value != []
    ensures r.Success? ==>
              && |r.value| == |detections|
              && Success(r.value[selected])
                 == SelectTapped(root, detections[selected].value, selected, timestamps[selected], tap, capture)
              && r.value[selected].detection.Some?
              && Tracked(Footage(root, detections, timestamps, selected, r.value[selected].detection.value.bounds, capture),
                         r.value)
  {
    hide SelectTapped, Tracked, Associate, SoundObservation;
    TappedMeans(root, detections[selected].value, selected, timestamps[selected], tap, capture);
    var observations := new Observation[|detections|](i requires 0 <= i < |timestamps| =>
      Observation(i, timestamps[i], None, DetectionSkipped, None));
    var tapped := SelectTapped(root, detections[selected].value, selected, timestamps[selected], tap, capture);
    if tapped.Failure? {
      return Failure(tapped.error);
    }
    observations[selected] := tapped.value;
    var f := Footage(root, detections, timestamps, selected, tapped.value.detection.value.bounds, capture);
    ghost var before := observations[..];
    AssociateFromSelected(f, observations, 1);
    ghost var between := observations[..];
    AssociateFromSelected(f, observations, -1);
    PassesMeet(f, before, between, observations[..]);
    BothDecided(f, observations[..]);
    return Success(observations[..]);
  }

  /** The two passes write disjoint sides, so together they leave both sides observed. */
  lemma PassesMeet(f: Footage, before: seq<Observation>, between: seq<Observation>, after: seq<Observation>)
    requires ValidFootage(f) && |before| == |between| == |after| == |f.detections|
    requires forall i: nat :: i < |before| && i != f.selected ==> before[i] == Skipped(f, i)
    requires forall k: nat :: k > 0 && InVideo(f, At(f, 1, k)) ==>
      between[At(f, 1, k)] == if f.detections[At(f, 1, k)].Some? then Observed(f, 1, k) else before[At(f, 1, k)]
    requires forall i :: 0 <= i < |before| && i <= f.selected ==> between[i] == before[i]
    requires forall k: nat :: k > 0 && InVideo(f, At(f, -1, k)) ==>
      after[At(f, -1, k)] == if f.detections[At(f, -1, k)].Some? then Observed(f, -1, k) else between[At(f, -1, k)]
    requires forall i :: 0 <= i < |before| && i >= f.selected ==> after[i] == between[i]
    ensures Passed(f, after, 1) && Passed(f, after, -1) && after[f.selected] == before[f.selected]
  {
    hide Associate;
  }

  /* ---------------------------------------------------------------------------------------
     Measurements.
     --------------------------------------------------------------------------------------- */

  /** The box held after `n` frames: that of the latest sample, absent after a sampled miss. */
  function Held(observations: seq<Observation>, n: nat): Option<Detection>
    requires n <= |observations|
  {
    if n == 0 then None
    else if observations[n - 1].outcome != DetectionSkipped then observations[n - 1].detection
    else Held(observations, n - 1)
  }

  predicate LatestSample(observations: seq<Observation>, j: nat, n: nat)
    requires j < n <= |observations|
  {
    && observations[j].outcome != DetectionSkipped
    && forall i: nat :: j < i < n ==> observations[i].outcome == DetectionSkipped
  }

  /** It is the detection of the latest sampled frame at or before, and no later frame has a
      part in it. */
  lemma {:induction false} HeldMeans(observations: seq<Observation>, n: nat)
    requires n <= |observations|
    ensures Held(observations[..n], n) == Held(observations, n)
    ensures (forall i: nat :: i < n ==> observations[i].outcome == DetectionSkipped) ==> Held(observations, n).None?
    ensures forall j: nat :: j < n && LatestSample(observations, j, n) ==>
              Held(observations, n) == observations[j].detection
    decreases n
  {
    if n > 0 {
      HeldMeans(observations, n - 1);
      HeldMeans(observations[..n], n - 1);
      assert observations[..n][..n - 1] == observations[..n - 1];
    }
  }

  function BoundsOf(d: Option<Detection>): Option<Rect> {
    if d.Some? then Some(d.value.bounds) else None
  }

  /** `_planner_measurements`. */
  method PlannerMeasurements(observations: seq<Observation>) returns (ms: seq<SeedPlanner.Measurement>)
    ensures |ms| == |observations|
    ensures forall i :: 0 <= i < |ms| ==>
              ms[i] == SeedPlanner.Measurement(BoundsOf(Held(observations, i + 1)), observations[i].timestamp,
                                               observations[i].outcome != DetectionSkipped)
  {
    ms := [];
    var held: Option<Detection> := None;
    for i := 0 to |observations|
      invariant |ms| == i && held == Held(observations, i)
      invariant forall j :: 0 <= j < i ==>
        ms[j] == SeedPlanner.Measurement(BoundsOf(Held(observations, j + 1)), observations[j].timestamp,
                                         observations[j].outcome != DetectionSkipped)
    {
      var o := observations[i];
      if o.outcome != DetectionSkipped {
        held := o.detection;
      }
      ms := ms + [SeedPlanner.Measurement(BoundsOf(held), o.timestamp, o.outcome != DetectionSkipped)];
    }
  }

  /** Measurements of a video of at most 1000 frames per second are what the planner asks for:
      increasing timestamps, and boxes inside the source when every detection is. */
  lemma {:induction false} MeasurementsPlannable(cam: SeedPlanner.Camera, rate: real, observations: seq<Observation>,
                              ms: seq<SeedPlanner.Measurement>)
    requires 0.0 < rate <= 1000.0 && |ms| == |observations|
    requires forall i: nat :: i < |observations| ==> observations[i].timestamp == Timestamp(rate, i)
    requires forall i: nat :: i < |observations| && observations[i].detection.Some? ==>
      InSource(observations[i].detection.value.bounds, cam.frame)
    requires forall i :: 0 <= i < |ms| ==>
      ms[i] == SeedPlanner.Measurement(BoundsOf(Held(observations, i + 1)), observations[i].timestamp,
                                       observations[i].outcome != DetectionSkipped)
    ensures SeedRun.IncreasingTimestamps(ms) && SeedRun.SourceBoxes(cam, ms)
  {
    hide Timestamp, InSource;
    forall i: nat | i < |ms|
      ensures 0 <= ms[i].timestamp && (i > 0 ==> ms[i - 1].timestamp < ms[i].timestamp)
      ensures ms[i].bounds.Some? ==> InSource(ms[i].bounds.value, cam.frame)
    {
      StrictlyIncreasing(rate, i);
      if i > 0 {
        StrictlyIncreasing(rate, i - 1);
      }
      HeldObserved(observations, i + 1);
    }
  }

  lemma {:induction false} HeldObserved(observations: seq<Observation>, n: nat)
    requires n <= |observations|
    ensures Held(observations, n).Some? ==>
              exists j: nat :: j < n && observations[j].detection == Held(observations, n)
  {
    if n > 0 && observations[n - 1].outcome == DetectionSkipped {
      HeldObserved(observations, n - 1);
    } else if n > 0 {
      assert observations[n - 1].detection == Held(observations, n);
    }
  }
}
