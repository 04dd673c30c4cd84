/**
 The six lexicographic passes of one axis over an arbitrary solver: what is asked, how each
 answer is repaired into the legal intervals, and when it is accepted.
 */
module AxisSolver {
  import opened Prelude
  import opened AxisProgram
  import opened FramingCosts

  const TOLERANCE := 0.00000001
  const DEAD_ZONE_FRACTION := 0.05
  const PASSES: nat := 6

  /** Pixel origins and normalized centers an unchanged crop extent may take. */
  datatype Interval = Interval(originLower: real, originUpper: real, centerLower: real, centerUpper: real)

  /** One axis of a seeded shot: source extent, crop extents and seed origins in pixels, legal
      intervals, and the seconds between frames. */
  datatype Axis = Axis(source: real, extents: seq<real>, origins: seq<real>, legal: seq<Interval>, intervals: seq<real>) {
    function Count(): nat { |extents| }
  }

  function CenterOf(source: real, extent: real, origin: real): real
    requires source != 0.0
  {
    (origin + extent / 2.0) / source
  }

  function OriginOf(source: real, extent: real, center: real): real {
    center * source - extent / 2.0
  }

  lemma CentersAndOrigins(source: real, extent: real, origin: real, center: real)
    requires source > 0.0
    ensures OriginOf(source, extent, CenterOf(source, extent, origin)) == origin
    ensures CenterOf(source, extent, OriginOf(source, extent, center)) == center
    ensures origin <= OriginOf(source, extent, center) <==> CenterOf(source, extent, origin) <= center
    ensures OriginOf(source, extent, center) <= origin <==> center <= CenterOf(source, extent, origin)
  {
    var d := origin + extent / 2.0;
    assert source * (d / source) == d;
  }

  ghost predicate ValidInterval(a: Axis, i: nat)
    requires a.source > 0.0 && i < |a.legal| && i < |a.extents|
  {
    var l := a.legal[i];
    && l.originLower <= l.originUpper
    && l.centerLower == CenterOf(a.source, a.extents[i], l.originLower)
    && l.centerUpper == CenterOf(a.source, a.extents[i], l.originUpper)
  }

  ghost predicate ValidAxis(a: Axis) {
    && a.source > 0.0 && a.Count() >= 1
    && |a.origins| == |a.legal| == a.Count() && |a.intervals| == a.Count() - 1
    && (forall i :: 0 <= i < |a.intervals| ==> a.intervals[i] > 0.0)
    && (forall i :: 0 <= i < a.Count() ==> a.extents[i] >= 0.0)
    && (forall i: nat :: i < a.Count() ==> ValidInterval(a, i))
  }

  function CentersOf(a: Axis, origins: seq<real>): seq<real>
    requires a.source != 0.0 && |origins| == a.Count()
  {
    seq(a.Count(), i requires 0 <= i < a.Count() => CenterOf(a.source, a.extents[i], origins[i]))
  }

  /** The radius of a frame's deadzone. */
  function Radius(a: Axis, i: nat): real
    requires a.source != 0.0 && i < a.Count()
  {
    DEAD_ZONE_FRACTION * a.extents[i] / a.source
  }

  lemma RadiusNonNegative(a: Axis, i: nat)
    requires a.source > 0.0 && i < a.Count() && a.extents[i] >= 0.0
    ensures Radius(a, i) >= 0.0
  {
    NonNegative(DEAD_ZONE_FRACTION, a.extents[i], DEAD_ZONE_FRACTION * a.extents[i]);
  }

  /** The data of the axis's linear program. */
  function ShotOf(a: Axis): (s: Shot)
    requires ValidAxis(a) && a.Count() >= 2
    ensures ValidShot(s) && s.Count() == a.Count()
  {
    var radii := seq(a.Count(), i requires 0 <= i < a.Count() => Radius(a, i));
    assert forall i :: 0 <= i < |radii| ==> radii[i] >= 0.0 by {
      forall i: nat | i < |radii| ensures radii[i] >= 0.0 {
        RadiusNonNegative(a, i);
      }
    }
    Shot(a.intervals, CentersOf(a, a.origins), radii)
  }

  /* Programs. */

  datatype Bound = Bound(lower: real, upper: Option<real>)

  datatype Program = Program(rows: seq<Row>, bounds: seq<Bound>)

  predicate InBound(b: Bound, value: real, tolerance: real) {
    && b.lower - tolerance <= value
    && (b.upper.Some? ==> value <= b.upper.value + tolerance)
  }

  predicate InBounds(bounds: seq<Bound>, x: seq<real>, tolerance: real)
    requires |bounds| == |x|
  {
    forall j :: 0 <= j < |x| ==> InBound(bounds[j], x[j], tolerance)
  }

  function InitialProgram(a: Axis): Program
    requires ValidAxis(a) && a.Count() >= 2
  {
    var n := a.Count();
    Program(AllRows(ShotOf(a)),
            seq(Columns(n), j requires 0 <= j < Columns(n) =>
              if j < n then Bound(a.legal[j].centerLower, Some(a.legal[j].centerUpper)) else Bound(0.0, None)))
  }

  function Locked(optimum: real): real {
    Max(0.0, optimum) + TOLERANCE
  }

  /** The program of the next pass, with the optimum of this one locked. */
  function Tightened(a: Axis, p: Program, pass: nat, optimum: real): Program
    requires ValidAxis(a) && a.Count() >= 2 && |p.bounds| == Columns(a.Count()) && pass <= 5
  {
    var n := a.Count();
    if pass == 0 then p.(bounds := p.bounds[SpeedColumn(n) := Bound(0.0, Some(Locked(optimum)))])
    else if pass == 1 then p.(bounds := p.bounds[AccelerationColumn(n) := Bound(0.0, Some(Locked(optimum)))])
    else if pass < 5 then p.(rows := p.rows + [Row(Objective(ShotOf(a), pass), Locked(optimum))])
    else p
  }

  /** The program after the given optima have been locked. */
  function ProgramAt(a: Axis, optima: seq<real>): (p: Program)
    requires ValidAxis(a) && a.Count() >= 2 && |optima| <= 6
    ensures |p.bounds| == Columns(a.Count())
  {
    if optima == [] then InitialProgram(a)
    else
      var k := |optima| - 1;
      Tightened(a, ProgramAt(a, optima[..k]), k, optima[k])
  }

  lemma {:induction false} ProgramWithin(a: Axis, optima: seq<real>)
    requires ValidAxis(a) && a.Count() >= 2 && |optima| <= 6
    ensures RowsWithin(ProgramAt(a, optima).rows, Columns(a.Count()))
  {
    var s := ShotOf(a);
    hide AllRows, Objective;
    var x := seq(Columns(a.Count()), _ => 0.0);
    if optima == [] {
      RowsMean(s, x, 0.0);
    } else {
      var k := |optima| - 1;
      ProgramWithin(a, optima[..k]);
      if 2 <= k < 5 {
        ObjectiveMeans(s, x, k);
      }
    }
  }

  /* Answers. */

  /** What an invocation of the solver gives: an exception, or a result whose vector and
      optimum nothing is assumed about. */
  datatype Answer = Raised | Finished(optimal: bool, solution: seq<real>, optimum: real)

  datatype PlannerError =
    | SolverRaised | NotOptimal | InconsistentAnswer | CenterOutsideInterval
    | ConstraintViolated | BoundViolated | SpeedEnvelope | AccelerationEnvelope
    | Timestamps | InvalidGeometry | InvalidDetector | CannotFit | EmptyInterval | NotContained

  /** A repaired answer: pixel origins and the vector with its centers overwritten by theirs. */
  datatype Repair = Repair(origins: seq<real>, vector: seq<real>)

  predicate NearInterval(l: Interval, center: real) {
    l.centerLower - TOLERANCE <= center <= l.centerUpper + TOLERANCE
  }

  predicate Repairable(a: Axis, centers: seq<real>)
    requires |centers| == |a.legal|
  {
    forall i :: 0 <= i < |centers| ==> NearInterval(a.legal[i], centers[i])
  }

  function ClampedOrigin(a: Axis, i: nat, center: real): real
    requires i < |a.legal| && i < |a.extents|
  {
    Min(Max(OriginOf(a.source, a.extents[i], center), a.legal[i].originLower), a.legal[i].originUpper)
  }

  function RepairedOrigins(a: Axis, centers: seq<real>): seq<real>
    requires |centers| == |a.legal| == a.Count()
  {
    seq(a.Count(), i requires 0 <= i < a.Count() => ClampedOrigin(a, i, centers[i]))
  }

  function RepairOf(a: Axis, solution: seq<real>): Repair
    requires ValidAxis(a) && |solution| >= a.Count()
  {
    var origins := RepairedOrigins(a, solution[..a.Count()]);
    Repair(origins, CentersOf(a, origins) + solution[a.Count()..])
  }

  predicate SpeedsWithin(a: Axis, centers: seq<real>, excess: real)
    requires ValidAxis(a) && a.Count() >= 2 && |centers| == a.Count()
  {
    forall i: nat :: i < |a.intervals| ==>
      Abs(Velocity(a.intervals, centers, i)) <= PAN_MAX_SPEED + excess + TOLERANCE
  }

  /** The accelerations the motion check computes: both rests first, then between intervals. */
  function CheckedAccelerations(intervals: seq<real>, c: seq<real>): seq<real>
    requires PathOf(intervals, c) && |intervals| > 0
  {
    var last := |intervals| - 1;
    [2.0 * Velocity(intervals, c, 0) / intervals[0], -2.0 * Velocity(intervals, c, last) / intervals[last]]
    + seq(last, i requires 0 <= i < last =>
        2.0 * (Velocity(intervals, c, i + 1) - Velocity(intervals, c, i)) / (intervals[i + 1] + intervals[i]))
  }

  /** The position of transition `k` in the checked order. */
  function CheckedPosition(intervals: seq<real>, k: nat): nat {
    if k == 0 then 0 else if k == |intervals| then 1 else k + 1
  }

  /** Transition by transition, the motion check computes the accelerations of the rows. */
  lemma CheckedAgrees(intervals: seq<real>, c: seq<real>, k: nat)
    requires PathOf(intervals, c) && |intervals| > 0 && k <= |intervals|
    ensures |CheckedAccelerations(intervals, c)| == |intervals| + 1
    ensures CheckedPosition(intervals, k) <= |intervals|
    ensures CheckedAccelerations(intervals, c)[CheckedPosition(intervals, k)] == Acceleration(intervals, c, k)
  {
    hide Velocity;
    SpanPositive(intervals, c, k);
    Halved(VelocityChange(intervals, c, k), Span(intervals, k));
  }

  lemma Halved(v: real, span: real)
    requires span > 0.0
    ensures v / span == 2.0 * v / (2.0 * span)
  {
  }

  predicate AccelerationsWithin(a: Axis, centers: seq<real>, excess: real)
    requires ValidAxis(a) && a.Count() >= 2 && |centers| == a.Count()
  {
    forall v :: v in CheckedAccelerations(a.intervals, centers) ==>
      Abs(v) <= PAN_MAX_ACCELERATION + excess + TOLERANCE
  }

  /** The motion check bounds exactly the accelerations of the rows. */
  lemma AccelerationsWithinMeans(a: Axis, centers: seq<real>, excess: real)
    requires ValidAxis(a) && a.Count() >= 2 && |centers| == a.Count()
    ensures AccelerationsWithin(a, centers, excess)
       <==> forall k: nat :: k < a.Count() ==>
              Abs(Acceleration(a.intervals, centers, k)) <= PAN_MAX_ACCELERATION + excess + TOLERANCE
  {
    hide Acceleration, CheckedAccelerations, Velocity;
    var v, n, limit := CheckedAccelerations(a.intervals, centers), a.Count(), PAN_MAX_ACCELERATION + excess + TOLERANCE;
    CheckedAgrees(a.intervals, centers, 0);
    if AccelerationsWithin(a, centers, excess) {
      forall k: nat | k < n ensures Abs(Acceleration(a.intervals, centers, k)) <= limit {
        CheckedAgrees(a.intervals, centers, k);
      }
    }
    if forall k: nat :: k < n ==> Abs(Acceleration(a.intervals, centers, k)) <= limit {
      forall p: nat | p < n ensures Abs(v[p]) <= limit {
        CheckedAgrees(a.intervals, centers, if p == 0 then 0 else if p == 1 then n - 1 else p - 1);
      }
    }
  }

  /** The checks of one pass, in order. */
  function Checked(a: Axis, p: Program, pass: nat, answer: Answer): Result<Repair, PlannerError>
    requires ValidAxis(a) && a.Count() >= 2 && |p.bounds| == Columns(a.Count()) && pass <= 5
    requires RowsWithin(p.rows, Columns(a.Count()))
  {
    var s, n := ShotOf(a), a.Count();
    match answer
    case Raised => Failure(SolverRaised)
    case Finished(optimal, solution, optimum) =>
      if !optimal then Failure(NotOptimal)
      else if |solution| != Columns(n) then Failure(InconsistentAnswer)
      else
        ObjectiveMeans(s, solution, pass);
        if Abs(Dot(Objective(s, pass), solution) - optimum) > TOLERANCE then Failure(InconsistentAnswer)
        else if !Repairable(a, solution[..n]) then Failure(CenterOutsideInterval)
        else
          var r := RepairOf(a, solution);
          var x := r.vector;
          if !Satisfies(p.rows, x, TOLERANCE) then Failure(ConstraintViolated)
          else if !InBounds(p.bounds, x, TOLERANCE) then Failure(BoundViolated)
          else if !SpeedsWithin(a, x[..n], Max(0.0, x[SpeedColumn(n)])) then Failure(SpeedEnvelope)
          else if !AccelerationsWithin(a, x[..n], Max(0.0, x[AccelerationColumn(n)])) then Failure(AccelerationEnvelope)
          else Success(r)
  }

  function OptimumOf(answer: Answer): real {
    match answer case Raised => 0.0 case Finished(_, _, optimum) => optimum
  }

  function Optima(answers: seq<Answer>, k: nat): seq<real>
    requires k <= |answers|
  {
    seq(k, i requires 0 <= i < k => OptimumOf(answers[i]))
  }

  /** The outcome of the first `k` passes. */
  function Solved(a: Axis, answers: seq<Answer>, k: nat): Result<Repair, PlannerError>
    requires ValidAxis(a) && a.Count() >= 2 && 1 <= k <= PASSES && k <= |answers|
  {
    ProgramWithin(a, Optima(answers, k - 1));
    var here := Checked(a, ProgramAt(a, Optima(answers, k - 1)), k - 1, answers[k - 1]);
    if k == 1 then here
    else
      match Solved(a, answers, k - 1)
      case Failure(e) => Failure(e)
      case Success(_) => here
  }
}
