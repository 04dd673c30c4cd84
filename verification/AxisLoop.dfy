/**
 The loops of the axis solver: legal intervals, the in-place repair of an answer's centers,
 and the six passes with their growing program.
 */
module AxisLoop {
  import opened Prelude
  import opened Geometry
  import opened AxisProgram
  import opened FramingCosts
  import opened AxisSolver
  import opened AxisGuarantees

  /* ---------------------------------------------------------------------------------------
     Legal intervals.
     --------------------------------------------------------------------------------------- */

  function SourceExtent(f: Frame, horizontal: bool): real {
    if horizontal then f.width else f.height
  }

  function Extent(r: Rect, horizontal: bool): real {
    if horizontal then r.width else r.height
  }

  function Near(r: Rect, horizontal: bool): real {
    if horizontal then r.x else r.y
  }

  function Far(r: Rect, horizontal: bool): real {
    if horizontal then r.Right() else r.Bottom()
  }

  /** The origins that keep a crop in the source and, when one is given, around a box. */
  function LegalInterval(f: Frame, crop: Rect, box: Option<Rect>, horizontal: bool): Interval
    requires ValidFrame(f)
  {
    var source, extent := SourceExtent(f, horizontal), Extent(crop, horizontal);
    var lower := match box case None => 0.0 case Some(b) => Max(0.0, Far(b, horizontal) - extent);
    var upper := match box case None => source - extent case Some(b) => Min(source - extent, Near(b, horizontal));
    Interval(lower, upper, CenterOf(source, extent, lower), CenterOf(source, extent, upper))
  }

  predicate LegalOrigin(f: Frame, crop: Rect, box: Option<Rect>, horizontal: bool, origin: real) {
    && 0.0 <= origin && origin + Extent(crop, horizontal) <= SourceExtent(f, horizontal)
    && (box.Some? ==> origin <= Near(box.value, horizontal)
                      && Far(box.value, horizontal) <= origin + Extent(crop, horizontal))
  }

  /** The interval holds exactly the legal origins, and is not empty when the crop fits the
      source and an in-source box fits the crop. */
  lemma LegalIntervalMeans(f: Frame, crop: Rect, box: Option<Rect>, horizontal: bool, origin: real)
    requires ValidFrame(f)
    ensures var l := LegalInterval(f, crop, box, horizontal);
            && (l.originLower <= origin <= l.originUpper <==> LegalOrigin(f, crop, box, horizontal, origin))
            && (Extent(crop, horizontal) <= SourceExtent(f, horizontal)
                && (box.Some? ==> InSource(box.value, f) && Extent(box.value, horizontal) <= Extent(crop, horizontal))
                ==> l.originLower <= l.originUpper)
  {
    hide CenterOf;
  }

  ghost predicate Nonempty(l: Interval) {
    l.originLower <= l.originUpper
  }

  /** `_axis_intervals`. */
  method AxisIntervals(f: Frame, crops: seq<Rect>, boxes: seq<Option<Rect>>, horizontal: bool)
    returns (r: Result<seq<Interval>, PlannerError>)
    requires ValidFrame(f) && |crops| == |boxes|
    ensures r.Success? <==>
              forall i :: 0 <= i < |crops| ==> Nonempty(LegalInterval(f, crops[i], boxes[i], horizontal))
    ensures r.Success? ==>
              && |r.value| == |crops|
              && forall i :: 0 <= i < |crops| ==> r.value[i] == LegalInterval(f, crops[i], boxes[i], horizontal)
    ensures r.Failure? ==> r.error == EmptyInterval
  {
    hide LegalInterval;
    var result := [];
    for i := 0 to |crops|
      invariant |result| == i
      invariant forall j :: 0 <= j < i ==>
        result[j] == LegalInterval(f, crops[j], boxes[j], horizontal) && Nonempty(result[j])
    {
      var l := LegalInterval(f, crops[i], boxes[i], horizontal);
      if l.originLower > l.originUpper {
        assert !Nonempty(l);
        return Failure(EmptyInterval);
      }
      result := result + [l];
    }
    return Success(result);
  }

  /* ---------------------------------------------------------------------------------------
     Repair in place.
     --------------------------------------------------------------------------------------- */

  /** `_canonical_origins`: reads the leading centers of a solution and overwrites each one with
      the center of its repaired origin. */
  method CanonicalOrigins(a: Axis, solution: array<real>) returns (r: Result<seq<real>, PlannerError>)
    requires ValidAxis(a) && solution.Length >= a.Count()
    modifies solution
    ensures r.Success? <==> Repairable(a, old(solution[..a.Count()]))
    ensures r.Success? ==>
              && r.value == RepairOf(a, old(solution[..])).origins
              && solution[..] == RepairOf(a, old(solution[..])).vector
    ensures r.Failure? ==> r.error == CenterOutsideInterval
  {
    hide OriginOf, CenterOf;
    var n := a.Count();
    var origins := [];
    for i := 0 to n
      invariant |origins| == i
      invariant forall j :: 0 <= j < i ==> NearInterval(a.legal[j], old(solution[j]))
      invariant forall j: nat :: j < i ==>
        && origins[j] == ClampedOrigin(a, j, old(solution[j]))
        && solution[j] == CenterOf(a.source, a.extents[j], origins[j])
      invariant forall j :: i <= j < solution.Length ==> solution[j] == old(solution[j])
    {
      var center := solution[i];
      if !NearInterval(a.legal[i], center) {
        return Failure(CenterOutsideInterval);
      }
      var origin := Min(Max(OriginOf(a.source, a.extents[i], center), a.legal[i].originLower), a.legal[i].originUpper);
      origins := origins + [origin];
      solution[i] := CenterOf(a.source, a.extents[i], origin);
    }
    assert origins == RepairOf(a, old(solution[..])).origins;
    assert solution[..] == RepairOf(a, old(solution[..])).vector;
    return Success(origins);
  }

  /* ---------------------------------------------------------------------------------------
     The six passes.
     --------------------------------------------------------------------------------------- */

  lemma {:induction false} FailurePersists(a: Axis, answers: seq<Answer>, k: nat, m: nat)
    requires ValidAxis(a) && a.Count() >= 2 && 1 <= k <= m <= PASSES && m <= |answers|
    requires Solved(a, answers, k).Failure?
    ensures Solved(a, answers, m) == Solved(a, answers, k)
    decreases m
  {
    if k < m {
      FailurePersists(a, answers, k, m - 1);
    }
  }

  lemma OptimaStep(answers: seq<Answer>, k: nat)
    requires k < |answers|
    ensures Optima(answers, k + 1) == Optima(answers, k) + [OptimumOf(answers[k])]
    ensures Optima(answers, k + 1)[..k] == Optima(answers, k)
  {
  }

  /** One pass over an answer: consistency, repair, rows, bounds and motion. */
  method CheckAnswer(a: Axis, p: Program, pass: nat, answer: Answer) returns (r: Result<seq<real>, PlannerError>)
    requires ValidAxis(a) && a.Count() >= 2 && |p.bounds| == Columns(a.Count()) && pass <= 5
    requires RowsWithin(p.rows, Columns(a.Count()))
    ensures r == match Checked(a, p, pass, answer) case Failure(e) => Failure(e) case Success(x) => Success(x.origins)
  {
    hide RepairOf, Repairable, ShotOf, Satisfies, InBounds, SpeedsWithin, AccelerationsWithin, Objective, Dot;
    var s, n := ShotOf(a), a.Count();
    match answer
    case Raised => return Failure(SolverRaised);
    case Finished(optimal, x, optimum) =>
      if !optimal {
        return Failure(NotOptimal);
      }
      if |x| != Columns(n) {
        return Failure(InconsistentAnswer);
      }
      ObjectiveMeans(s, x, pass);
      if Abs(Dot(Objective(s, pass), x) - optimum) > TOLERANCE {
        return Failure(InconsistentAnswer);
      }
      var solution := new real[|x|](i requires 0 <= i < |x| => x[i]);
      assert solution[..] == x && solution[..n] == x[..n];
      var origins := CanonicalOrigins(a, solution);
      if origins.Failure? {
        return Failure(origins.error);
      }
      if !Satisfies(p.rows, solution[..], TOLERANCE) {
        return Failure(ConstraintViolated);
      }
      if !InBounds(p.bounds, solution[..], TOLERANCE) {
        return Failure(BoundViolated);
      }
      assert solution[..n] == solution[..][..n];
      if !SpeedsWithin(a, solution[..n], Max(0.0, solution[SpeedColumn(n)])) {
        return Failure(SpeedEnvelope);
      }
      if !AccelerationsWithin(a, solution[..n], Max(0.0, solution[AccelerationColumn(n)])) {
        return Failure(AccelerationEnvelope);
      }
      return origins;
  }

  /** `_solve_axis` on a shot of several frames, whatever the six answers are. */
  method SolvePasses(a: Axis, answers: seq<Answer>) returns (r: Result<seq<real>, PlannerError>)
    requires ValidAxis(a) && a.Count() >= 2 && |answers| == PASSES
    ensures r == match Solved(a, answers, PASSES) case Failure(e) => Failure(e) case Success(x) => Success(x.origins)
  {
    hide Checked, Tightened, InitialProgram, RepairOf;
    var program := FirstProgram(a);
    var origins := [];
    for pass := 0 to PASSES
      invariant program == ProgramAt(a, Optima(answers, pass))
      invariant pass > 0 ==> Solved(a, answers, pass).Success? && Solved(a, answers, pass).value.origins == origins
    {
      OptimaStep(answers, pass);
      ProgramWithin(a, Optima(answers, pass));
      var checked := CheckAnswer(a, program, pass, answers[pass]);
      if checked.Failure? {
        FailurePersists(a, answers, pass + 1, PASSES);
        return Failure(checked.error);
      }
      origins := checked.value;
      program := NextProgram(a, program, pass, OptimumOf(answers[pass]));
    }
    return Success(origins);
  }

  /** Rows and bounds before the first pass. */
  method FirstProgram(a: Axis) returns (p: Program)
    requires ValidAxis(a) && a.Count() >= 2
    ensures p == InitialProgram(a) && |p.bounds| == Columns(a.Count())
  {
    hide AllRows, ShotOf;
    var rows := Assemble(ShotOf(a));
    var bounds := seq(a.Count(), i requires 0 <= i < a.Count() => Bound(a.legal[i].centerLower, Some(a.legal[i].centerUpper)))
                  + seq(Columns(a.Count()) - a.Count(), _ => Bound(0.0, None));
    p := Program(rows, bounds);
    assert p.bounds == InitialProgram(a).bounds;
  }

  /** Locking the optimum of a pass: a bound of an excess, or one more row. */
  method NextProgram(a: Axis, p: Program, pass: nat, optimum: real) returns (q: Program)
    requires ValidAxis(a) && a.Count() >= 2 && |p.bounds| == Columns(a.Count()) && pass <= 5
    ensures q == Tightened(a, p, pass, optimum) && |q.bounds| == |p.bounds|
  {
    hide ShotOf, Objective, Locked;
    var rows, bounds, n := p.rows, p.bounds, a.Count();
    if pass == 0 {
      bounds := bounds[SpeedColumn(n) := Bound(0.0, Some(Locked(optimum)))];
    } else if pass == 1 {
      bounds := bounds[AccelerationColumn(n) := Bound(0.0, Some(Locked(optimum)))];
    } else if pass < 5 {
      rows := rows + [Row(Objective(ShotOf(a), pass), Locked(optimum))];
    }
    q := Program(rows, bounds);
  }

  /** `_solve_axis`: a single frame keeps its legal seed origin without a program. */
  method SolveAxis(a: Axis, answers: seq<Answer>) returns (r: Result<seq<real>, PlannerError>)
    requires ValidAxis(a) && |answers| == PASSES
    ensures a.Count() >= 2 ==>
              r == match Solved(a, answers, PASSES) case Failure(e) => Failure(e) case Success(x) => Success(x.origins)
    ensures a.Count() == 1 && a.legal[0].originLower <= a.origins[0] <= a.legal[0].originUpper ==>
              r == Success([a.origins[0]])
    ensures a.Count() == 1 && !(a.legal[0].originLower <= a.origins[0] <= a.legal[0].originUpper) ==>
              var center := (a.origins[0] + a.extents[0] / 2.0) / a.source;
              && (r.Success? <==> a.legal[0].centerLower - 0.00000001 <= center <= a.legal[0].centerUpper + 0.00000001)
              && (r.Failure? ==> r.error == CenterOutsideInterval)
    ensures r.Success? ==> LegalOrigins(a, r.value)
  {
    if a.Count() == 1 {
      if !(a.legal[0].originLower <= a.origins[0] <= a.legal[0].originUpper) {
        var centers := new real[1][CenterOf(a.source, a.extents[0], a.origins[0])];
        r := CanonicalOrigins(a, centers);
        assert ValidInterval(a, 0);
        return;
      }
      return Success([a.origins[0]]);
    }
    r := SolvePasses(a, answers);
    if r.Success? {
      SolvedFacts(a, answers);
    }
  }
}
