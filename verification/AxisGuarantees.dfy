/** What an accepted solve guarantees whatever the solver returned, and what a correct solver
    is guaranteed in turn. */
module AxisGuarantees {
  import opened Prelude
  import opened AxisProgram
  import opened FramingCosts
  import opened AxisSolver

  /** A vector satisfies a program up to a tolerance. */
  ghost predicate Feasible(p: Program, x: seq<real>, tolerance: real)
    requires |p.bounds| == |x| && RowsWithin(p.rows, |x|)
  {
    Satisfies(p.rows, x, tolerance) && InBounds(p.bounds, x, tolerance)
  }

  lemma SatisfiesAppend(rows: seq<Row>, row: Row, x: seq<real>, tolerance: real)
    requires RowsWithin(rows, |x|) && RowWithin(row, |x|)
    ensures RowsWithin(rows + [row], |x|)
    ensures Satisfies(rows + [row], x, tolerance)
       <==> Satisfies(rows, x, tolerance) && Dot(row.coefficients, x) - row.limit <= tolerance
  {
    hide Dot;
    var all := rows + [row];
    assert forall r :: r in all <==> r in rows || r == row;
    assert row in all;
  }

  /** The value of a pass's objective. */
  ghost function Value(a: Axis, pass: nat, x: seq<real>): real
    requires ValidAxis(a) && a.Count() >= 2 && pass <= 5 && |x| == Columns(a.Count())
  {
    ObjectiveMeans(ShotOf(a), x, pass);
    Dot(Objective(ShotOf(a), pass), x)
  }

  /** The tightened program is the old one with one more bound or row: its objective at most
      the locked optimum. */
  lemma TightenedMeans(a: Axis, p: Program, pass: nat, optimum: real, x: seq<real>, tolerance: real)
    requires ValidAxis(a) && a.Count() >= 2 && pass <= 5 && tolerance >= 0.0
    requires |p.bounds| == |x| == Columns(a.Count()) && RowsWithin(p.rows, |x|)
    requires forall j :: SpeedColumn(a.Count()) <= j <= AccelerationColumn(a.Count()) ==> p.bounds[j].lower == 0.0
    requires pass == 0 ==> p.bounds[SpeedColumn(a.Count())].upper.None?
    requires pass == 1 ==> p.bounds[AccelerationColumn(a.Count())].upper.None?
    ensures var q := Tightened(a, p, pass, optimum);
            && |q.bounds| == |x| && RowsWithin(q.rows, |x|)
            && (Feasible(q, x, tolerance)
                <==> Feasible(p, x, tolerance)
                     && (pass < 5 ==> Value(a, pass, x) <= Max(0.0, optimum) + 0.00000001 + tolerance))
  {
    var s, n := ShotOf(a), a.Count();
    ObjectiveMeans(s, x, pass);
    hide Dot, Objective, Satisfies;
    if pass <= 1 {
      var column := if pass == 0 then SpeedColumn(n) else AccelerationColumn(n);
      var q := Tightened(a, p, pass, optimum);
      assert forall j :: 0 <= j < |x| && j != column ==> q.bounds[j] == p.bounds[j];
      assert InBound(q.bounds[column], x[column], tolerance)
        <==> InBound(p.bounds[column], x[column], tolerance) && x[column] <= Locked(optimum) + tolerance;
    } else if pass < 5 {
      SatisfiesAppend(p.rows, Row(Objective(s, pass), Locked(optimum)), x, tolerance);
    }
  }

  lemma {:induction false} ProgramBounds(a: Axis, optima: seq<real>)
    requires ValidAxis(a) && a.Count() >= 2 && |optima| <= 6
    ensures var b, n := ProgramAt(a, optima).bounds, a.Count();
            && (forall i :: 0 <= i < n ==> b[i] == Bound(a.legal[i].centerLower, Some(a.legal[i].centerUpper)))
            && (forall j :: n <= j < |b| ==> b[j].lower == 0.0)
            && (|optima| < 1 ==> b[SpeedColumn(n)].upper.None?)
            && (|optima| < 2 ==> b[AccelerationColumn(n)].upper.None?)
  {
    if optima != [] {
      ProgramBounds(a, optima[..|optima| - 1]);
    }
  }

  /** The first optima each bound their objective. */
  ghost predicate LocksHold(a: Axis, optima: seq<real>, x: seq<real>, tolerance: real)
    requires ValidAxis(a) && a.Count() >= 2 && |optima| <= 6 && |x| == Columns(a.Count())
  {
    forall j: nat :: j < |optima| && j < 5 ==> Value(a, j, x) <= Locked(optima[j]) + tolerance
  }

  lemma LocksExtend(a: Axis, optima: seq<real>, x: seq<real>, tolerance: real)
    requires ValidAxis(a) && a.Count() >= 2 && 1 <= |optima| <= 6 && |x| == Columns(a.Count())
    ensures LocksHold(a, optima, x, tolerance)
       <==> && LocksHold(a, optima[..|optima| - 1], x, tolerance)
            && (|optima| <= 5 ==> Value(a, |optima| - 1, x) <= Locked(optima[|optima| - 1]) + tolerance)
  {
    hide Value, Locked;
    assert forall j: nat :: j < |optima| - 1 ==> optima[..|optima| - 1][j] == optima[j];
  }

  /** The whole meaning of a pass's program: the rows and bounds of the first one, and every
      earlier objective at most its locked optimum. */
  lemma {:induction false} ProgramMeans(a: Axis, optima: seq<real>, x: seq<real>, tolerance: real)
    requires ValidAxis(a) && a.Count() >= 2 && |optima| <= 6 && |x| == Columns(a.Count()) && tolerance >= 0.0
    ensures RowsWithin(ProgramAt(a, optima).rows, |x|) && RowsWithin(InitialProgram(a).rows, |x|)
    ensures Feasible(ProgramAt(a, optima), x, tolerance)
       <==> Feasible(InitialProgram(a), x, tolerance) && LocksHold(a, optima, x, tolerance)
  {
    hide InitialProgram, Feasible, Tightened, Value, LocksHold, RowsWithin, ShotOf;
    ProgramWithin(a, optima);
    ProgramWithin(a, []);
    if optima != [] {
      var k := |optima| - 1;
      ProgramMeans(a, optima[..k], x, tolerance);
      ProgramBounds(a, optima[..k]);
      ProgramWithin(a, optima[..k]);
      TightenedMeans(a, ProgramAt(a, optima[..k]), k, optima[k], x, tolerance);
      LocksExtend(a, optima, x, tolerance);
    } else {
      NoLocks(a, x, tolerance);
    }
  }

  lemma NoLocks(a: Axis, x: seq<real>, tolerance: real)
    requires ValidAxis(a) && a.Count() >= 2 && |x| == Columns(a.Count())
    ensures LocksHold(a, [], x, tolerance)
  {
  }

  ghost predicate NearCenters(a: Axis, x: seq<real>, tolerance: real)
    requires |x| >= a.Count() && |a.legal| == a.Count()
  {
    forall i :: 0 <= i < a.Count() ==>
      a.legal[i].centerLower - tolerance <= x[i] <= a.legal[i].centerUpper + tolerance
  }

  /** The initial program is the framing semantics over legal centers. */
  lemma InitialMeans(a: Axis, x: seq<real>, tolerance: real)
    requires ValidAxis(a) && a.Count() >= 2 && |x| == Columns(a.Count())
    ensures RowsWithin(InitialProgram(a).rows, |x|)
    ensures Feasible(InitialProgram(a), x, tolerance)
       <==> && Meets(ShotOf(a), x, tolerance)
            && AuxiliariesNonNegative(ShotOf(a), x, tolerance)
            && NearCenters(a, x, tolerance)
  {
    hide Meets, AllRows, ShotOf, Satisfies, RowsWithin;
    RowsMean(ShotOf(a), x, tolerance);
    var b, n := InitialProgram(a).bounds, a.Count();
    assert forall i :: 0 <= i < n ==> b[i] == Bound(a.legal[i].centerLower, Some(a.legal[i].centerUpper));
    assert forall j :: n <= j < |x| ==> b[j] == Bound(0.0, None);
  }

  /** Repairing replaces the centers alone, so no objective changes. */
  lemma ValueIgnoresCenters(a: Axis, pass: nat, x: seq<real>, y: seq<real>)
    requires ValidAxis(a) && a.Count() >= 2 && pass <= 5 && |x| == |y| == Columns(a.Count())
    requires x[a.Count()..] == y[a.Count()..]
    ensures Value(a, pass, x) == Value(a, pass, y)
  {
    var s, n := ShotOf(a), a.Count();
    hide Dot, Objective, PassWeights;
    ObjectiveMeans(s, x, pass);
    ObjectiveMeans(s, y, pass);
    assert forall j :: n <= j < |x| ==> x[j] == x[n..][j - n] && y[j] == y[n..][j - n];
    if pass >= 2 {
      var start, w := BlockStart(n, pass), PassWeights(s, pass);
      assert x[start..start + |w|] == y[start..start + |w|];
    }
  }

  ghost predicate LegalOrigins(a: Axis, origins: seq<real>)
    requires |a.legal| == a.Count()
  {
    && |origins| == a.Count()
    && forall i :: 0 <= i < a.Count() ==> a.legal[i].originLower <= origins[i] <= a.legal[i].originUpper
  }

  /** An answer repaired: legal origins, and a vector whose centers are theirs. */
  ghost predicate Repaired(a: Axis, r: Repair)
    requires ValidAxis(a) && a.Count() >= 2
  {
    && LegalOrigins(a, r.origins) && |r.vector| == Columns(a.Count())
    && r.vector[..a.Count()] == CentersOf(a, r.origins)
  }

  lemma RepairLegal(a: Axis, solution: seq<real>)
    requires ValidAxis(a) && a.Count() >= 2 && |solution| == Columns(a.Count())
    ensures Repaired(a, RepairOf(a, solution))
    ensures RepairOf(a, solution).vector[a.Count()..] == solution[a.Count()..]
  {
    var origins, n := RepairedOrigins(a, solution[..a.Count()]), a.Count();
    forall i: nat | i < n ensures a.legal[i].originLower <= origins[i] <= a.legal[i].originUpper {
      assert ValidInterval(a, i);
    }
    hide CenterOf, OriginOf;
    assert (CentersOf(a, origins) + solution[n..])[..n] == CentersOf(a, origins);
    assert (CentersOf(a, origins) + solution[n..])[n..] == solution[n..];
  }

  /** Once rows and bounds hold, neither motion check can fail. */
  lemma MotionChecksRedundant(a: Axis, x: seq<real>)
    requires ValidAxis(a) && a.Count() >= 2 && |x| == Columns(a.Count())
    requires Meets(ShotOf(a), x, TOLERANCE)
    ensures SpeedsWithin(a, x[..a.Count()], Max(0.0, x[SpeedColumn(a.Count())]))
    ensures AccelerationsWithin(a, x[..a.Count()], Max(0.0, x[AccelerationColumn(a.Count())]))
  {
    var s, n := ShotOf(a), a.Count();
    AccelerationsWithinMeans(a, x[..n], Max(0.0, x[AccelerationColumn(n)]));
    hide Velocity, Acceleration, VelocityChange, ShotOf, AccelerationsWithin;
    forall i: nat | i < |a.intervals|
      ensures Abs(Velocity(a.intervals, x[..n], i)) <= PAN_MAX_SPEED + Max(0.0, x[SpeedColumn(n)]) + TOLERANCE
    {
      assert MeetsInterval(s, x, i, TOLERANCE);
    }
    forall k: nat | k < n
      ensures Abs(Acceleration(a.intervals, x[..n], k))
           <= PAN_MAX_ACCELERATION + Max(0.0, x[AccelerationColumn(n)]) + TOLERANCE
    {
      assert MeetsTransition(s, x, k, TOLERANCE);
    }
  }

  /** Usable as far as can be told without the program: finished, consistent, near the legal
      intervals. */
  ghost predicate Consistent(a: Axis, pass: nat, answer: Answer)
    requires ValidAxis(a) && a.Count() >= 2 && pass <= 5
  {
    && answer.Finished? && answer.optimal && |answer.solution| == Columns(a.Count())
    && Abs(Value(a, pass, answer.solution) - answer.optimum) <= TOLERANCE
    && Repairable(a, answer.solution[..a.Count()])
  }

  /** A consistent answer reaches the row and bound checks on its repair, and no other. */
  lemma CheckedConsistent(a: Axis, p: Program, pass: nat, answer: Answer)
    requires ValidAxis(a) && a.Count() >= 2 && |p.bounds| == Columns(a.Count()) && pass <= 5
    requires RowsWithin(p.rows, Columns(a.Count()))
    ensures Checked(a, p, pass, answer).Success? ==> Consistent(a, pass, answer)
    ensures !Consistent(a, pass, answer) ==>
              Checked(a, p, pass, answer).error in {SolverRaised, NotOptimal, InconsistentAnswer, CenterOutsideInterval}
  {
    hide RepairOf, Repairable, ShotOf, Satisfies, InBounds, SpeedsWithin, AccelerationsWithin, Objective, Dot;
  }

  ghost predicate MotionAccepted(a: Axis, x: seq<real>)
    requires ValidAxis(a) && a.Count() >= 2 && |x| == Columns(a.Count())
  {
    && SpeedsWithin(a, x[..a.Count()], Max(0.0, x[SpeedColumn(a.Count())]))
    && AccelerationsWithin(a, x[..a.Count()], Max(0.0, x[AccelerationColumn(a.Count())]))
  }

  lemma CheckedRepair(a: Axis, p: Program, pass: nat, answer: Answer)
    requires ValidAxis(a) && a.Count() >= 2 && |p.bounds| == Columns(a.Count()) && pass <= 5
    requires RowsWithin(p.rows, Columns(a.Count())) && Consistent(a, pass, answer)
    ensures var x, checked := RepairOf(a, answer.solution).vector, Checked(a, p, pass, answer);
            && |x| == Columns(a.Count())
            && (Feasible(p, x, TOLERANCE) && MotionAccepted(a, x) ==> checked == Success(RepairOf(a, answer.solution)))
            && (!Feasible(p, x, TOLERANCE) ==> checked.Failure? && checked.error in {ConstraintViolated, BoundViolated})
  {
    RepairLegal(a, answer.solution);
    hide RepairOf, Repairable, ShotOf, Satisfies, InBounds, SpeedsWithin, AccelerationsWithin, Objective, Dot, RowsWithin,
         LegalOrigins;
  }

  lemma FeasibleMotion(a: Axis, optima: seq<real>, x: seq<real>)
    requires ValidAxis(a) && a.Count() >= 2 && |optima| <= 5 && |x| == Columns(a.Count())
    requires RowsWithin(ProgramAt(a, optima).rows, |x|) && Feasible(ProgramAt(a, optima), x, TOLERANCE)
    ensures MotionAccepted(a, x)
  {
    hide ProgramAt, InitialProgram, Meets, ShotOf, Feasible, RowsWithin, SpeedsWithin, AccelerationsWithin;
    ProgramMeans(a, optima, x, TOLERANCE);
    InitialMeans(a, x, TOLERANCE);
    MotionChecksRedundant(a, x);
  }

  /** Exactly which answers a pass accepts, for any solver: those that are consistent and whose
      repair satisfies the program up to the tolerance. */
  lemma CheckedMeans(a: Axis, optima: seq<real>, pass: nat, answer: Answer)
    requires ValidAxis(a) && a.Count() >= 2 && |optima| == pass <= 5
    ensures RowsWithin(ProgramAt(a, optima).rows, Columns(a.Count()))
    ensures var checked := Checked(a, ProgramAt(a, optima), pass, answer);
            && (checked.Success?
                <==> Consistent(a, pass, answer)
                     && Feasible(ProgramAt(a, optima), RepairOf(a, answer.solution).vector, TOLERANCE))
            && (checked.Success? ==> checked.value == RepairOf(a, answer.solution))
            && (checked.Failure? ==>
                  checked.error in {SolverRaised, NotOptimal, InconsistentAnswer, CenterOutsideInterval,
                                    ConstraintViolated, BoundViolated})
  {
    hide ProgramAt, RowsWithin, Checked, RepairOf, Feasible, MotionAccepted, Repairable, Value;
    ProgramWithin(a, optima);
    CheckedConsistent(a, ProgramAt(a, optima), pass, answer);
    if Consistent(a, pass, answer) {
      CheckedRepair(a, ProgramAt(a, optima), pass, answer);
      if Feasible(ProgramAt(a, optima), RepairOf(a, answer.solution).vector, TOLERANCE) {
        FeasibleMotion(a, optima, RepairOf(a, answer.solution).vector);
      }
    }
  }

  /* ---------------------------------------------------------------------------------------
     Whatever the solver returns.
     --------------------------------------------------------------------------------------- */

  /** A success is the last pass's repaired answer, and every pass before it was accepted. */
  lemma {:induction false} SolvedMeans(a: Axis, answers: seq<Answer>, k: nat)
    requires ValidAxis(a) && a.Count() >= 2 && 1 <= k <= PASSES && k <= |answers|
    requires Solved(a, answers, k).Success?
    ensures Consistent(a, k - 1, answers[k - 1])
    ensures Solved(a, answers, k).value == RepairOf(a, answers[k - 1].solution)
    ensures RowsWithin(ProgramAt(a, Optima(answers, k - 1)).rows, Columns(a.Count()))
    ensures Feasible(ProgramAt(a, Optima(answers, k - 1)), Solved(a, answers, k).value.vector, TOLERANCE)
  {
    hide Consistent, Checked, RepairOf, Feasible, ProgramAt;
    CheckedMeans(a, Optima(answers, k - 1), k - 1, answers[k - 1]);
  }

  /** What acceptance says of a repaired answer. */
  lemma AcceptedFacts(a: Axis, optima: seq<real>, pass: nat, solution: seq<real>, optimum: real)
    requires ValidAxis(a) && a.Count() >= 2 && |optima| == pass <= 5 && |solution| == Columns(a.Count())
    requires Abs(Value(a, pass, solution) - optimum) <= TOLERANCE
    requires RowsWithin(ProgramAt(a, optima).rows, Columns(a.Count()))
    requires Feasible(ProgramAt(a, optima), RepairOf(a, solution).vector, TOLERANCE)
    ensures var r := RepairOf(a, solution);
            && Repaired(a, r)
            && Meets(ShotOf(a), r.vector, TOLERANCE)
            && AuxiliariesNonNegative(ShotOf(a), r.vector, TOLERANCE)
            && LocksHold(a, optima, r.vector, TOLERANCE)
            && Abs(Value(a, pass, r.vector) - optimum) <= TOLERANCE
  {
    var x := RepairOf(a, solution).vector;
    RepairLegal(a, solution);
    hide RepairOf, Feasible, ProgramAt, InitialProgram, ShotOf, Value, Meets, AuxiliariesNonNegative, LocksHold,
         Repaired, RowsWithin, NearCenters;
    assert |x| == Columns(a.Count());
    ProgramMeans(a, optima, x, TOLERANCE);
    InitialMeans(a, x, TOLERANCE);
    ValueIgnoresCenters(a, pass, x, solution);
  }

  lemma SolvedFacts(a: Axis, answers: seq<Answer>)
    requires ValidAxis(a) && a.Count() >= 2 && |answers| == PASSES && Solved(a, answers, PASSES).Success?
    ensures var r := Solved(a, answers, PASSES).value;
            && Repaired(a, r)
            && Meets(ShotOf(a), r.vector, TOLERANCE)
            && AuxiliariesNonNegative(ShotOf(a), r.vector, TOLERANCE)
            && LocksHold(a, Optima(answers, PASSES - 1), r.vector, TOLERANCE)
            && Abs(Value(a, PASSES - 1, r.vector) - OptimumOf(answers[PASSES - 1])) <= TOLERANCE
  {
    hide Solved, RepairOf, Feasible, ProgramAt, ShotOf, Value, Meets, AuxiliariesNonNegative, LocksHold, Repaired,
         Repairable, RowsWithin;
    var last := answers[PASSES - 1];
    SolvedMeans(a, answers, PASSES);
    AcceptedFacts(a, Optima(answers, PASSES - 1), PASSES - 1, last.solution, last.optimum);
  }

  /** Speeds and accelerations within the limits, up to two relaxations and three tolerances. */
  ghost predicate MotionWithin(intervals: seq<real>, c: seq<real>, speedOptimum: real, accelerationOptimum: real)
    requires PathOf(intervals, c) && |intervals| > 0
  {
    && (forall i: nat :: i < |intervals| ==>
          Abs(Velocity(intervals, c, i)) <= PAN_MAX_SPEED + Max(0.0, speedOptimum) + 3.0 * TOLERANCE)
    && (forall k: nat :: k <= |intervals| ==>
          Abs(Acceleration(intervals, c, k)) <= PAN_MAX_ACCELERATION + Max(0.0, accelerationOptimum) + 3.0 * TOLERANCE)
  }

  /** The relaxations a vector is allowed bound the motion of its centers. */
  lemma VectorMotion(a: Axis, x: seq<real>, speedOptimum: real, accelerationOptimum: real)
    requires ValidAxis(a) && a.Count() >= 2 && |x| == Columns(a.Count())
    requires Meets(ShotOf(a), x, TOLERANCE)
    requires Value(a, 0, x) <= Locked(speedOptimum) + TOLERANCE
    requires Value(a, 1, x) <= Locked(accelerationOptimum) + TOLERANCE
    ensures MotionWithin(a.intervals, x[..a.Count()], speedOptimum, accelerationOptimum)
  {
    var s, n := ShotOf(a), a.Count();
    ObjectiveMeans(s, x, 0);
    ObjectiveMeans(s, x, 1);
    hide Velocity, Acceleration, VelocityChange, ShotOf, Objective, Dot;
    forall i: nat | i < |a.intervals|
      ensures Abs(Velocity(a.intervals, x[..n], i)) <= PAN_MAX_SPEED + Max(0.0, speedOptimum) + 3.0 * TOLERANCE
    {
      assert MeetsInterval(s, x, i, TOLERANCE);
    }
    forall k: nat | k < n
      ensures Abs(Acceleration(a.intervals, x[..n], k))
           <= PAN_MAX_ACCELERATION + Max(0.0, accelerationOptimum) + 3.0 * TOLERANCE
    {
      assert MeetsTransition(s, x, k, TOLERANCE);
    }
  }

  /** Solver-independent safety: an accepted path has legal origins, and its speeds and
      accelerations exceed the limits by no more than the claimed optima of the first two
      passes and three tolerances. */
  lemma SolvedMotion(a: Axis, answers: seq<Answer>)
    requires ValidAxis(a) && a.Count() >= 2 && |answers| == PASSES && Solved(a, answers, PASSES).Success?
    ensures var origins := Solved(a, answers, PASSES).value.origins;
            && LegalOrigins(a, origins)
            && MotionWithin(a.intervals, CentersOf(a, origins), OptimumOf(answers[0]), OptimumOf(answers[1]))
  {
    SolvedFacts(a, answers);
    hide Solved, ShotOf, CentersOf, Meets, Value, Locked;
    var x, o := Solved(a, answers, PASSES).value.vector, Optima(answers, PASSES - 1);
    assert Value(a, 0, x) <= Locked(o[0]) + TOLERANCE && Value(a, 1, x) <= Locked(o[1]) + TOLERANCE;
    VectorMotion(a, x, o[0], o[1]);
  }

  lemma OptimaAre(answers: seq<Answer>, k: nat)
    requires k <= |answers|
    ensures |Optima(answers, k)| == k && forall i :: 0 <= i < k ==> Optima(answers, k)[i] == OptimumOf(answers[i])
  {
  }

  lemma VectorCosts(a: Axis, x: seq<real>, pass: nat, limit: real)
    requires ValidAxis(a) && a.Count() >= 2 && |x| == Columns(a.Count()) && pass <= 5
    requires Meets(ShotOf(a), x, TOLERANCE) && AuxiliariesNonNegative(ShotOf(a), x, TOLERANCE)
    requires Value(a, pass, x) <= limit
    ensures Cost(ShotOf(a), x[..a.Count()], pass) <= limit + Slack(ShotOf(a), pass, TOLERANCE)
  {
    hide ShotOf, Objective, Cost, Slack, Meets, AuxiliariesNonNegative, Dot;
    ObjectiveDominates(ShotOf(a), x, pass, TOLERANCE);
  }

  /** Lexicographic preservation: the accepted vector keeps every earlier objective within two
      tolerances of its locked optimum, the last one within one of its claim, and the path
      itself costs no more than that, up to what the tolerance adds up to. */
  lemma SolvedCosts(a: Axis, answers: seq<Answer>, pass: nat)
    requires ValidAxis(a) && a.Count() >= 2 && |answers| == PASSES && Solved(a, answers, PASSES).Success? && pass <= 5
    ensures var r, optimum := Solved(a, answers, PASSES).value, OptimumOf(answers[pass]);
            && |r.origins| == a.Count() && |r.vector| == Columns(a.Count())
            && (pass < 5 ==> Value(a, pass, r.vector) <= Max(0.0, optimum) + 2.0 * TOLERANCE)
            && (pass == 5 ==> Abs(Value(a, pass, r.vector) - optimum) <= TOLERANCE)
            && Cost(ShotOf(a), CentersOf(a, r.origins), pass)
               <= Max(0.0, optimum) + 2.0 * TOLERANCE + Slack(ShotOf(a), pass, TOLERANCE)
  {
    hide Solved, ShotOf, CentersOf, Value, Cost, Slack, Meets, AuxiliariesNonNegative, OptimumOf, Optima;
    SolvedFacts(a, answers);
    OptimaAre(answers, PASSES - 1);
    var x, optimum := Solved(a, answers, PASSES).value.vector, OptimumOf(answers[pass]);
    VectorCosts(a, x, pass, Max(0.0, optimum) + 2.0 * TOLERANCE);
  }

  /* ---------------------------------------------------------------------------------------
     What a correct solver is guaranteed.
     --------------------------------------------------------------------------------------- */

  /** A program only tightens: what satisfies it satisfies every earlier one. */
  lemma ProgramsTighten(a: Axis, optima: seq<real>, k: nat, x: seq<real>, tolerance: real)
    requires ValidAxis(a) && a.Count() >= 2 && k <= |optima| <= 6 && |x| == Columns(a.Count()) && tolerance >= 0.0
    ensures RowsWithin(ProgramAt(a, optima).rows, |x|) && RowsWithin(ProgramAt(a, optima[..k]).rows, |x|)
    ensures Feasible(ProgramAt(a, optima), x, tolerance) ==> Feasible(ProgramAt(a, optima[..k]), x, tolerance)
  {
    hide ProgramAt, InitialProgram, Feasible, Value, Locked, RowsWithin;
    ProgramMeans(a, optima, x, tolerance);
    ProgramMeans(a, optima[..k], x, tolerance);
  }

  /** An exact solution stays feasible once its own objective value is locked. */
  lemma LockingKeeps(a: Axis, optima: seq<real>, x: seq<real>)
    requires ValidAxis(a) && a.Count() >= 2 && |optima| <= 5 && |x| == Columns(a.Count())
    ensures RowsWithin(ProgramAt(a, optima).rows, |x|)
    ensures RowsWithin(ProgramAt(a, optima + [Value(a, |optima|, x)]).rows, |x|)
    ensures Feasible(ProgramAt(a, optima), x, 0.0)
        ==> Feasible(ProgramAt(a, optima + [Value(a, |optima|, x)]), x, 0.0)
  {
    hide ProgramAt, InitialProgram, Feasible, Value, RowsWithin;
    var next := optima + [Value(a, |optima|, x)];
    ProgramMeans(a, optima, x, 0.0);
    ProgramMeans(a, next, x, 0.0);
    LocksExtend(a, next, x, 0.0);
    assert next[..|next| - 1] == optima;
  }

  ghost predicate LegalCenters(a: Axis, c: seq<real>)
    requires |a.legal| == a.Count()
  {
    |c| == a.Count() && NearCenters(a, c, 0.0)
  }

  /** The program a pass poses is feasible for every legal path that meets the locked costs:
      its least vector satisfies it exactly. */
  lemma LegalPathFeasible(a: Axis, optima: seq<real>, c: seq<real>)
    requires ValidAxis(a) && a.Count() >= 2 && |optima| <= 5 && LegalCenters(a, c)
    requires forall j: nat :: j < |optima| ==> Cost(ShotOf(a), c, j) <= Locked(optima[j])
    ensures RowsWithin(ProgramAt(a, optima).rows, Columns(a.Count()))
    ensures Feasible(ProgramAt(a, optima), Extend(ShotOf(a), c), 0.0)
  {
    var x := Extend(ShotOf(a), c);
    hide ProgramAt, InitialProgram, Feasible, RowsWithin, ShotOf, Cost, Extend, LocksHold, LegalCenters;
    ProgramMeans(a, optima, x, 0.0);
    ExtensionInitial(a, c);
    ExtensionLocks(a, optima, c);
  }

  lemma ExtensionInitial(a: Axis, c: seq<real>)
    requires ValidAxis(a) && a.Count() >= 2 && LegalCenters(a, c)
    ensures RowsWithin(InitialProgram(a).rows, Columns(a.Count()))
    ensures Feasible(InitialProgram(a), Extend(ShotOf(a), c), 0.0)
  {
    hide InitialProgram, Feasible, RowsWithin, ShotOf, Extend, Meets, AuxiliariesNonNegative;
    var s := ShotOf(a);
    var x := Extend(s, c);
    ExtendMeets(s, c);
    InitialMeans(a, x, 0.0);
    assert forall i :: 0 <= i < a.Count() ==> x[i] == Centers(s, x)[i];
  }

  lemma ExtensionLocks(a: Axis, optima: seq<real>, c: seq<real>)
    requires ValidAxis(a) && a.Count() >= 2 && |optima| <= 5 && |c| == a.Count()
    requires forall j: nat :: j < |optima| ==> Cost(ShotOf(a), c, j) <= Locked(optima[j])
    ensures LocksHold(a, optima, Extend(ShotOf(a), c), 0.0)
  {
    hide ShotOf, Cost, Locked, Extend, Value;
    forall j: nat | j < |optima| ensures Value(a, j, Extend(ShotOf(a), c)) <= Locked(optima[j]) + 0.0 {
      ValueOfExtension(a, c, j);
    }
  }

  lemma ValueOfExtension(a: Axis, c: seq<real>, pass: nat)
    requires ValidAxis(a) && a.Count() >= 2 && |c| == a.Count() && pass <= 5
    ensures Value(a, pass, Extend(ShotOf(a), c)) == Cost(ShotOf(a), c, pass)
  {
    hide ShotOf, Cost, Extend, Objective, Dot;
    ExtendCosts(ShotOf(a), c, pass);
  }

  /** With nothing locked: any legal path is feasible, so the first pass always has a solution. */
  lemma AlwaysFeasible(a: Axis)
    requires ValidAxis(a) && a.Count() >= 2
    ensures RowsWithin(InitialProgram(a).rows, Columns(a.Count()))
    ensures exists x: seq<real> :: |x| == Columns(a.Count()) && Feasible(InitialProgram(a), x, 0.0)
  {
    var origins := seq(a.Count(), i requires 0 <= i < a.Count() => a.legal[i].originLower);
    var c := CentersOf(a, origins);
    forall i: nat | i < a.Count() ensures a.legal[i].centerLower <= c[i] <= a.legal[i].centerUpper {
      assert ValidInterval(a, i);
      CentersAndOrigins(a.source, a.extents[i], a.legal[i].originLower, c[i]);
      CentersAndOrigins(a.source, a.extents[i], a.legal[i].originUpper, c[i]);
    }
    LegalPathFeasible(a, [], c);
    assert Feasible(InitialProgram(a), Extend(ShotOf(a), c), 0.0);
  }

  /** Exact solutions of the program a pass poses. */
  ghost predicate Solution(a: Axis, optima: seq<real>, y: seq<real>)
    requires ValidAxis(a) && a.Count() >= 2 && |optima| <= 5
  {
    ProgramWithin(a, optima);
    |y| == Columns(a.Count()) && Feasible(ProgramAt(a, optima), y, 0.0)
  }

  /** An answer of a solver that does what it is asked: an exact solution of least value. */
  ghost predicate Minimum(a: Axis, optima: seq<real>, answer: Answer)
    requires ValidAxis(a) && a.Count() >= 2 && |optima| <= 5
  {
    && answer.Finished? && answer.optimal && Solution(a, optima, answer.solution)
    && answer.optimum == Value(a, |optima|, answer.solution)
    && forall y: seq<real> :: Solution(a, optima, y) ==> answer.optimum <= Value(a, |optima|, y)
  }

  lemma FeasibleLooser(p: Program, x: seq<real>, tolerance: real)
    requires |p.bounds| == |x| && RowsWithin(p.rows, |x|) && tolerance >= 0.0 && Feasible(p, x, 0.0)
    ensures Feasible(p, x, tolerance)
  {
    hide Dot;
  }

  /** Repairing centers that are already legal changes nothing. */
  lemma RepairIdentity(a: Axis, x: seq<real>)
    requires ValidAxis(a) && a.Count() >= 2 && |x| == Columns(a.Count()) && NearCenters(a, x, 0.0)
    ensures RepairOf(a, x).vector == x
    ensures Repairable(a, x[..a.Count()])
  {
    var n, origins := a.Count(), RepairedOrigins(a, x[..a.Count()]);
    forall i: nat | i < n ensures CentersOf(a, origins)[i] == x[i] {
      assert ValidInterval(a, i);
      CentersAndOrigins(a.source, a.extents[i], a.legal[i].originLower, x[i]);
      CentersAndOrigins(a.source, a.extents[i], a.legal[i].originUpper, x[i]);
      assert origins[i] == OriginOf(a.source, a.extents[i], x[i]);
    }
    assert CentersOf(a, origins) == x[..n];
    assert x[..n] + x[n..] == x;
  }

  /** Every exact solution is accepted as it is, its centers not moved by the repair. */
  lemma ExactAccepted(a: Axis, optima: seq<real>, answer: Answer)
    requires ValidAxis(a) && a.Count() >= 2 && |optima| <= 5
    requires answer.Finished? && answer.optimal && Solution(a, optima, answer.solution)
    requires answer.optimum == Value(a, |optima|, answer.solution)
    ensures RowsWithin(ProgramAt(a, optima).rows, Columns(a.Count()))
    ensures Checked(a, ProgramAt(a, optima), |optima|, answer) == Success(RepairOf(a, answer.solution))
    ensures RepairOf(a, answer.solution).vector == answer.solution
  {
    var x := answer.solution;
    hide ProgramAt, InitialProgram, Feasible, Value, RowsWithin, Checked, RepairOf, Repairable, ShotOf;
    ProgramMeans(a, optima, x, 0.0);
    InitialMeans(a, x, 0.0);
    RepairIdentity(a, x);
    FeasibleLooser(ProgramAt(a, optima), x, TOLERANCE);
    CheckedMeans(a, optima, |optima|, answer);
  }

  /** The optimum of a pass is at most the cost of every legal path that meets the locks. */
  lemma MinimumLeast(a: Axis, optima: seq<real>, answer: Answer, c: seq<real>)
    requires ValidAxis(a) && a.Count() >= 2 && |optima| <= 5 && Minimum(a, optima, answer) && LegalCenters(a, c)
    requires forall j: nat :: j < |optima| ==> Cost(ShotOf(a), c, j) <= Locked(optima[j])
    ensures answer.optimum <= Cost(ShotOf(a), c, |optima|)
  {
    var x := Extend(ShotOf(a), c);
    LegalPathFeasible(a, optima, c);
    ExtendCosts(ShotOf(a), c, |optima|);
    assert Solution(a, optima, x);
  }

  lemma {:induction false} MinimaAccepted(a: Axis, answers: seq<Answer>, k: nat)
    requires ValidAxis(a) && a.Count() >= 2 && |answers| == PASSES && 1 <= k <= PASSES
    requires forall i: nat :: i < PASSES ==> Minimum(a, Optima(answers, i), answers[i])
    ensures Minimum(a, Optima(answers, k - 1), answers[k - 1])
    ensures Solved(a, answers, k).Success? && Solved(a, answers, k).value.vector == answers[k - 1].solution
  {
    hide Checked, RepairOf, ProgramAt, Solution, Value;
    assert Minimum(a, Optima(answers, k - 1), answers[k - 1]);
    ExactAccepted(a, Optima(answers, k - 1), answers[k - 1]);
    if k > 1 {
      MinimaAccepted(a, answers, k - 1);
    }
  }

  /** The costs of an exact solution's centers are at most its objective values. */
  lemma ExactCosts(a: Axis, optima: seq<real>, x: seq<real>, pass: nat)
    requires ValidAxis(a) && a.Count() >= 2 && |optima| <= 5 && pass <= |optima| && Solution(a, optima, x)
    ensures LegalCenters(a, x[..a.Count()])
    ensures Cost(ShotOf(a), x[..a.Count()], pass) <= Value(a, pass, x)
    ensures pass < |optima| ==> Value(a, pass, x) <= Locked(optima[pass])
  {
    hide ProgramAt, InitialProgram, Feasible, RowsWithin, ShotOf, Cost, Locked, Meets, AuxiliariesNonNegative, Objective, Dot;
    ProgramMeans(a, optima, x, 0.0);
    InitialMeans(a, x, 0.0);
    ObjectiveDominates(ShotOf(a), x, pass, 0.0);
    assert Slack(ShotOf(a), pass, 0.0) == 0.0;
  }

  /** The last pass finds the cheapest of the legal paths that meet the locks. */
  lemma LastPassBest(a: Axis, optima: seq<real>, answer: Answer, c: seq<real>)
    requires ValidAxis(a) && a.Count() >= 2 && |optima| == 5 && Minimum(a, optima, answer) && LegalCenters(a, c)
    requires forall j: nat :: j < 5 ==> Cost(ShotOf(a), c, j) <= Locked(optima[j])
    ensures |answer.solution| == Columns(a.Count())
    ensures var best := answer.solution[..a.Count()];
            && LegalCenters(a, best)
            && (forall j: nat :: j < 5 ==> Cost(ShotOf(a), best, j) <= Locked(optima[j]))
            && Cost(ShotOf(a), best, 5) <= Cost(ShotOf(a), c, 5)
  {
    hide ShotOf, Cost, Locked, Solution, Value, NearCenters;
    var x := answer.solution;
    MinimumLeast(a, optima, answer, c);
    assert |x| == Columns(a.Count()) by { ProgramMeansSize(a, optima, x); }
    ExactCosts(a, optima, x, 5);
    forall j: nat | j < 5 ensures Cost(ShotOf(a), x[..a.Count()], j) <= Locked(optima[j]) {
      ExactCosts(a, optima, x, j);
    }
  }

  lemma ProgramMeansSize(a: Axis, optima: seq<real>, x: seq<real>)
    requires ValidAxis(a) && a.Count() >= 2 && |optima| <= 5 && Solution(a, optima, x)
    ensures |x| == Columns(a.Count())
  {
  }

  /** With a correct solver the solve succeeds, and its path is the best in the documented
      order: it meets every locked cost, and no legal path that meets them costs less in the
      last pass. */
  lemma LexicographicOptimum(a: Axis, answers: seq<Answer>, c: seq<real>)
    requires ValidAxis(a) && a.Count() >= 2 && |answers| == PASSES
    requires forall i: nat :: i < PASSES ==> Minimum(a, Optima(answers, i), answers[i])
    requires LegalCenters(a, c)
    requires forall j: nat :: j < 5 ==> Cost(ShotOf(a), c, j) <= Locked(OptimumOf(answers[j]))
    ensures Solved(a, answers, PASSES).Success?
    ensures var best := Solved(a, answers, PASSES).value.vector;
            && |best| == Columns(a.Count()) && LegalCenters(a, best[..a.Count()])
            && (forall j: nat :: j < 5 ==> Cost(ShotOf(a), best[..a.Count()], j) <= Locked(OptimumOf(answers[j])))
            && Cost(ShotOf(a), best[..a.Count()], 5) <= Cost(ShotOf(a), c, 5)
  {
    var optima := Optima(answers, 5);
    MinimaAccepted(a, answers, PASSES);
    hide Solved, ShotOf, Cost, Locked, Minimum, NearCenters;
    assert forall j: nat :: j < 5 ==> optima[j] == OptimumOf(answers[j]);
    LastPassBest(a, optima, answers[5], c);
  }

  /* ---------------------------------------------------------------------------------------
     Shots that need no motion have exact minima in every pass.
     --------------------------------------------------------------------------------------- */

  /** A legal seed whose center never moves. */
  ghost predicate Motionless(a: Axis)
    requires ValidAxis(a)
  {
    && LegalOrigins(a, a.origins)
    && forall i :: 0 <= i < a.Count() ==> CentersOf(a, a.origins)[i] == CentersOf(a, a.origins)[0]
  }

  /** The seed itself, at no cost. */
  ghost function StillAnswer(a: Axis): Answer
    requires ValidAxis(a) && a.Count() >= 2
  {
    Finished(true, Extend(ShotOf(a), CentersOf(a, a.origins)), 0.0)
  }

  lemma {:induction false} WeightedSumZero(w: seq<real>, f: seq<real>)
    requires |w| == |f| && forall i :: 0 <= i < |f| ==> f[i] == 0.0
    ensures WeightedSum(w, f) == 0.0
  {
    if w != [] {
      WeightedSumZero(w[1..], f[1..]);
    }
  }

  lemma {:induction false} WeightedSumNonNegative(w: seq<real>, f: seq<real>)
    requires |w| == |f| && forall i :: 0 <= i < |f| ==> w[i] >= 0.0 && f[i] >= 0.0
    ensures WeightedSum(w, f) >= 0.0
  {
    if w != [] {
      WeightedSumNonNegative(w[1..], f[1..]);
      NonNegative(w[0], f[0], w[0] * f[0]);
    }
  }

  lemma ExcessZero(values: seq<real>, limit: real)
    requires limit >= 0.0 && forall i :: 0 <= i < |values| ==> values[i] == 0.0
    ensures Excess(values, limit) == 0.0
  {
    hide Excess;
    ExcessLeast(values, limit, 0.0);
  }

  /** A path that stays on its seed's unmoving center costs nothing in any pass. */
  lemma StillCosts(s: Shot, pass: nat)
    requires ValidShot(s) && pass <= 5 && forall i :: 0 <= i < s.Count() ==> s.seeds[i] == s.seeds[0]
    ensures Cost(s, s.seeds, pass) == 0.0
  {
    hide Excess, WeightedSum, PassWeights;
    var c := s.seeds;
    forall i: nat | i < |s.intervals| ensures Velocity(s.intervals, c, i) == 0.0 {
      assert c[i + 1] == c[i];
    }
    forall k: nat | k < s.Count() ensures VelocityChange(s.intervals, c, k) == 0.0 && Acceleration(s.intervals, c, k) == 0.0 {
      SpanPositive(s.intervals, c, k);
    }
    if pass == 0 {
      ExcessZero(Speeds(s.intervals, c), PAN_MAX_SPEED);
    } else if pass == 1 {
      ExcessZero(Accelerations(s.intervals, c), PAN_MAX_ACCELERATION);
    } else {
      BlockFits(s, pass);
      StillAmounts(s, pass);
      WeightedSumZero(PassWeights(s, pass), Amounts(s, c, pass));
    }
  }

  lemma StillAmounts(s: Shot, pass: nat)
    requires ValidShot(s) && 2 <= pass <= 5 && forall i :: 0 <= i < s.Count() ==> s.seeds[i] == s.seeds[0]
    requires forall k: nat :: k < s.Count() ==> VelocityChange(s.intervals, s.seeds, k) == 0.0
    ensures |PassWeights(s, pass)| == |Amounts(s, s.seeds, pass)|
    ensures forall i :: 0 <= i < |Amounts(s, s.seeds, pass)| ==> Amounts(s, s.seeds, pass)[i] == 0.0
  {
    hide VelocityChange;
  }

  lemma ObjectiveNonNegative(s: Shot, x: seq<real>, pass: nat)
    requires Vector(s, x) && pass <= 5 && AuxiliariesNonNegative(s, x, 0.0)
    ensures Within(Objective(s, pass), |x|) && Dot(Objective(s, pass), x) >= 0.0
  {
    hide WeightedSum, Objective, Dot, PassWeights, BlockStart;
    ObjectiveMeans(s, x, pass);
    if pass >= 2 {
      var start, w := BlockStart(s.Count(), pass), PassWeights(s, pass);
      BlockFits(s, pass);
      BlockAfterCenters(s.Count(), pass);
      WeightedSumNonNegative(w, x[start..start + |w|]);
    }
  }

  /** No exact solution has a negative value in any pass. */
  lemma ValuesNonNegative(a: Axis, optima: seq<real>, pass: nat, y: seq<real>)
    requires ValidAxis(a) && a.Count() >= 2 && |optima| <= 5 && pass <= 5 && Solution(a, optima, y)
    ensures Value(a, pass, y) >= 0.0
  {
    hide ProgramAt, InitialProgram, Feasible, RowsWithin, ShotOf, Meets, LocksHold, NearCenters, Objective, Dot,
         AuxiliariesNonNegative;
    ProgramMeans(a, optima, y, 0.0);
    InitialMeans(a, y, 0.0);
    ObjectiveNonNegative(ShotOf(a), y, pass);
  }

  lemma BlockAfterCenters(n: nat, pass: nat)
    requires n > 0 && 2 <= pass <= 5
    ensures BlockStart(n, pass) >= n
  {
  }

  lemma LegalOriginsCenters(a: Axis, origins: seq<real>)
    requires ValidAxis(a) && LegalOrigins(a, origins)
    ensures LegalCenters(a, CentersOf(a, origins))
  {
    var c := CentersOf(a, origins);
    forall i: nat | i < a.Count() ensures a.legal[i].centerLower <= c[i] <= a.legal[i].centerUpper {
      assert ValidInterval(a, i);
      CentersAndOrigins(a.source, a.extents[i], a.legal[i].originLower, c[i]);
      CentersAndOrigins(a.source, a.extents[i], a.legal[i].originUpper, c[i]);
      CentersAndOrigins(a.source, a.extents[i], origins[i], c[i]);
    }
  }

  /** On a motionless legal seed the seed is an exact minimum of every pass, once earlier passes
      locked nothing but zero. */
  lemma StillMinimum(a: Axis, optima: seq<real>)
    requires ValidAxis(a) && a.Count() >= 2 && Motionless(a) && |optima| <= 5
    requires forall j :: 0 <= j < |optima| ==> optima[j] == 0.0
    ensures Minimum(a, optima, StillAnswer(a))
  {
    var s, c := ShotOf(a), CentersOf(a, a.origins);
    LegalOriginsCenters(a, a.origins);
    hide ProgramAt, Feasible, Value, Cost, Extend, LegalCenters, CenterOf;
    forall pass: nat | pass <= 5 ensures Cost(s, c, pass) == 0.0 {
      StillCosts(s, pass);
    }
    LegalPathFeasible(a, optima, c);
    ValueOfExtension(a, c, |optima|);
    forall y: seq<real> | Solution(a, optima, y) ensures 0.0 <= Value(a, |optima|, y) {
      ValuesNonNegative(a, optima, |optima|, y);
    }
  }

  /** So for every motionless legal shot there are exact minima in all six passes, the solve
      accepts them, and the path it returns is the seed. */
  lemma StillSolved(a: Axis, answers: seq<Answer>)
    requires ValidAxis(a) && a.Count() >= 2 && Motionless(a)
    requires answers == seq(PASSES, _ => StillAnswer(a))
    ensures forall i: nat :: i < PASSES ==> Minimum(a, Optima(answers, i), answers[i])
    ensures Solved(a, answers, PASSES).Success?
    ensures Solved(a, answers, PASSES).value.vector == Extend(ShotOf(a), CentersOf(a, a.origins))
  {
    hide Minimum, Solved, Extend;
    forall i: nat | i < PASSES ensures Minimum(a, Optima(answers, i), answers[i]) {
      StillMinimum(a, Optima(answers, i));
    }
    MinimaAccepted(a, answers, PASSES);
  }

  /** Two frames a second apart, a crop of half the source in its middle. */
  const STILL_AXIS := Axis(2.0, [1.0, 1.0], [0.5, 0.5],
                           [Interval(0.0, 1.0, 0.25, 0.75), Interval(0.0, 1.0, 0.25, 0.75)], [1.0])

  /** There is such a shot. */
  lemma StillAxisMotionless()
    ensures ValidAxis(STILL_AXIS) && STILL_AXIS.Count() >= 2 && Motionless(STILL_AXIS)
  {
    var a := STILL_AXIS;
    assert forall i: nat :: i < 2 ==> a.legal[i] == Interval(0.0, 1.0, 0.25, 0.75) && a.extents[i] == 1.0;
  }
}
