/**
 The six framing costs of a camera path and the objectives that stand for them: over all
 vectors with given centers the program's objectives are least, and all at once, at the
 costs of those centers.
 */
module FramingCosts {
  import opened Prelude
  import opened AxisProgram

  /** How far the largest magnitude exceeds a limit; zero when none does. */
  function Excess(values: seq<real>, limit: real): real {
    if values == [] then 0.0 else Max(Excess(values[1..], limit), Abs(values[0]) - limit)
  }

  /** The excess is the least relaxation of the limit under which every value fits. */
  lemma {:induction false} ExcessLeast(values: seq<real>, limit: real, e: real)
    ensures Excess(values, limit) >= 0.0
    ensures e >= Excess(values, limit)
       <==> e >= 0.0 && forall i :: 0 <= i < |values| ==> Abs(values[i]) <= limit + e
  {
    if values != [] {
      ExcessLeast(values[1..], limit, e);
      assert forall i :: 0 < i < |values| ==> values[i] == values[1..][i - 1];
      assert (forall i :: 0 <= i < |values| ==> Abs(values[i]) <= limit + e)
        <==> Abs(values[0]) <= limit + e && forall i :: 0 <= i < |values[1..]| ==> Abs(values[1..][i]) <= limit + e;
    }
  }

  function WeightedSum(w: seq<real>, f: seq<real>): real
    requires |w| == |f|
  {
    if w == [] then 0.0 else w[0] * f[0] + WeightedSum(w[1..], f[1..])
  }

  lemma {:induction false} WeightedSumMonotone(w: seq<real>, f: seq<real>, g: seq<real>, slack: real)
    requires |w| == |f| == |g|
    requires forall i :: 0 <= i < |w| ==> w[i] >= 0.0 && f[i] <= g[i] + slack
    ensures WeightedSum(w, f) <= WeightedSum(w, g) + slack * Sum(w)
  {
    if w != [] {
      WeightedSumMonotone(w[1..], f[1..], g[1..], slack);
      NonNegative(w[0], g[0] + slack - f[0], w[0] * (g[0] + slack - f[0]));
      assert w[0] * f[0] <= w[0] * g[0] + slack * w[0];
      assert slack * Sum(w) == slack * w[0] + slack * Sum(w[1..]);
    }
  }

  function Sum(w: seq<real>): real {
    if w == [] then 0.0 else w[0] + Sum(w[1..])
  }

  /* The costs of a path. */

  function Speeds(intervals: seq<real>, c: seq<real>): seq<real>
    requires PathOf(intervals, c)
  {
    seq(|intervals|, i requires 0 <= i < |intervals| => Velocity(intervals, c, i))
  }

  function Accelerations(intervals: seq<real>, c: seq<real>): seq<real>
    requires PathOf(intervals, c) && |intervals| > 0
  {
    seq(|c|, k requires 0 <= k < |c| => Acceleration(intervals, c, k))
  }

  function SpeedExcessOf(s: Shot, c: seq<real>): real
    requires ValidShot(s) && |c| == s.Count()
  {
    Excess(Speeds(s.intervals, c), PAN_MAX_SPEED)
  }

  function AccelerationExcessOf(s: Shot, c: seq<real>): real
    requires ValidShot(s) && |c| == s.Count()
  {
    Excess(Accelerations(s.intervals, c), PAN_MAX_ACCELERATION)
  }

  /** Distance outside the seed's deadzone. */
  function Outside(s: Shot, c: seq<real>, i: nat): real
    requires ValidShot(s) && |c| == s.Count() && i < s.Count()
  {
    Max(Abs(c[i] - s.seeds[i]) - s.radii[i], 0.0)
  }

  /** Trapezoidal duration weights of the frames: half of each adjacent interval. */
  function TrapezoidWeights(s: Shot): seq<real>
    requires ValidShot(s)
  {
    seq(s.Count(), i requires 0 <= i < s.Count() => Span(s.intervals, i))
  }

  function Ones(m: nat): seq<real> {
    seq(m, _ => 1.0)
  }

  /** The per-item amounts that passes 2 to 5 add up. */
  function Amounts(s: Shot, c: seq<real>, pass: nat): seq<real>
    requires ValidShot(s) && |c| == s.Count() && 2 <= pass <= 5
  {
    var n := s.Count();
    if pass == 2 then seq(n, i requires 0 <= i < n => Outside(s, c, i))
    else if pass == 3 then seq(n - 1, i requires 0 <= i < n - 1 => Abs(c[i + 1] - c[i]))
    else if pass == 4 then seq(n, k requires 0 <= k < n => Abs(VelocityChange(s.intervals, c, k)))
    else seq(n, i requires 0 <= i < n => Abs(c[i] - s.seeds[i]))
  }

  function PassWeights(s: Shot, pass: nat): seq<real>
    requires ValidShot(s) && 2 <= pass <= 5
  {
    if pass == 2 || pass == 5 then TrapezoidWeights(s)
    else if pass == 3 then Ones(s.Count() - 1)
    else Ones(s.Count())
  }

  /** The documented cost a pass minimizes: speed excess, acceleration excess, weighted
      distance outside the deadzone, travel, total velocity change, weighted seed deviation. */
  function Cost(s: Shot, c: seq<real>, pass: nat): real
    requires ValidShot(s) && |c| == s.Count() && pass <= 5
  {
    if pass == 0 then SpeedExcessOf(s, c)
    else if pass == 1 then AccelerationExcessOf(s, c)
    else WeightedSum(PassWeights(s, pass), Amounts(s, c, pass))
  }

  /* The objectives of the program. */

  function BlockStart(n: nat, pass: nat): nat
    requires n > 0 && 2 <= pass <= 5
  {
    if pass == 2 then DeadzoneColumn(n, 0)
    else if pass == 3 then TravelColumn(n, 0)
    else if pass == 4 then VariationColumn(n, 0)
    else DeviationColumn(n, 0)
  }

  function Block(start: nat, w: seq<real>): Coefficients
    decreases w
  {
    if w == [] then [] else [(start, w[0])] + Block(start + 1, w[1..])
  }

  function Objective(s: Shot, pass: nat): Coefficients
    requires ValidShot(s) && pass <= 5
  {
    if pass == 0 then [(SpeedColumn(s.Count()), 1.0)]
    else if pass == 1 then [(AccelerationColumn(s.Count()), 1.0)]
    else Block(BlockStart(s.Count(), pass), PassWeights(s, pass))
  }

  lemma {:induction false} BlockMeans(start: nat, w: seq<real>, x: seq<real>)
    requires start + |w| <= |x|
    ensures Within(Block(start, w), |x|)
    ensures Dot(Block(start, w), x) == WeightedSum(w, x[start..start + |w|])
    decreases w
  {
    if w != [] {
      BlockMeans(start + 1, w[1..], x);
      var block, f := Block(start, w), x[start..start + |w|];
      assert block[0] == (start, w[0]) && block[1..] == Block(start + 1, w[1..]);
      assert f[0] == x[start] && f[1..] == x[start + 1..start + 1 + |w[1..]|];
    }
  }

  lemma BlockFits(s: Shot, pass: nat)
    requires ValidShot(s) && 2 <= pass <= 5
    ensures BlockStart(s.Count(), pass) + |PassWeights(s, pass)| <= Columns(s.Count())
    ensures forall i :: 0 <= i < |PassWeights(s, pass)| ==> PassWeights(s, pass)[i] >= 0.0
    ensures pass == 5 ==> BlockStart(s.Count(), pass) + |PassWeights(s, pass)| == Columns(s.Count())
    ensures pass < 5 ==> BlockStart(s.Count(), pass) + |PassWeights(s, pass)| == BlockStart(s.Count(), pass + 1)
  {
  }

  lemma ObjectiveMeans(s: Shot, x: seq<real>, pass: nat)
    requires Vector(s, x) && pass <= 5
    ensures Within(Objective(s, pass), |x|)
    ensures pass == 0 ==> Dot(Objective(s, pass), x) == x[SpeedColumn(s.Count())]
    ensures pass == 1 ==> Dot(Objective(s, pass), x) == x[AccelerationColumn(s.Count())]
    ensures pass >= 2 ==>
              var start, w := BlockStart(s.Count(), pass), PassWeights(s, pass);
              start + |w| <= |x| && Dot(Objective(s, pass), x) == WeightedSum(w, x[start..start + |w|])
  {
    if pass >= 2 {
      BlockFits(s, pass);
      BlockMeans(BlockStart(s.Count(), pass), PassWeights(s, pass), x);
    } else {
      var o := Objective(s, pass);
      assert Dot(o, x) == o[0].1 * x[o[0].0] + Dot(o[1..], x);
    }
  }

  /** All auxiliaries are at least `-tolerance`, as their bounds demand up to a tolerance. */
  ghost predicate AuxiliariesNonNegative(s: Shot, x: seq<real>, tolerance: real)
    requires Vector(s, x)
  {
    forall j :: s.Count() <= j < |x| ==> x[j] >= -tolerance
  }

  /** What the tolerance can add up to over the items of a pass. */
  function Slack(s: Shot, pass: nat, tolerance: real): real
    requires ValidShot(s) && pass <= 5
  {
    2.0 * tolerance * (if pass < 2 then 1.0 else Sum(PassWeights(s, pass)))
  }

  lemma SpeedDominated(s: Shot, x: seq<real>, tolerance: real)
    requires Vector(s, x) && tolerance >= 0.0
    requires Meets(s, x, tolerance) && AuxiliariesNonNegative(s, x, tolerance)
    ensures SpeedExcessOf(s, Centers(s, x)) <= x[SpeedColumn(s.Count())] + 2.0 * tolerance
  {
    hide Velocity;
    var v, e := Speeds(s.intervals, Centers(s, x)), x[SpeedColumn(s.Count())] + 2.0 * tolerance;
    forall i | 0 <= i < |v| ensures Abs(v[i]) <= PAN_MAX_SPEED + e {
      assert MeetsInterval(s, x, i, tolerance);
    }
    ExcessLeast(v, PAN_MAX_SPEED, e);
  }

  lemma AccelerationDominated(s: Shot, x: seq<real>, tolerance: real)
    requires Vector(s, x) && tolerance >= 0.0
    requires Meets(s, x, tolerance) && AuxiliariesNonNegative(s, x, tolerance)
    ensures AccelerationExcessOf(s, Centers(s, x)) <= x[AccelerationColumn(s.Count())] + 2.0 * tolerance
  {
    hide Acceleration, VelocityChange;
    var v, e := Accelerations(s.intervals, Centers(s, x)), x[AccelerationColumn(s.Count())] + 2.0 * tolerance;
    forall k | 0 <= k < |v| ensures Abs(v[k]) <= PAN_MAX_ACCELERATION + e {
      assert MeetsTransition(s, x, k, tolerance);
    }
    ExcessLeast(v, PAN_MAX_ACCELERATION, e);
  }

  /** Every objective of a satisfying vector dominates the cost of its centers, up to what the
      tolerance can add up to. */
  lemma ObjectiveDominates(s: Shot, x: seq<real>, pass: nat, tolerance: real)
    requires Vector(s, x) && pass <= 5 && tolerance >= 0.0
    requires Meets(s, x, tolerance) && AuxiliariesNonNegative(s, x, tolerance)
    ensures Within(Objective(s, pass), |x|)
    ensures Cost(s, Centers(s, x), pass) <= Dot(Objective(s, pass), x) + Slack(s, pass, tolerance)
  {
    hide Meets, Amounts, PassWeights, Objective, SpeedExcessOf, AccelerationExcessOf, WeightedSum, Dot,
         AuxiliariesNonNegative, BlockStart;
    if pass == 0 {
      ObjectiveMeans(s, x, 0);
      SpeedDominated(s, x, tolerance);
    } else if pass == 1 {
      ObjectiveMeans(s, x, 1);
      AccelerationDominated(s, x, tolerance);
    } else {
      BlockDominates(s, x, pass, tolerance);
    }
  }

  lemma BlockDominates(s: Shot, x: seq<real>, pass: nat, tolerance: real)
    requires Vector(s, x) && 2 <= pass <= 5 && tolerance >= 0.0
    requires Meets(s, x, tolerance) && AuxiliariesNonNegative(s, x, tolerance)
    ensures Within(Objective(s, pass), |x|)
    ensures Cost(s, Centers(s, x), pass) <= Dot(Objective(s, pass), x) + Slack(s, pass, tolerance)
  {
    hide Meets, Amounts, PassWeights, Objective, WeightedSum, Dot, AuxiliariesNonNegative, BlockStart, Sum;
    var start, w := BlockStart(s.Count(), pass), PassWeights(s, pass);
    ObjectiveMeans(s, x, pass);
    BlockFits(s, pass);
    AmountsDominated(s, x, pass, tolerance);
    WeightedSumMonotone(w, Amounts(s, Centers(s, x), pass), x[start..start + |w|], 2.0 * tolerance);
  }

  lemma AmountsDominated(s: Shot, x: seq<real>, pass: nat, tolerance: real)
    requires Vector(s, x) && 2 <= pass <= 5 && tolerance >= 0.0
    requires Meets(s, x, tolerance) && AuxiliariesNonNegative(s, x, tolerance)
    ensures var a, start := Amounts(s, Centers(s, x), pass), BlockStart(s.Count(), pass);
            && |a| == |PassWeights(s, pass)| && start + |a| <= |x|
            && forall i :: 0 <= i < |a| ==> a[i] <= x[start..start + |a|][i] + 2.0 * tolerance
  {
    BlockFits(s, pass);
    var a, start := Amounts(s, Centers(s, x), pass), BlockStart(s.Count(), pass);
    forall i | 0 <= i < |a| ensures a[i] <= x[start..start + |a|][i] + 2.0 * tolerance {
      if pass == 2 || pass == 5 {
        assert MeetsFrame(s, x, i, tolerance);
      } else if pass == 3 {
        assert MeetsInterval(s, x, i, tolerance);
      } else {
        assert MeetsTransition(s, x, i, tolerance);
      }
    }
  }

  /* The least vector over given centers. */

  function Least(s: Shot, c: seq<real>, v: Variable): real
    requires ValidShot(s) && |c| == s.Count() && IsVariable(s.Count(), v)
  {
    match v
    case Center(i) => c[i]
    case SpeedExcess => SpeedExcessOf(s, c)
    case AccelerationExcess => AccelerationExcessOf(s, c)
    case Deadzone(i) => Outside(s, c, i)
    case Travel(i) => Abs(c[i + 1] - c[i])
    case Variation(k) => Abs(VelocityChange(s.intervals, c, k))
    case Deviation(i) => Abs(c[i] - s.seeds[i])
  }

  ghost function Extend(s: Shot, c: seq<real>): seq<real>
    requires ValidShot(s) && |c| == s.Count()
    ensures |Extend(s, c)| == Columns(s.Count())
  {
    seq(Columns(s.Count()), j requires 0 <= j < Columns(s.Count()) =>
      ColumnsPartition(s.Count(), SpeedExcess, j); Least(s, c, VariableAt(s.Count(), j)))
  }

  lemma ExtendAt(s: Shot, c: seq<real>, v: Variable)
    requires ValidShot(s) && |c| == s.Count() && IsVariable(s.Count(), v)
    ensures ColumnOf(s.Count(), v) < Columns(s.Count())
    ensures Extend(s, c)[ColumnOf(s.Count(), v)] == Least(s, c, v)
  {
    ColumnsPartition(s.Count(), v, 0);
    ColumnsPartition(s.Count(), v, ColumnOf(s.Count(), v));
  }

  /** Any centers extend to a vector that satisfies every row exactly, with non-negative
      auxiliaries: the program is feasible wherever its centers are. */
  lemma ExtendMeets(s: Shot, c: seq<real>)
    requires ValidShot(s) && |c| == s.Count()
    ensures Vector(s, Extend(s, c)) && Centers(s, Extend(s, c)) == c
    ensures Meets(s, Extend(s, c), 0.0) && AuxiliariesNonNegative(s, Extend(s, c), 0.0)
  {
    hide Extend;
    var x, n := Extend(s, c), s.Count();
    forall i: nat | i < n ensures x[i] == c[i] {
      ExtendAt(s, c, Center(i));
    }
    assert Centers(s, x) == c;
    ExcessLeast(Speeds(s.intervals, c), PAN_MAX_SPEED, SpeedExcessOf(s, c));
    ExcessLeast(Accelerations(s.intervals, c), PAN_MAX_ACCELERATION, AccelerationExcessOf(s, c));
    ExtendAt(s, c, SpeedExcess);
    ExtendAt(s, c, AccelerationExcess);
    forall i: nat | i < |s.intervals| ensures MeetsInterval(s, x, i, 0.0) {
      ExtendAt(s, c, Travel(i));
      assert Speeds(s.intervals, c)[i] == Velocity(s.intervals, c, i);
    }
    forall k: nat | k < n ensures MeetsTransition(s, x, k, 0.0) {
      ExtendAt(s, c, Variation(k));
      assert Accelerations(s.intervals, c)[k] == Acceleration(s.intervals, c, k);
    }
    forall i: nat | i < n ensures MeetsFrame(s, x, i, 0.0) {
      ExtendAt(s, c, Deviation(i));
      ExtendAt(s, c, Deadzone(i));
    }
    forall j: nat | n <= j < |x| ensures x[j] >= 0.0 {
      var v := VariableAt(n, j);
      ColumnsPartition(n, SpeedExcess, j);
      ColumnsPartition(n, v, j);
      ExtendAt(s, c, v);
    }
  }

  lemma ExtendBlock(s: Shot, c: seq<real>, pass: nat)
    requires ValidShot(s) && |c| == s.Count() && 2 <= pass <= 5
    ensures var a, start := Amounts(s, c, pass), BlockStart(s.Count(), pass);
            && |a| == |PassWeights(s, pass)| && start + |a| <= |Extend(s, c)|
            && Extend(s, c)[start..start + |a|] == a
  {
    hide Extend;
    var start, a, n := BlockStart(s.Count(), pass), Amounts(s, c, pass), s.Count();
    BlockFits(s, pass);
    forall i: nat | i < |a| ensures Extend(s, c)[start + i] == a[i] {
      ExtendAt(s, c, if pass == 2 then Deadzone(i) else if pass == 3 then Travel(i)
                     else if pass == 4 then Variation(i) else Deviation(i));
    }
  }

  /** On the least vector each objective is exactly the documented cost of the path. */
  lemma ExtendCosts(s: Shot, c: seq<real>, pass: nat)
    requires ValidShot(s) && |c| == s.Count() && pass <= 5
    ensures Within(Objective(s, pass), |Extend(s, c)|)
    ensures Dot(Objective(s, pass), Extend(s, c)) == Cost(s, c, pass)
  {
    hide Extend, Objective, Amounts, PassWeights, SpeedExcessOf, AccelerationExcessOf;
    ObjectiveMeans(s, Extend(s, c), pass);
    ExtendAt(s, c, SpeedExcess);
    ExtendAt(s, c, AccelerationExcess);
    if pass >= 2 {
      ExtendBlock(s, c, pass);
    }
  }
}
