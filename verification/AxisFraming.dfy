/** What the program of an axis measures a path against: each frame's own seed, its deadzone in
    pixels, and the time the frame stands for. */
module AxisFraming {
  import opened Prelude
  import opened AxisProgram
  import opened FramingCosts
  import opened AxisSolver
  import opened AxisGuarantees
  import opened Kinematics

  /** The pixel origins of a path of centers, for the crops of the axis. */
  ghost predicate OriginsOf(a: Axis, c: seq<real>, origins: seq<real>) {
    && |c| == |origins| == a.Count()
    && forall i :: 0 <= i < a.Count() ==> c[i] * a.source == origins[i] + a.extents[i] / 2.0
  }

  /** The seeds and radii of the program in pixels. */
  lemma ShotInPixels(a: Axis, i: nat)
    requires ValidAxis(a) && a.Count() >= 2 && i < a.Count()
    ensures ShotOf(a).intervals == a.intervals
    ensures ShotOf(a).seeds[i] * a.source == a.origins[i] + a.extents[i] / 2.0
    ensures ShotOf(a).radii[i] * a.source == 0.05 * a.extents[i]
  {
    var d, e := a.origins[i] + a.extents[i] / 2.0, DEAD_ZONE_FRACTION * a.extents[i];
    assert (d / a.source) * a.source == d && (e / a.source) * a.source == e;
  }

  lemma {:induction false} WeightedZero(w: seq<real>, f: seq<real>)
    requires |w| == |f| && forall i :: 0 <= i < |w| ==> w[i] > 0.0 && f[i] >= 0.0
    ensures WeightedSum(w, f) >= 0.0
    ensures WeightedSum(w, f) == 0.0 <==> forall i :: 0 <= i < |f| ==> f[i] == 0.0
  {
    if w != [] {
      WeightedZero(w[1..], f[1..]);
      NonNegative(w[0], f[0], w[0] * f[0]);
      if f[0] > 0.0 {
        Positive(w[0], f[0], w[0] * f[0]);
      }
      assert forall i :: 0 < i < |f| ==> f[i] == f[1..][i - 1];
      assert (forall i :: 0 <= i < |f| ==> f[i] == 0.0)
        <==> f[0] == 0.0 && forall i :: 0 <= i < |f[1..]| ==> f[1..][i] == 0.0;
    }
  }

  lemma {:induction false} WeightedConstant(w: seq<real>, f: seq<real>, d: real)
    requires |w| == |f| && forall i :: 0 <= i < |f| ==> f[i] == d
    ensures WeightedSum(w, f) == d * Sum(w)
  {
    if w != [] {
      WeightedConstant(w[1..], f[1..], d);
      assert d * Sum(w) == w[0] * d + d * Sum(w[1..]);
    }
  }

  lemma {:induction false} WeightedSingle(w: seq<real>, f: seq<real>, i: nat)
    requires |w| == |f| && i < |w| && forall k :: 0 <= k < |f| && k != i ==> f[k] == 0.0
    ensures WeightedSum(w, f) == w[i] * f[i]
  {
    if i > 0 {
      assert w[0] * f[0] == 0.0;
      WeightedSingle(w[1..], f[1..], i - 1);
    } else {
      WeightedConstant(w[1..], f[1..], 0.0);
    }
  }

  /* Costs over any seeds. */

  lemma WeightsPositive(s: Shot)
    requires ValidShot(s)
    ensures |TrapezoidWeights(s)| == s.Count()
    ensures forall i :: 0 <= i < s.Count() ==> TrapezoidWeights(s)[i] > 0.0
  {
  }

  lemma OutsideAt(s: Shot, c: seq<real>, i: nat)
    requires ValidShot(s) && |c| == s.Count() && i < s.Count()
    ensures Amounts(s, c, 2)[i] >= 0.0
    ensures Amounts(s, c, 2)[i] == 0.0 <==> Abs(c[i] - s.seeds[i]) <= s.radii[i]
  {
  }

  function Deviation(s: Shot, c: seq<real>, i: nat): real
    requires ValidShot(s) && |c| == s.Count() && i < s.Count()
  {
    Abs(c[i] - s.seeds[i])
  }

  lemma DeviationCost(s: Shot, c: seq<real>)
    requires ValidShot(s) && |c| == s.Count()
    ensures Cost(s, c, 5) == 0.0 <==> forall i: nat :: i < |c| ==> Deviation(s, c, i) == 0.0
  {
    WeightsPositive(s);
    var f := Amounts(s, c, 5);
    assert |f| == s.Count() && forall i: nat :: i < |f| ==> f[i] == Deviation(s, c, i);
    hide WeightedSum, TrapezoidWeights, Amounts;
    WeightedZero(TrapezoidWeights(s), f);
  }

  lemma OutsideCost(s: Shot, c: seq<real>)
    requires ValidShot(s) && |c| == s.Count()
    ensures Cost(s, c, 2) == 0.0 <==> forall i :: 0 <= i < |c| ==> Abs(c[i] - s.seeds[i]) <= s.radii[i]
  {
    WeightsPositive(s);
    var f := Amounts(s, c, 2);
    assert |f| == s.Count();
    forall i: nat | i < |f| ensures f[i] >= 0.0 && (f[i] == 0.0 <==> Abs(c[i] - s.seeds[i]) <= s.radii[i]) {
      OutsideAt(s, c, i);
    }
    hide WeightedSum, TrapezoidWeights, Amounts, Outside;
    WeightedZero(TrapezoidWeights(s), f);
  }

  /** Distances in centers are distances in pixels, scaled by the source. */
  lemma PixelDistance(source: real, x: real, y: real, p: real, q: real, r: real, d: real)
    requires source > 0.0 && x * source == p && y * source == q && r * source == d
    ensures x == y <==> p == q
    ensures Abs(x - y) <= r <==> Abs(p - q) <= d
  {
    assert (x - y) * source == p - q;
    Scaled(x - y, r, source);
    Scaled(y - x, r, source);
    Scaled(x - y, 0.0, source);
    Scaled(y - x, 0.0, source);
  }

  lemma Scaled(u: real, v: real, source: real)
    requires source > 0.0
    ensures u <= v <==> u * source <= v * source
  {
    if u <= v {
      NonNegative(v - u, source, v * source - u * source);
    } else {
      Positive(u - v, source, u * source - v * source);
    }
  }

  lemma ExactDistance(source: real, u: real, p: real, d: real, pixels: real)
    requires source > 0.0 && u * source == p && d * source == pixels && Abs(p) == pixels
    ensures Abs(u) == d
  {
    Scaled(u, d, source);
    Scaled(d, u, source);
    Scaled(-u, d, source);
    Scaled(d, -u, source);
    Scaled(u, 0.0, source);
    Scaled(-u, 0.0, source);
  }

  /* Costs in pixels. */

  /** Seeds that move are followed each for itself: the last cost of a path is zero exactly when
      every frame's origin is its own seed's. */
  lemma SeedCost(a: Axis, c: seq<real>, origins: seq<real>)
    requires ValidAxis(a) && a.Count() >= 2 && OriginsOf(a, c, origins)
    ensures Cost(ShotOf(a), c, 5) == 0.0 <==> origins == a.origins
  {
    hide ValidShot, Deviation, Cost;
    forall i: nat | i < a.Count() ensures Deviation(ShotOf(a), c, i) == 0.0 <==> origins[i] == a.origins[i] {
      SeedAt(a, c, origins, i);
    }
    hide ShotOf;
    DeviationCost(ShotOf(a), c);
  }

  lemma SeedAt(a: Axis, c: seq<real>, origins: seq<real>, i: nat)
    requires ValidAxis(a) && a.Count() >= 2 && OriginsOf(a, c, origins) && i < a.Count()
    ensures Deviation(ShotOf(a), c, i) == 0.0 <==> origins[i] == a.origins[i]
  {
    ShotInPixels(a, i);
    PixelDistance(a.source, c[i], ShotOf(a).seeds[i], origins[i] + a.extents[i] / 2.0,
                  a.origins[i] + a.extents[i] / 2.0, 0.0, 0.0);
  }

  /** The deadzone in pixels: the third cost is zero exactly when every origin lies within five
      percent of its crop's extent of its seed's. */
  lemma DeadzoneCost(a: Axis, c: seq<real>, origins: seq<real>)
    requires ValidAxis(a) && a.Count() >= 2 && OriginsOf(a, c, origins)
    ensures Cost(ShotOf(a), c, 2) == 0.0
       <==> forall i :: 0 <= i < a.Count() ==> Abs(origins[i] - a.origins[i]) <= 0.05 * a.extents[i]
  {
    hide Cost;
    var s := ShotOf(a);
    OutsideCost(s, c);
    forall i: nat | i < a.Count()
      ensures Abs(c[i] - s.seeds[i]) <= s.radii[i] <==> Abs(origins[i] - a.origins[i]) <= 0.05 * a.extents[i]
    {
      ShotInPixels(a, i);
      PixelDistance(a.source, c[i], s.seeds[i], origins[i] + a.extents[i] / 2.0, a.origins[i] + a.extents[i] / 2.0,
                    s.radii[i], 0.05 * a.extents[i]);
    }
  }

  lemma DistanceAt(a: Axis, c: seq<real>, origins: seq<real>, i: nat, d: real, pixels: real)
    requires ValidAxis(a) && a.Count() >= 2 && OriginsOf(a, c, origins) && i < a.Count()
    requires d * a.source == pixels && Abs(origins[i] - a.origins[i]) == pixels
    ensures Deviation(ShotOf(a), c, i) == d
  {
    ShotInPixels(a, i);
    ExactDistance(a.source, c[i] - ShotOf(a).seeds[i], origins[i] - a.origins[i], d, pixels);
  }

  lemma ConstantCost(s: Shot, c: seq<real>, d: real)
    requires ValidShot(s) && |c| == s.Count() && forall i: nat :: i < s.Count() ==> Deviation(s, c, i) == d
    ensures Cost(s, c, 5) == d * Sum(s.intervals)
  {
    var f := Amounts(s, c, 5);
    assert |f| == s.Count();
    forall i: nat | i < |f| ensures f[i] == d {
      assert f[i] == Deviation(s, c, i);
    }
    WeightsPositive(s);
    SpansCover(s);
    hide WeightedSum, TrapezoidWeights, Amounts, Sum, Deviation;
    WeightedConstant(TrapezoidWeights(s), f, d);
  }

  /** The time a frame stands for: half of the interval before it and half of the one after. */
  function TimeOf(intervals: seq<real>, i: nat): real
    requires i <= |intervals|
  {
    (if i == 0 then 0.0 else intervals[i - 1] / 2.0) + (if i == |intervals| then 0.0 else intervals[i] / 2.0)
  }

  /** A path that keeps its distance: as many pixels away from every seed, weighted by the time
      each frame stands for, is that distance for the length of the shot. */
  lemma DistanceCost(a: Axis, c: seq<real>, origins: seq<real>, pixels: real)
    requires ValidAxis(a) && a.Count() >= 2 && OriginsOf(a, c, origins)
    requires forall i :: 0 <= i < a.Count() ==> Abs(origins[i] - a.origins[i]) == pixels
    ensures Cost(ShotOf(a), c, 5) == pixels / a.source * Sum(a.intervals)
  {
    hide ValidShot, Deviation, Cost, Sum;
    var s, d := ShotOf(a), pixels / a.source;
    assert d * a.source == pixels;
    ShotInPixels(a, 0);
    forall i: nat | i < a.Count() ensures Deviation(s, c, i) == d {
      DistanceAt(a, c, origins, i, d, pixels);
    }
    hide ShotOf, OriginsOf, ValidAxis;
    ConstantCost(s, c, d);
  }

  /* All the weights. */

  lemma {:induction false} OnesSum(f: seq<real>)
    ensures WeightedSum(Ones(|f|), f) == Sum(f)
  {
    if f != [] {
      OnesSum(f[1..]);
      assert Ones(|f|)[1..] == Ones(|f[1..]|);
    }
  }

  lemma {:induction false} ProductsSum(w: seq<real>, f: seq<real>, products: seq<real>)
    requires |w| == |f| == |products| && forall i :: 0 <= i < |w| ==> products[i] == w[i] * f[i]
    ensures WeightedSum(w, f) == Sum(products)
  {
    if w != [] {
      ProductsSum(w[1..], f[1..], products[1..]);
    }
  }

  /** The products that a weighted pass adds up: each frame's distance from its seed, or what it is
      outside its deadzone by, for the time the frame stands for. */
  function TimedDistances(s: Shot, c: seq<real>, beyond: bool): seq<real>
    requires ValidShot(s) && |c| == s.Count()
  {
    seq(s.Count(), i requires 0 <= i < s.Count() =>
      TimeOf(s.intervals, i) * (if beyond then Max(Abs(c[i] - s.seeds[i]) - s.radii[i], 0.0) else Abs(c[i] - s.seeds[i])))
  }

  lemma TimedProducts(s: Shot, c: seq<real>, beyond: bool)
    requires ValidShot(s) && |c| == s.Count()
    ensures Cost(s, c, if beyond then 2 else 5) == Sum(TimedDistances(s, c, beyond))
  {
    var w, f, products := TrapezoidWeights(s), Amounts(s, c, if beyond then 2 else 5), TimedDistances(s, c, beyond);
    assert |w| == |f| == |products|;
    forall i | 0 <= i < |w| ensures products[i] == w[i] * f[i] {
      assert w[i] == TimeOf(s.intervals, i);
    }
    hide WeightedSum, TrapezoidWeights, Amounts, TimedDistances, Sum;
    ProductsSum(w, f, products);
  }

  lemma StepSums(s: Shot, c: seq<real>)
    requires ValidShot(s) && |c| == s.Count()
    ensures Cost(s, c, 3) == Sum(seq(s.Count() - 1, i requires 0 <= i < s.Count() - 1 => Abs(c[i + 1] - c[i])))
    ensures Cost(s, c, 4)
         == Sum(seq(s.Count(), k requires 0 <= k < s.Count() => Abs(VelocityChange(s.intervals, c, k))))
  {
    var steps := seq(s.Count() - 1, i requires 0 <= i < s.Count() - 1 => Abs(c[i + 1] - c[i]));
    var changes := seq(s.Count(), k requires 0 <= k < s.Count() => Abs(VelocityChange(s.intervals, c, k)));
    assert Amounts(s, c, 3) == steps && Amounts(s, c, 4) == changes;
    hide WeightedSum, Amounts, Sum, Ones, VelocityChange;
    OnesSum(steps);
    OnesSum(changes);
  }

  /** The last four costs of any path: the time it is outside its deadzones weighted by how far,
      the distance it travels, the sum of its velocity changes, both rests included, and the time
      it is off its seeds weighted by how far. */
  lemma CostsAreSums(s: Shot, c: seq<real>)
    requires ValidShot(s) && |c| == s.Count()
    ensures Cost(s, c, 2) == Sum(TimedDistances(s, c, true))
    ensures Cost(s, c, 3) == Sum(seq(s.Count() - 1, i requires 0 <= i < s.Count() - 1 => Abs(c[i + 1] - c[i])))
    ensures Cost(s, c, 4)
         == Sum(seq(s.Count(), k requires 0 <= k < s.Count() => Abs(VelocityChange(s.intervals, c, k))))
    ensures Cost(s, c, 5) == Sum(TimedDistances(s, c, false))
  {
    TimedProducts(s, c, true);
    TimedProducts(s, c, false);
    StepSums(s, c);
  }

  /* A uniform pan. */

  lemma {:induction false} WeightedProportional(f: seq<real>, g: seq<real>, k: real)
    requires |f| == |g| && forall i :: 0 <= i < |f| ==> f[i] == k * g[i]
    ensures WeightedSum(Ones(|f|), f) == k * Sum(g)
  {
    if f != [] {
      WeightedProportional(f[1..], g[1..], k);
      assert Ones(|f|)[1..] == Ones(|f[1..]|);
      assert k * Sum(g) == k * g[0] + k * Sum(g[1..]);
    }
  }

  lemma WeightedEnds(f: seq<real>)
    requires |f| >= 2 && forall i :: 0 < i < |f| - 1 ==> f[i] == 0.0
    ensures WeightedSum(Ones(|f|), f) == f[0] + f[|f| - 1]
  {
    WeightedSingle(Ones(|f|)[1..], f[1..], |f| - 2);
  }

  ghost predicate Uniform(s: Shot, c: seq<real>, v: real)
    requires ValidShot(s)
  {
    |c| == s.Count() && forall i :: 0 <= i < |s.intervals| ==> c[i + 1] - c[i] == v * s.intervals[i]
  }

  lemma Undone(v: real, d: real)
    requires d > 0.0
    ensures (v * d) / d == v
  {
  }

  lemma UniformVelocity(s: Shot, c: seq<real>, v: real, i: nat)
    requires ValidShot(s) && Uniform(s, c, v) && i < |s.intervals|
    ensures Velocity(s.intervals, c, i) == v
    ensures Abs(c[i + 1] - c[i]) == Abs(v) * s.intervals[i]
  {
    Undone(v, s.intervals[i]);
    if v >= 0.0 {
      NonNegative(v, s.intervals[i], v * s.intervals[i]);
    } else {
      Positive(-v, s.intervals[i], -v * s.intervals[i]);
    }
  }

  lemma UniformExcess(values: seq<real>, limit: real, v: real)
    requires values != [] && forall i :: 0 <= i < |values| ==> values[i] == v
    ensures Excess(values, limit) == Max(0.0, Abs(v) - limit)
  {
    var e := Max(0.0, Abs(v) - limit);
    hide Excess;
    ExcessLeast(values, limit, e);
    ExcessLeast(values, limit, Excess(values, limit));
    assert values[0] == v;
  }

  lemma UniformSpeed(s: Shot, c: seq<real>, v: real)
    requires ValidShot(s) && Uniform(s, c, v)
    ensures Cost(s, c, 0) == Max(0.0, Abs(v) - 0.25)
  {
    hide Excess, Velocity;
    var speeds := Speeds(s.intervals, c);
    forall i: nat | i < |s.intervals| ensures speeds[i] == v {
      UniformVelocity(s, c, v, i);
    }
    UniformExcess(speeds, 0.25, v);
  }

  lemma TravelAt(s: Shot, c: seq<real>, v: real, i: nat)
    requires ValidShot(s) && Uniform(s, c, v) && i < |s.intervals|
    ensures |Amounts(s, c, 3)| == |s.intervals| && Amounts(s, c, 3)[i] == Abs(v) * s.intervals[i]
  {
    UniformVelocity(s, c, v, i);
  }

  lemma UniformTravel(s: Shot, c: seq<real>, v: real)
    requires ValidShot(s) && Uniform(s, c, v)
    ensures Cost(s, c, 3) == Abs(v) * Sum(s.intervals)
  {
    hide WeightedSum, Amounts, Sum, Ones;
    TravelAt(s, c, v, 0);
    forall i: nat | i < |s.intervals| ensures Amounts(s, c, 3)[i] == Abs(v) * s.intervals[i] {
      TravelAt(s, c, v, i);
    }
    WeightedProportional(Amounts(s, c, 3), s.intervals, Abs(v));
  }

  lemma UniformChange(s: Shot, c: seq<real>, v: real, k: nat)
    requires ValidShot(s) && Uniform(s, c, v) && k < s.Count()
    ensures VelocityChange(s.intervals, c, k) == if k == 0 then v else if k == |s.intervals| then -v else 0.0
  {
    if k > 0 {
      UniformVelocity(s, c, v, k - 1);
    }
    if k < |s.intervals| {
      UniformVelocity(s, c, v, k);
    }
  }

  lemma UniformVariation(s: Shot, c: seq<real>, v: real)
    requires ValidShot(s) && Uniform(s, c, v)
    ensures Cost(s, c, 4) == 2.0 * Abs(v)
  {
    var f := Amounts(s, c, 4);
    forall k: nat | k < |f| ensures f[k] == if k == 0 || k == |s.intervals| then Abs(v) else 0.0 {
      UniformChange(s, c, v, k);
    }
    hide WeightedSum, VelocityChange, Velocity;
    WeightedEnds(f);
  }

  /** What a pan of constant velocity costs: its speed above a quarter of the source a second, the
      distance it travels, and one start and one stop of that velocity. */
  lemma UniformCosts(s: Shot, c: seq<real>, v: real)
    requires ValidShot(s) && Uniform(s, c, v)
    ensures Cost(s, c, 0) == Max(0.0, Abs(v) - 0.25)
    ensures Cost(s, c, 3) == Abs(v) * Sum(s.intervals)
    ensures Cost(s, c, 4) == 2.0 * Abs(v)
  {
    UniformSpeed(s, c, v);
    UniformTravel(s, c, v);
    UniformVariation(s, c, v);
  }

  lemma QuotientTimes(v: real, span: real)
    requires span > 0.0
    ensures (v / span) * span == v && (-(v / span)) * span == -v
  {
  }

  lemma QuotientBelow(v: real, span: real, limit: real)
    requires span > 0.0
    ensures Abs(v / span) <= limit <==> Abs(v) <= limit * span
  {
    QuotientTimes(v, span);
    Scaled(v / span, limit, span);
    Scaled(-(v / span), limit, span);
  }

  /** A velocity reached from rest at the given rate within the given time. */
  predicate Reached(v: real, limit: real, time: real) {
    Abs(v) <= limit * time
  }

  lemma UniformRate(s: Shot, c: seq<real>, v: real, k: nat, limit: real)
    requires ValidShot(s) && Uniform(s, c, v) && k < s.Count() && limit >= 0.0
    ensures Abs(Acceleration(s.intervals, c, k)) <= limit
       <==> (k == 0 || k == |s.intervals| ==> Reached(v, limit, Span(s.intervals, k)))
  {
    UniformChange(s, c, v, k);
    SpanPositive(s.intervals, c, k);
    QuotientBelow(VelocityChange(s.intervals, c, k), Span(s.intervals, k), limit);
    NonNegative(limit, Span(s.intervals, k), limit * Span(s.intervals, k));
    hide VelocityChange, Uniform, Span;
  }

  /** The second cost reads the start and the stop of a pan: half an extent per second squared,
      relaxed by `e`, for half of the first and half of the last interval. */
  lemma UniformAcceleration(s: Shot, c: seq<real>, v: real, e: real)
    requires ValidShot(s) && Uniform(s, c, v) && e >= 0.0
    ensures Cost(s, c, 1) <= e
       <==> && Reached(v, 0.5 + e, s.intervals[0] / 2.0)
            && Reached(v, 0.5 + e, s.intervals[|s.intervals| - 1] / 2.0)
  {
    var n := |s.intervals|;
    AccelerationLimit(s, c, e);
    assert Span(s.intervals, 0) == s.intervals[0] / 2.0 && Span(s.intervals, n) == s.intervals[n - 1] / 2.0;
    hide Cost, Acceleration, Span, Uniform, Reached;
    forall k: nat | k <= n
      ensures Abs(Acceleration(s.intervals, c, k)) <= 0.5 + e
         <==> (k == 0 || k == n ==> Reached(v, 0.5 + e, Span(s.intervals, k)))
    {
      UniformRate(s, c, v, k, 0.5 + e);
    }
    UniformRate(s, c, v, 0, 0.5 + e);
    UniformRate(s, c, v, n, 0.5 + e);
  }

  lemma AccelerationLimit(s: Shot, c: seq<real>, e: real)
    requires ValidShot(s) && |c| == s.Count() && e >= 0.0
    ensures Cost(s, c, 1) <= e <==> forall k: nat :: k <= |s.intervals| ==> Abs(Acceleration(s.intervals, c, k)) <= 0.5 + e
  {
    var f := Accelerations(s.intervals, c);
    hide Excess, Acceleration;
    ExcessLeast(f, 0.5, e);
    if Cost(s, c, 1) <= e {
      forall k: nat | k <= |s.intervals| ensures Abs(Acceleration(s.intervals, c, k)) <= 0.5 + e {
        assert f[k] == Acceleration(s.intervals, c, k);
      }
    }
  }

  /* What is done with an answer. */

  /** The repaired origin of a frame is the legal origin nearest to the one asked for, and its
      center is the one the rows are checked on; the auxiliaries are left as they were. */
  lemma RepairNearest(a: Axis, solution: seq<real>, i: nat, origin: real)
    requires ValidAxis(a) && a.Count() >= 2 && |solution| == Columns(a.Count()) && i < a.Count()
    ensures var r := RepairOf(a, solution);
            && |r.origins| == a.Count() && |r.vector| == |solution|
            && a.legal[i].originLower <= r.origins[i] <= a.legal[i].originUpper
            && r.vector[i] * a.source == r.origins[i] + a.extents[i] / 2.0
            && r.vector[a.Count()..] == solution[a.Count()..]
            && (a.legal[i].originLower <= origin <= a.legal[i].originUpper ==>
                  var asked := solution[i] * a.source - a.extents[i] / 2.0;
                  Abs(r.origins[i] - asked) <= Abs(origin - asked))
  {
    RepairLegal(a, solution);
    var d := RepairOf(a, solution).origins[i] + a.extents[i] / 2.0;
    assert d / a.source * a.source == d;
    assert RepairOf(a, solution).vector[i] == RepairOf(a, solution).vector[..a.Count()][i];
    assert solution[..a.Count()][i] == solution[i];
  }

  /** Which error an answer is refused with: whether it was given at all, called optimal, sized and
      valued as claimed, near the legal centers, and then within rows and bounds once repaired. */
  lemma RefusalMeans(a: Axis, optima: seq<real>, pass: nat, answer: Answer)
    requires ValidAxis(a) && a.Count() >= 2 && |optima| == pass <= 5
    ensures RowsWithin(ProgramAt(a, optima).rows, Columns(a.Count()))
    ensures var p, r := ProgramAt(a, optima), Checked(a, ProgramAt(a, optima), pass, answer);
            && (r == Failure(SolverRaised) <==> answer.Raised?)
            && (r == Failure(NotOptimal) <==> answer.Finished? && !answer.optimal)
            && (answer.Finished? && answer.optimal ==>
                  var x, n := answer.solution, a.Count();
                  var valued := |x| == Columns(n) && Abs(Value(a, pass, x) - answer.optimum) <= 0.00000001;
                  && (r == Failure(InconsistentAnswer) <==> !valued)
                  && (valued ==>
                        var near := forall i :: 0 <= i < n ==>
                          a.legal[i].centerLower - 0.00000001 <= x[i] <= a.legal[i].centerUpper + 0.00000001;
                        && (r == Failure(CenterOutsideInterval) <==> !near)
                        && (near ==>
                              var y := RepairOf(a, x).vector;
                              && |y| == |x|
                              && (r == Failure(ConstraintViolated) <==> !Satisfies(p.rows, y, 0.00000001))
                              && (r == Failure(BoundViolated)
                                  <==> Satisfies(p.rows, y, 0.00000001) && !InBounds(p.bounds, y, 0.00000001)))))
  {
    hide ProgramAt, RepairOf, ShotOf, Satisfies, InBounds, SpeedsWithin, AccelerationsWithin, Objective, Dot, RowsWithin,
         LegalOrigins, Feasible;
    CheckedMeans(a, optima, pass, answer);
    if answer.Finished? && |answer.solution| == Columns(a.Count()) {
      RepairLegal(a, answer.solution);
      RepairableMeans(a, answer.solution);
      FeasibleParts(ProgramAt(a, optima), RepairOf(a, answer.solution).vector);
    }
  }

  lemma RepairableMeans(a: Axis, x: seq<real>)
    requires ValidAxis(a) && |x| >= a.Count()
    ensures Repairable(a, x[..a.Count()])
       <==> forall i :: 0 <= i < a.Count() ==>
              a.legal[i].centerLower - 0.00000001 <= x[i] <= a.legal[i].centerUpper + 0.00000001
  {
    assert forall i :: 0 <= i < a.Count() ==> x[..a.Count()][i] == x[i];
  }

  lemma FeasibleParts(p: Program, x: seq<real>)
    requires |p.bounds| == |x| && RowsWithin(p.rows, |x|)
    ensures Feasible(p, x, TOLERANCE) <==> Satisfies(p.rows, x, TOLERANCE) && InBounds(p.bounds, x, TOLERANCE)
  {
  }
}
