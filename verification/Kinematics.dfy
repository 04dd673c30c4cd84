/**
 The motion of a whole path: the conservation laws of its velocity changes, and the agreement
 of the per-frame traces and the job report with the accelerations of the linear program.
 */
module Kinematics {
  import opened Prelude
  import opened Geometry
  import opened SeedPlanner
  import opened AxisProgram
  import opened FramingCosts
  import opened AxisSolver

  /* ---------------------------------------------------------------------------------------
     Conservation.
     --------------------------------------------------------------------------------------- */

  function VelocityChanges(intervals: seq<real>, c: seq<real>): seq<real>
    requires PathOf(intervals, c)
  {
    seq(|c|, k requires 0 <= k < |c| => VelocityChange(intervals, c, k))
  }

  function Spans(intervals: seq<real>): seq<real> {
    seq(|intervals| + 1, k requires 0 <= k <= |intervals| => Span(intervals, k))
  }

  lemma {:induction false} SumAppend(a: seq<real>, b: seq<real>)
    ensures Sum(a + b) == Sum(a) + Sum(b)
  {
    if a == [] {
      assert a + b == b;
    } else {
      SumAppend(a[1..], b);
      assert (a + b)[1..] == a[1..] + b;
    }
  }

  lemma SumStep(a: seq<real>, n: nat)
    requires n < |a|
    ensures Sum(a[..n + 1]) == Sum(a[..n]) + a[n]
  {
    assert a[..n + 1] == a[..n] + [a[n]];
    SumAppend(a[..n], [a[n]]);
  }

  /** Up to any transition, the changes add up to the velocity after it. */
  lemma {:induction false} ChangesTelescope(intervals: seq<real>, c: seq<real>, n: nat)
    requires PathOf(intervals, c) && n <= |intervals|
    ensures Sum(VelocityChanges(intervals, c)[..n + 1])
         == if n < |intervals| then Velocity(intervals, c, n) else 0.0
  {
    hide Velocity;
    var changes := VelocityChanges(intervals, c);
    SumStep(changes, n);
    if n > 0 {
      ChangesTelescope(intervals, c, n - 1);
    } else {
      assert changes[..0] == [];
    }
  }

  /** A shot that starts and ends at rest gains no velocity: its signed changes cancel. */
  lemma ChangesCancel(intervals: seq<real>, c: seq<real>)
    requires PathOf(intervals, c)
    ensures Sum(VelocityChanges(intervals, c)) == 0.0
  {
    ChangesTelescope(intervals, c, |intervals|);
    assert VelocityChanges(intervals, c)[..|intervals| + 1] == VelocityChanges(intervals, c);
  }

  lemma {:induction false} SpansAccumulate(intervals: seq<real>, n: nat)
    requires n <= |intervals|
    ensures Sum(Spans(intervals)[..n + 1])
         == Sum(intervals[..n]) + if n < |intervals| then intervals[n] / 2.0 else 0.0
  {
    var spans := Spans(intervals);
    SumStep(spans, n);
    if n > 0 {
      SpansAccumulate(intervals, n - 1);
      SumStep(intervals, n - 1);
    } else {
      assert spans[..0] == [] == intervals[..0];
    }
  }

  /** The transition spans, which are also the trapezoid weights, cover the shot exactly. */
  lemma SpansCover(s: Shot)
    requires ValidShot(s)
    ensures TrapezoidWeights(s) == Spans(s.intervals)
    ensures Sum(TrapezoidWeights(s)) == Sum(s.intervals)
  {
    var n := |s.intervals|;
    SpansAccumulate(s.intervals, n);
    assert Spans(s.intervals)[..n + 1] == Spans(s.intervals) && s.intervals[..n] == s.intervals;
  }

  /** So the accelerations, weighted by their spans, cancel too. */
  lemma AccelerationsCancel(s: Shot, c: seq<real>)
    requires ValidShot(s) && |c| == s.Count()
    ensures WeightedSum(TrapezoidWeights(s), Accelerations(s.intervals, c)) == 0.0
  {
    var w, f, v := TrapezoidWeights(s), Accelerations(s.intervals, c), VelocityChanges(s.intervals, c);
    hide VelocityChange, Span;
    forall k | 0 <= k < |c| ensures w[k] * f[k] == v[k] {
      SpanPositive(s.intervals, c, k);
      assert Span(s.intervals, k) * (v[k] / Span(s.intervals, k)) == v[k];
    }
    WeightedSumIs(w, f, v);
    ChangesCancel(s.intervals, c);
  }

  lemma {:induction false} WeightedSumIs(w: seq<real>, f: seq<real>, v: seq<real>)
    requires |w| == |f| == |v| && forall k :: 0 <= k < |w| ==> w[k] * f[k] == v[k]
    ensures WeightedSum(w, f) == Sum(v)
  {
    if w != [] {
      WeightedSumIs(w[1..], f[1..], v[1..]);
    }
  }

  /* ---------------------------------------------------------------------------------------
     Largest magnitudes.
     --------------------------------------------------------------------------------------- */

  function Largest(values: seq<real>): real {
    if values == [] then 0.0 else Max(Largest(values[..|values| - 1]), Abs(values[|values| - 1]))
  }

  lemma {:induction false} LargestMeans(values: seq<real>, m: real)
    ensures Largest(values) <= m <==> m >= 0.0 && forall i :: 0 <= i < |values| ==> Abs(values[i]) <= m
    ensures Largest(values) >= 0.0
  {
    if values != [] {
      var init, last := values[..|values| - 1], values[|values| - 1];
      LargestMeans(init, m);
      assert forall i :: 0 <= i < |init| ==> init[i] == values[i];
      assert (forall i :: 0 <= i < |values| ==> Abs(values[i]) <= m)
        <==> Abs(last) <= m && forall i :: 0 <= i < |init| ==> Abs(init[i]) <= m;
    }
  }

  lemma LargestStep(values: seq<real>, n: nat)
    requires n < |values|
    ensures Largest(values[..n + 1]) == Max(Largest(values[..n]), Abs(values[n]))
  {
    assert values[..n + 1][..n] == values[..n];
  }

  /** The excess over a limit is what the largest magnitude has above it. */
  lemma LargestExcess(values: seq<real>, limit: real)
    requires limit >= 0.0
    ensures Excess(values, limit) == Max(0.0, Largest(values) - limit)
  {
    var e := Max(0.0, Largest(values) - limit);
    hide Excess, Largest;
    LargestMeans(values, limit + e);
    ExcessLeast(values, limit, e);
    ExcessLeast(values, limit, Excess(values, limit));
    LargestMeans(values, limit + Excess(values, limit));
  }

  /* ---------------------------------------------------------------------------------------
     Crop paths.
     --------------------------------------------------------------------------------------- */

  /** A quantity per pan axis, in source extents. */
  datatype Pan = Pan(x: real, y: real) {
    function Magnitude(): real { Max(Abs(x), Abs(y)) }
  }

  /** Seconds between consecutive timestamps. */
  function Intervals(timestamps: seq<int>): seq<real> {
    seq(if timestamps == [] then 0 else |timestamps| - 1,
        i requires 0 <= i < |timestamps| - 1 => (timestamps[i + 1] - timestamps[i]) as real / 1000.0)
  }

  ghost predicate Timed(crops: seq<Rect>, timestamps: seq<int>) {
    && |crops| == |timestamps| > 0
    && forall i :: 0 <= i < |timestamps| - 1 ==> timestamps[i] < timestamps[i + 1]
  }

  function CentersX(f: Frame, crops: seq<Rect>): seq<real>
    requires ValidFrame(f)
  {
    seq(|crops|, i requires 0 <= i < |crops| => crops[i].CenterX() / f.width)
  }

  function CentersY(f: Frame, crops: seq<Rect>): seq<real>
    requires ValidFrame(f)
  {
    seq(|crops|, i requires 0 <= i < |crops| => crops[i].CenterY() / f.height)
  }

  /** Pan velocity between two crops, as traces and report compute it. */
  function PanVelocity(f: Frame, before: Rect, after: Rect, dt: real): Pan
    requires ValidFrame(f) && dt != 0.0
  {
    Pan((after.CenterX() - before.CenterX()) / f.width / dt, (after.CenterY() - before.CenterY()) / f.height / dt)
  }

  function PanAt(f: Frame, crops: seq<Rect>, intervals: seq<real>, i: nat): Pan
    requires ValidFrame(f) && |crops| == |intervals| + 1 && i < |intervals| && intervals[i] > 0.0
  {
    Pan(Velocity(intervals, CentersX(f, crops), i), Velocity(intervals, CentersY(f, crops), i))
  }

  lemma Normalized(a: real, b: real, extent: real, dt: real)
    requires extent > 0.0 && dt > 0.0
    ensures (a - b) / extent / dt == (a / extent - b / extent) / dt
  {
    assert (a - b) / extent == a / extent - b / extent;
  }

  /** It is the velocity of the normalized centers. */
  lemma PanVelocityMeans(f: Frame, crops: seq<Rect>, intervals: seq<real>, i: nat)
    requires ValidFrame(f) && |crops| == |intervals| + 1 && i < |intervals| && intervals[i] > 0.0
    ensures PanVelocity(f, crops[i], crops[i + 1], intervals[i]) == PanAt(f, crops, intervals, i)
  {
    Normalized(crops[i + 1].CenterX(), crops[i].CenterX(), f.width, intervals[i]);
    Normalized(crops[i + 1].CenterY(), crops[i].CenterY(), f.height, intervals[i]);
  }

  ghost predicate TimedPath(f: Frame, crops: seq<Rect>, intervals: seq<real>) {
    ValidFrame(f) && PathOf(intervals, CentersX(f, crops)) && PathOf(intervals, CentersY(f, crops))
  }

  lemma TimedIsPath(f: Frame, crops: seq<Rect>, timestamps: seq<int>)
    requires ValidFrame(f) && Timed(crops, timestamps)
    ensures TimedPath(f, crops, Intervals(timestamps))
  {
    var iv := Intervals(timestamps);
    forall i | 0 <= i < |iv| ensures iv[i] > 0.0 {
      assert timestamps[i] < timestamps[i + 1];
    }
  }

  function TopSpeed(f: Frame, crops: seq<Rect>, intervals: seq<real>): real
    requires TimedPath(f, crops, intervals)
  {
    Max(Largest(Speeds(intervals, CentersX(f, crops))), Largest(Speeds(intervals, CentersY(f, crops))))
  }

  function TopAcceleration(f: Frame, crops: seq<Rect>, intervals: seq<real>): real
    requires TimedPath(f, crops, intervals) && |intervals| > 0
  {
    Max(Largest(Accelerations(intervals, CentersX(f, crops))), Largest(Accelerations(intervals, CentersY(f, crops))))
  }

  /* ---------------------------------------------------------------------------------------
     The job report.
     --------------------------------------------------------------------------------------- */

  const CLOSE := 0.000000000001

  function Reported(excess: real): real {
    if excess <= TOLERANCE || Abs(excess - TOLERANCE) <= CLOSE then 0.0 else excess
  }

  /** Reported in full once it is beyond the tolerances, and not before. */
  lemma ReportedMeans(value: real, limit: real)
    ensures Reported(Max(0.0, value - limit))
         == if value > limit + 0.00000001 + 0.000000000001 then value - limit else 0.0
  {
  }

  datatype Report = Report(maxSpeed: real, maxAcceleration: real, speedExcess: real, accelerationExcess: real)

  /** The acceleration between two velocities over half the sum of their intervals. */
  function Rate(v: real, w: real, dt: real, before: real): real
    requires dt + before != 0.0
  {
    2.0 * Abs(v - w) / (dt + before)
  }

  lemma ReportedStep(intervals: seq<real>, c: seq<real>, k: nat)
    requires PathOf(intervals, c) && k < |intervals|
    ensures var v, dt := Velocity(intervals, c, k), intervals[k];
            var w, before := if k > 0 then Velocity(intervals, c, k - 1) else 0.0, if k > 0 then intervals[k - 1] else 0.0;
            Rate(v, w, dt, before) == Abs(Acceleration(intervals, c, k))
  {
    hide Velocity;
    SpanPositive(intervals, c, k);
    AbsQuotient(VelocityChange(intervals, c, k), Span(intervals, k));
  }

  lemma ReportedRest(intervals: seq<real>, c: seq<real>)
    requires PathOf(intervals, c) && |intervals| > 0
    ensures var last := |intervals| - 1;
            Rate(Velocity(intervals, c, last), 0.0, intervals[last], 0.0) == Abs(Acceleration(intervals, c, |intervals|))
  {
    hide Velocity;
    AbsQuotient(VelocityChange(intervals, c, |intervals|), Span(intervals, |intervals|));
  }

  lemma AbsQuotient(v: real, span: real)
    requires span > 0.0
    ensures Abs(v / span) == 2.0 * Abs(v) / (2.0 * span)
  {
    if v < 0.0 {
      NonNegative(-v, 1.0 / span, -v / span);
    } else {
      NonNegative(v, 1.0 / span, v / span);
    }
  }

  /** What one iteration adds to the maxima of an axis. */
  lemma AxisStep(intervals: seq<real>, c: seq<real>, k: nat)
    requires PathOf(intervals, c) && k < |intervals|
    ensures var v, dt := Velocity(intervals, c, k), intervals[k];
            var w, before := if k > 0 then Velocity(intervals, c, k - 1) else 0.0, if k > 0 then intervals[k - 1] else 0.0;
            && Largest(Speeds(intervals, c)[..k + 1]) == Max(Largest(Speeds(intervals, c)[..k]), Abs(v))
            && Largest(Accelerations(intervals, c)[..k + 1])
               == Max(Largest(Accelerations(intervals, c)[..k]), Rate(v, w, dt, before))
  {
    hide Velocity, Acceleration, Largest, Rate;
    ReportedStep(intervals, c, k);
    LargestStep(Speeds(intervals, c), k);
    LargestStep(Accelerations(intervals, c), k);
  }

  /** What the final rest adds. */
  lemma AxisRest(intervals: seq<real>, c: seq<real>)
    requires PathOf(intervals, c) && |intervals| > 0
    ensures var last := |intervals| - 1;
            && Largest(Accelerations(intervals, c))
               == Max(Largest(Accelerations(intervals, c)[..last + 1]),
                      Rate(Velocity(intervals, c, last), 0.0, intervals[last], 0.0))
            && Largest(Speeds(intervals, c)) == Largest(Speeds(intervals, c)[..last + 1])
  {
    hide Velocity, Acceleration, Largest, Rate;
    var a, s := Accelerations(intervals, c), Speeds(intervals, c);
    ReportedRest(intervals, c);
    LargestStep(a, |intervals|);
    assert a[..|intervals| + 1] == a && s[..|intervals|] == s;
  }

  /** The maxima over the first `m` intervals of both axes, and over the transitions before them. */
  ghost predicate AxesSoFar(f: Frame, crops: seq<Rect>, intervals: seq<real>, m: nat, speed: real, acceleration: real)
    requires TimedPath(f, crops, intervals) && 0 < m <= |intervals|
  {
    var x, y := CentersX(f, crops), CentersY(f, crops);
    && speed == Max(Largest(Speeds(intervals, x)[..m]), Largest(Speeds(intervals, y)[..m]))
    && acceleration == Max(Largest(Accelerations(intervals, x)[..m]), Largest(Accelerations(intervals, y)[..m]))
  }

  lemma AxesAdvance(f: Frame, crops: seq<Rect>, intervals: seq<real>, m: nat, speed: real, acceleration: real, w: Pan, before: real)
    requires TimedPath(f, crops, intervals) && |crops| == |intervals| + 1 && 0 < m <= |intervals|
    requires w == if m > 1 then PanAt(f, crops, intervals, m - 2) else Pan(0.0, 0.0)
    requires before == if m > 1 then intervals[m - 2] else 0.0
    requires if m > 1 then AxesSoFar(f, crops, intervals, m - 1, speed, acceleration)
             else speed == 0.0 && acceleration == 0.0
    ensures intervals[m - 1] + before != 0.0
    ensures var v, dt := PanAt(f, crops, intervals, m - 1), intervals[m - 1];
            AxesSoFar(f, crops, intervals, m,
                      Max(Max(speed, Abs(v.x)), Abs(v.y)),
                      Max(Max(acceleration, Rate(v.x, w.x, dt, before)), Rate(v.y, w.y, dt, before)))
  {
    hide Velocity, Acceleration, Largest, Speeds, Accelerations, CentersX, CentersY, Rate;
    AxisStep(intervals, CentersX(f, crops), m - 1);
    AxisStep(intervals, CentersY(f, crops), m - 1);
    if m == 1 {
      NothingSoFar(intervals, CentersX(f, crops));
      NothingSoFar(intervals, CentersY(f, crops));
    }
  }

  lemma AxesEnd(f: Frame, crops: seq<Rect>, intervals: seq<real>, speed: real, acceleration: real)
    requires TimedPath(f, crops, intervals) && |crops| == |intervals| + 1 && |intervals| > 0
    requires AxesSoFar(f, crops, intervals, |intervals|, speed, acceleration)
    ensures var v, dt := PanAt(f, crops, intervals, |intervals| - 1), intervals[|intervals| - 1];
            && dt != 0.0 && speed == TopSpeed(f, crops, intervals)
            && Max(Max(acceleration, Rate(v.x, 0.0, dt, 0.0)), Rate(v.y, 0.0, dt, 0.0)) == TopAcceleration(f, crops, intervals)
  {
    hide Velocity, Acceleration, Largest, Speeds, Accelerations, CentersX, CentersY, Rate;
    AxisRest(intervals, CentersX(f, crops));
    AxisRest(intervals, CentersY(f, crops));
  }

  /** The report's loop over the rendered path: its maxima are those of the accelerations and
      speeds the linear program limits, both axes and both rests included. */
  method MotionReport(f: Frame, crops: seq<Rect>, timestamps: seq<int>) returns (r: Report)
    requires ValidFrame(f) && Timed(crops, timestamps)
    ensures TimedPath(f, crops, Intervals(timestamps))
    ensures r.maxSpeed == TopSpeed(f, crops, Intervals(timestamps))
    ensures r.maxAcceleration
         == if |crops| > 1 then TopAcceleration(f, crops, Intervals(timestamps)) else 0.0
    ensures r.speedExcess == Reported(Max(0.0, r.maxSpeed - PAN_MAX_SPEED))
    ensures r.accelerationExcess == Reported(Max(0.0, r.maxAcceleration - PAN_MAX_ACCELERATION))
    ensures r.speedExcess == if r.maxSpeed > 0.25 + 0.00000001 + 0.000000000001 then r.maxSpeed - 0.25 else 0.0
    ensures r.accelerationExcess
         == if r.maxAcceleration > 0.5 + 0.00000001 + 0.000000000001 then r.maxAcceleration - 0.5 else 0.0
  {
    TimedIsPath(f, crops, timestamps);
    hide PanVelocity, PanAt, AxesSoFar, TopAcceleration, Largest, Speeds, CentersX, CentersY, Reported, Rate;
    ghost var iv := Intervals(timestamps);
    var previous: Option<Rect> := None;
    var previousTimestamp := 0;
    var previousVelocity := Pan(0.0, 0.0);
    var previousDt := 0.0;
    var maxSpeed, maxAcceleration := 0.0, 0.0;
    for i := 0 to |crops|
      invariant if i == 0 then previous.None?
                else previous == Some(crops[i - 1]) && previousTimestamp == timestamps[i - 1]
      invariant previousDt == if i >= 2 then iv[i - 2] else 0.0
      invariant previousVelocity == if i >= 2 then PanAt(f, crops, iv, i - 2) else Pan(0.0, 0.0)
      invariant i < 2 ==> maxSpeed == 0.0 && maxAcceleration == 0.0
      invariant i >= 2 ==> AxesSoFar(f, crops, iv, i - 1, maxSpeed, maxAcceleration)
    {
      if previous.Some? {
        var dt := (timestamps[i] - previousTimestamp) as real / 1000.0;
        assert dt == iv[i - 1];
        var velocity := PanVelocity(f, previous.value, crops[i], dt);
        PanVelocityMeans(f, crops, iv, i - 1);
        AxesAdvance(f, crops, iv, i, maxSpeed, maxAcceleration, previousVelocity, previousDt);
        maxSpeed := Max(Max(maxSpeed, Abs(velocity.x)), Abs(velocity.y));
        maxAcceleration := Max(Max(maxAcceleration, Rate(velocity.x, previousVelocity.x, dt, previousDt)),
                               Rate(velocity.y, previousVelocity.y, dt, previousDt));
        previousVelocity, previousDt := velocity, dt;
      }
      previous := Some(crops[i]);
      previousTimestamp := timestamps[i];
    }
    if previousDt != 0.0 {
      AxesEnd(f, crops, iv, maxSpeed, maxAcceleration);
      maxAcceleration := Max(Max(maxAcceleration, Rate(previousVelocity.x, 0.0, previousDt, 0.0)),
                             Rate(previousVelocity.y, 0.0, previousDt, 0.0));
    } else {
      NoSpeeds(iv, CentersX(f, crops));
      NoSpeeds(iv, CentersY(f, crops));
    }
    r := Report(maxSpeed, maxAcceleration, Reported(Max(0.0, maxSpeed - PAN_MAX_SPEED)),
                Reported(Max(0.0, maxAcceleration - PAN_MAX_ACCELERATION)));
    ReportedMeans(maxSpeed, 0.25);
    ReportedMeans(maxAcceleration, 0.5);
  }

  lemma NothingSoFar(intervals: seq<real>, c: seq<real>)
    requires PathOf(intervals, c) && |intervals| > 0
    ensures Largest(Speeds(intervals, c)[..0]) == 0.0 && Largest(Accelerations(intervals, c)[..0]) == 0.0
  {
  }

  lemma NoSpeeds(intervals: seq<real>, c: seq<real>)
    requires PathOf(intervals, c) && |intervals| == 0
    ensures Largest(Speeds(intervals, c)) == 0.0
  {
  }

  /* ---------------------------------------------------------------------------------------
     Frame traces.
     --------------------------------------------------------------------------------------- */

  /** What a frame's trace records of the motion: velocity into the frame, acceleration between
      the two intervals before it, and the magnitudes its limit flags compare. */
  datatype FrameMotion = FrameMotion(
    velocity: Option<Pan>, acceleration: Option<Pan>, speed: real, accelerationMagnitude: real)

  function PanVelocities(f: Frame, crops: seq<Rect>, intervals: seq<real>): seq<Pan>
    requires TimedPath(f, crops, intervals)
  {
    seq(|intervals|, i requires 0 <= i < |intervals| => PanVelocity(f, crops[i], crops[i + 1], intervals[i]))
  }

  function PanAcceleration(v: Pan, w: Pan, dt: real): Pan
    requires dt != 0.0
  {
    Pan((v.x - w.x) / dt, (v.y - w.y) / dt)
  }

  function MotionAt(velocities: seq<Pan>, intervals: seq<real>, i: nat): FrameMotion
    requires |velocities| == |intervals| && i <= |intervals|
    requires forall j :: 0 <= j < |intervals| ==> intervals[j] > 0.0
  {
    var count := |intervals| + 1;
    var velocity := if i > 0 then Some(velocities[i - 1]) else None;
    var acceleration :=
      if i >= 2 then Some(PanAcceleration(velocities[i - 1], velocities[i - 2], (intervals[i - 2] + intervals[i - 1]) / 2.0))
      else None;
    var start := if count > 1 && i == 0 then velocities[0].Magnitude() * 2.0 / intervals[0] else 0.0;
    var boundary := if count > 1 && i == count - 1
                    then Max(start, velocities[count - 2].Magnitude() * 2.0 / intervals[count - 2]) else start;
    FrameMotion(velocity, acceleration,
                if velocity.Some? then velocity.value.Magnitude() else 0.0,
                Max(boundary, if acceleration.Some? then acceleration.value.Magnitude() else 0.0))
  }

  predicate LimitExceeded(value: real, limit: real) {
    var boundary := limit + TOLERANCE;
    value > boundary && !(Abs(value - boundary) <= CLOSE)
  }

  /** The acceleration magnitude of transition `k` over both axes. */
  function TransitionMagnitude(f: Frame, crops: seq<Rect>, intervals: seq<real>, k: nat): real
    requires TimedPath(f, crops, intervals) && |intervals| > 0 && k <= |intervals|
  {
    Pan(Acceleration(intervals, CentersX(f, crops), k), Acceleration(intervals, CentersY(f, crops), k)).Magnitude()
  }

  function SpeedMagnitude(f: Frame, crops: seq<Rect>, intervals: seq<real>, i: nat): real
    requires TimedPath(f, crops, intervals) && i < |intervals|
  {
    PanAt(f, crops, intervals, i).Magnitude()
  }

  lemma EdgeQuotient(v: Pan, dt: real)
    requires dt > 0.0
    ensures v.Magnitude() * 2.0 / dt == Max(Rate(v.x, 0.0, dt, 0.0), Rate(v.y, 0.0, dt, 0.0))
  {
    QuotientOrdered(2.0 * Abs(v.x), 2.0 * Abs(v.y), dt);
  }

  lemma QuotientOrdered(p: real, q: real, d: real)
    requires d > 0.0
    ensures p <= q <==> p / d <= q / d
  {
    var x, y := p / d, q / d;
    assert p == d * x && q == d * y;
    if x <= y {
      NonNegative(d, y - x, d * (y - x));
    } else {
      Positive(d, x - y, d * (x - y));
    }
  }

  lemma RestMagnitude(f: Frame, crops: seq<Rect>, intervals: seq<real>, k: nat)
    requires TimedPath(f, crops, intervals) && |intervals| > 0 && (k == 0 || k == |intervals|)
    ensures var i := if k == 0 then 0 else k - 1;
            PanVelocities(f, crops, intervals)[i].Magnitude() * 2.0 / intervals[i] == TransitionMagnitude(f, crops, intervals, k)
  {
    hide Velocity, Acceleration, Rate, PanVelocity;
    var i := if k == 0 then 0 else k - 1;
    PanVelocityMeans(f, crops, intervals, i);
    EdgeQuotient(PanAt(f, crops, intervals, i), intervals[i]);
    if k == 0 {
      ReportedStep(intervals, CentersX(f, crops), 0);
      ReportedStep(intervals, CentersY(f, crops), 0);
    } else {
      ReportedRest(intervals, CentersX(f, crops));
      ReportedRest(intervals, CentersY(f, crops));
    }
  }

  lemma InnerMagnitude(f: Frame, crops: seq<Rect>, intervals: seq<real>, k: nat)
    requires TimedPath(f, crops, intervals) && 0 < k < |intervals|
    ensures var v := PanVelocities(f, crops, intervals);
            PanAcceleration(v[k], v[k - 1], (intervals[k - 1] + intervals[k]) / 2.0).Magnitude()
            == TransitionMagnitude(f, crops, intervals, k)
  {
    hide Velocity, PanVelocity;
    PanVelocityMeans(f, crops, intervals, k);
    PanVelocityMeans(f, crops, intervals, k - 1);
  }

  /** Each frame's trace carries the magnitude of the transitions charged to it: the first
      frame the start from rest, a later one the change between the two intervals before it,
      and the last one the final rest as well. */
  lemma MotionMeans(f: Frame, crops: seq<Rect>, intervals: seq<real>, i: nat)
    requires TimedPath(f, crops, intervals) && |intervals| > 0 && i <= |intervals|
    ensures var m := MotionAt(PanVelocities(f, crops, intervals), intervals, i);
            && m.speed == (if i > 0 then SpeedMagnitude(f, crops, intervals, i - 1) else 0.0)
            && m.accelerationMagnitude
               == Max(if i == 0 then TransitionMagnitude(f, crops, intervals, 0)
                      else if i == |intervals| then TransitionMagnitude(f, crops, intervals, i) else 0.0,
                      if i >= 2 then TransitionMagnitude(f, crops, intervals, i - 1) else 0.0)
  {
    hide Acceleration, PanVelocity, PanAt, PanAcceleration;
    if i == 0 || i == |intervals| {
      RestMagnitude(f, crops, intervals, i);
    }
    if i >= 2 {
      InnerMagnitude(f, crops, intervals, i - 1);
    }
    if i > 0 {
      PanVelocityMeans(f, crops, intervals, i - 1);
    }
  }

  function FrameMagnitude(f: Frame, crops: seq<Rect>, intervals: seq<real>, i: nat): real
    requires TimedPath(f, crops, intervals) && i <= |intervals|
  {
    MotionAt(PanVelocities(f, crops, intervals), intervals, i).accelerationMagnitude
  }

  function FrameSpeed(f: Frame, crops: seq<Rect>, intervals: seq<real>, i: nat): real
    requires TimedPath(f, crops, intervals) && i <= |intervals|
  {
    MotionAt(PanVelocities(f, crops, intervals), intervals, i).speed
  }

  /** A bound holds of every frame's acceleration exactly when it holds of the maximum. */
  lemma FramesBounded(f: Frame, crops: seq<Rect>, intervals: seq<real>, bound: real)
    requires TimedPath(f, crops, intervals) && |intervals| > 0 && bound >= 0.0
    ensures TopAcceleration(f, crops, intervals) <= bound
       <==> forall i: nat :: i <= |intervals| ==> FrameMagnitude(f, crops, intervals, i) <= bound
  {
    TransitionsBounded(f, crops, intervals, bound);
    hide TopAcceleration, TransitionMagnitude, SpeedMagnitude, MotionAt;
    var n := |intervals|;
    if TopAcceleration(f, crops, intervals) <= bound {
      forall i: nat | i <= n ensures FrameMagnitude(f, crops, intervals, i) <= bound {
        MotionMeans(f, crops, intervals, i);
      }
    }
    if forall i: nat :: i <= n ==> FrameMagnitude(f, crops, intervals, i) <= bound {
      forall k: nat | k <= n ensures TransitionMagnitude(f, crops, intervals, k) <= bound {
        var frame := if 0 < k < n then k + 1 else k;
        MotionMeans(f, crops, intervals, frame);
        assert FrameMagnitude(f, crops, intervals, frame) <= bound;
      }
    }
  }

  lemma FrameSpeedsBounded(f: Frame, crops: seq<Rect>, intervals: seq<real>, bound: real)
    requires TimedPath(f, crops, intervals) && |intervals| > 0 && bound >= 0.0
    ensures TopSpeed(f, crops, intervals) <= bound
       <==> forall i: nat :: i <= |intervals| ==> FrameSpeed(f, crops, intervals, i) <= bound
  {
    SpeedsBounded(f, crops, intervals, bound);
    hide TopSpeed, TransitionMagnitude, SpeedMagnitude, MotionAt;
    var n := |intervals|;
    if TopSpeed(f, crops, intervals) <= bound {
      forall i: nat | i <= n ensures FrameSpeed(f, crops, intervals, i) <= bound {
        MotionMeans(f, crops, intervals, i);
      }
    }
    if forall i: nat :: i <= n ==> FrameSpeed(f, crops, intervals, i) <= bound {
      forall k: nat | k < n ensures SpeedMagnitude(f, crops, intervals, k) <= bound {
        MotionMeans(f, crops, intervals, k + 1);
        assert FrameSpeed(f, crops, intervals, k + 1) <= bound;
      }
    }
  }

  lemma TransitionsBounded(f: Frame, crops: seq<Rect>, intervals: seq<real>, bound: real)
    requires TimedPath(f, crops, intervals) && |intervals| > 0 && bound >= 0.0
    ensures TopAcceleration(f, crops, intervals) <= bound
       <==> forall k: nat :: k <= |intervals| ==> TransitionMagnitude(f, crops, intervals, k) <= bound
  {
    hide Acceleration, Largest;
    var x, y := CentersX(f, crops), CentersY(f, crops);
    var ax, ay := Accelerations(intervals, x), Accelerations(intervals, y);
    LargestMeans(ax, bound);
    LargestMeans(ay, bound);
    assert forall k: nat :: k <= |intervals| ==>
      TransitionMagnitude(f, crops, intervals, k) == Max(Abs(ax[k]), Abs(ay[k]));
  }

  lemma SpeedsBounded(f: Frame, crops: seq<Rect>, intervals: seq<real>, bound: real)
    requires TimedPath(f, crops, intervals) && |intervals| > 0 && bound >= 0.0
    ensures TopSpeed(f, crops, intervals) <= bound
       <==> forall i: nat :: i < |intervals| ==> SpeedMagnitude(f, crops, intervals, i) <= bound
  {
    hide Velocity, Largest;
    var x, y := CentersX(f, crops), CentersY(f, crops);
    var sx, sy := Speeds(intervals, x), Speeds(intervals, y);
    LargestMeans(sx, bound);
    LargestMeans(sy, bound);
    assert forall i: nat :: i < |intervals| ==>
      SpeedMagnitude(f, crops, intervals, i) == Max(Abs(sx[i]), Abs(sy[i]));
  }

  /** The job reports an excess exactly when some frame is flagged, for both limits. */
  lemma FlagsAgree(f: Frame, crops: seq<Rect>, intervals: seq<real>)
    requires TimedPath(f, crops, intervals) && |intervals| > 0
    ensures Reported(Max(0.0, TopAcceleration(f, crops, intervals) - PAN_MAX_ACCELERATION)) > 0.0
       <==> exists i: nat :: i <= |intervals|
              && LimitExceeded(FrameMagnitude(f, crops, intervals, i), PAN_MAX_ACCELERATION)
    ensures Reported(Max(0.0, TopSpeed(f, crops, intervals) - PAN_MAX_SPEED)) > 0.0
       <==> exists i: nat :: i <= |intervals| && LimitExceeded(FrameSpeed(f, crops, intervals, i), PAN_MAX_SPEED)
  {
    hide FrameMagnitude, FrameSpeed, TopAcceleration, TopSpeed;
    FramesBounded(f, crops, intervals, PAN_MAX_ACCELERATION + TOLERANCE + CLOSE);
    FrameSpeedsBounded(f, crops, intervals, PAN_MAX_SPEED + TOLERANCE + CLOSE);
  }

  /** The largest excesses the report starts from are the first two framing costs of the path,
      over both axes. */
  lemma ReportedAreCosts(f: Frame, crops: seq<Rect>, x: Shot, y: Shot)
    requires TimedPath(f, crops, x.intervals) && ValidShot(x) && ValidShot(y)
    requires x.intervals == y.intervals && x.Count() == y.Count() == |crops|
    ensures Max(0.0, TopSpeed(f, crops, x.intervals) - PAN_MAX_SPEED)
         == Max(Cost(x, CentersX(f, crops), 0), Cost(y, CentersY(f, crops), 0))
    ensures Max(0.0, TopAcceleration(f, crops, x.intervals) - PAN_MAX_ACCELERATION)
         == Max(Cost(x, CentersX(f, crops), 1), Cost(y, CentersY(f, crops), 1))
  {
    var cx, cy, iv := CentersX(f, crops), CentersY(f, crops), x.intervals;
    hide Largest, Excess, Speeds, Accelerations, CentersX, CentersY;
    LargestExcess(Speeds(iv, cx), PAN_MAX_SPEED);
    LargestExcess(Speeds(iv, cy), PAN_MAX_SPEED);
    LargestExcess(Accelerations(iv, cx), PAN_MAX_ACCELERATION);
    LargestExcess(Accelerations(iv, cy), PAN_MAX_ACCELERATION);
  }
}
