/**
 The linear program of one camera axis (`LookaheadCropPlanner._solve_axis`): its column
 blocks, its sparse rows in the order they are generated, and what they mean.
 */
module AxisProgram {
  import opened Prelude

  /** The data of one axis of a shot of at least two frames: seconds between frames, seed
      centers in source units, and the radius of each seed's deadzone. */
  datatype Shot = Shot(intervals: seq<real>, seeds: seq<real>, radii: seq<real>) {
    function Count(): nat { |seeds| }
  }

  ghost predicate ValidShot(s: Shot) {
    && s.Count() >= 2 && |s.intervals| == s.Count() - 1 && |s.radii| == s.Count()
    && (forall i :: 0 <= i < |s.intervals| ==> s.intervals[i] > 0.0)
    && (forall i :: 0 <= i < |s.radii| ==> s.radii[i] >= 0.0)
  }

  const PAN_MAX_SPEED := 0.25
  const PAN_MAX_ACCELERATION := 0.5

  /* Columns: the centers, two excesses, and four blocks of auxiliaries. */

  function SpeedColumn(n: nat): nat { n }

  function AccelerationColumn(n: nat): nat { n + 1 }

  function DeadzoneColumn(n: nat, i: nat): nat { n + 2 + i }

  function TravelColumn(n: nat, i: nat): nat { 2 * n + 2 + i }

  function VariationColumn(n: nat, i: nat): nat
    requires n > 0
  {
    3 * n + 1 + i
  }

  function DeviationColumn(n: nat, i: nat): nat
    requires n > 0
  {
    4 * n + 1 + i
  }

  function Columns(n: nat): nat
    requires n > 0
  {
    5 * n + 1
  }

  /** What a column stands for. */
  datatype Variable =
    | Center(frame: nat) | SpeedExcess | AccelerationExcess
    | Deadzone(frame: nat) | Travel(interval: nat) | Variation(transition: nat) | Deviation(frame: nat)

  ghost predicate IsVariable(n: nat, v: Variable) {
    match v
    case Center(i) => i < n
    case SpeedExcess => true
    case AccelerationExcess => true
    case Deadzone(i) => i < n
    case Travel(i) => i + 1 < n
    case Variation(i) => i < n
    case Deviation(i) => i < n
  }

  function ColumnOf(n: nat, v: Variable): nat
    requires n > 0
  {
    match v
    case Center(i) => i
    case SpeedExcess => SpeedColumn(n)
    case AccelerationExcess => AccelerationColumn(n)
    case Deadzone(i) => DeadzoneColumn(n, i)
    case Travel(i) => TravelColumn(n, i)
    case Variation(i) => VariationColumn(n, i)
    case Deviation(i) => DeviationColumn(n, i)
  }

  function VariableAt(n: nat, column: nat): Variable
    requires n > 0 && column < Columns(n)
  {
    if column < n then Center(column)
    else if column == n then SpeedExcess
    else if column == n + 1 then AccelerationExcess
    else if column < 2 * n + 2 then Deadzone(column - n - 2)
    else if column < 3 * n + 1 then Travel(column - 2 * n - 2)
    else if column < 4 * n + 1 then Variation(column - 3 * n - 1)
    else Deviation(column - 4 * n - 1)
  }

  /** The blocks partition the columns: variables and columns correspond one to one. */
  lemma ColumnsPartition(n: nat, v: Variable, column: nat)
    requires n > 0 && IsVariable(n, v) && column < Columns(n)
    ensures ColumnOf(n, v) < Columns(n)
    ensures IsVariable(n, VariableAt(n, column))
    ensures ColumnOf(n, v) == column <==> VariableAt(n, column) == v
  {
  }

  /* Sparse rows. */

  type Coefficients = seq<(nat, real)>

  datatype Row = Row(coefficients: Coefficients, limit: real)

  predicate Within(c: Coefficients, columns: nat) {
    forall i :: 0 <= i < |c| ==> c[i].0 < columns
  }

  function Dot(c: Coefficients, x: seq<real>): real
    requires Within(c, |x|)
  {
    if c == [] then 0.0 else c[0].1 * x[c[0].0] + Dot(c[1..], x)
  }

  /** Velocity changes over each transition, with their time spans, both rests included. */
  datatype Transition = Transition(coefficients: Coefficients, duration: real)

  function TransitionAt(intervals: seq<real>, k: nat): Transition
    requires |intervals| > 0 && k <= |intervals|
    requires forall i :: 0 <= i < |intervals| ==> intervals[i] != 0.0
  {
    if k == 0 then
      var first := intervals[0];
      Transition([(0, -1.0 / first), (1, 1.0 / first)], first / 2.0)
    else if k == |intervals| then
      var last := intervals[k - 1];
      Transition([(k - 1, 1.0 / last), (k, -1.0 / last)], last / 2.0)
    else
      var previous, current := intervals[k - 1], intervals[k];
      Transition([(k - 1, 1.0 / previous), (k, -1.0 / previous - 1.0 / current), (k + 1, 1.0 / current)],
                 (previous + current) / 2.0)
  }

  function Scaled(c: Coefficients, factor: real): Coefficients {
    if c == [] then [] else [(c[0].0, factor * c[0].1)] + Scaled(c[1..], factor)
  }

  /* The rows of one interval, one transition and one frame, in generation order. */

  function SpeedRow(s: Shot, i: nat, sign: real): Row
    requires i < |s.intervals| && s.intervals[i] != 0.0
  {
    Row([(i, -sign / s.intervals[i]), (i + 1, sign / s.intervals[i]), (SpeedColumn(s.Count()), -1.0)], PAN_MAX_SPEED)
  }

  function TravelRow(s: Shot, i: nat, sign: real): Row {
    Row([(i, -sign), (i + 1, sign), (TravelColumn(s.Count(), i), -1.0)], 0.0)
  }

  function IntervalRows(s: Shot, i: nat): seq<Row>
    requires i < |s.intervals| && s.intervals[i] != 0.0
  {
    [SpeedRow(s, i, 1.0), TravelRow(s, i, 1.0), SpeedRow(s, i, -1.0), TravelRow(s, i, -1.0)]
  }

  function AccelerationRow(s: Shot, t: Transition, sign: real): Row
    requires t.duration != 0.0
  {
    Row(Scaled(t.coefficients, sign / t.duration) + [(AccelerationColumn(s.Count()), -1.0)], PAN_MAX_ACCELERATION)
  }

  function VariationRow(s: Shot, t: Transition, k: nat, sign: real): Row
    requires s.Count() > 0
  {
    Row(Scaled(t.coefficients, sign) + [(VariationColumn(s.Count(), k), -1.0)], 0.0)
  }

  lemma DurationPositive(s: Shot, k: nat)
    requires ValidShot(s) && k < s.Count()
    ensures TransitionAt(s.intervals, k).duration > 0.0
  {
  }

  function TransitionRows(s: Shot, k: nat): seq<Row>
    requires ValidShot(s) && k < s.Count()
  {
    DurationPositive(s, k);
    var t := TransitionAt(s.intervals, k);
    [AccelerationRow(s, t, 1.0), VariationRow(s, t, k, 1.0), AccelerationRow(s, t, -1.0), VariationRow(s, t, k, -1.0)]
  }

  function FrameRows(s: Shot, i: nat): seq<Row>
    requires i < s.Count() && i < |s.radii|
  {
    var deviation := DeviationColumn(s.Count(), i);
    [Row([(deviation, 1.0), (DeadzoneColumn(s.Count(), i), -1.0)], s.radii[i]),
     Row([(i, 1.0), (deviation, -1.0)], s.seeds[i]),
     Row([(i, -1.0), (deviation, -1.0)], -s.seeds[i])]
  }

  function IntervalBlock(s: Shot, m: nat): seq<Row>
    requires ValidShot(s) && m <= |s.intervals|
  {
    if m == 0 then [] else IntervalBlock(s, m - 1) + IntervalRows(s, m - 1)
  }

  function TransitionBlock(s: Shot, m: nat): seq<Row>
    requires ValidShot(s) && m <= s.Count()
  {
    if m == 0 then [] else TransitionBlock(s, m - 1) + TransitionRows(s, m - 1)
  }

  function FrameBlock(s: Shot, m: nat): seq<Row>
    requires ValidShot(s) && m <= s.Count()
  {
    if m == 0 then [] else FrameBlock(s, m - 1) + FrameRows(s, m - 1)
  }

  function AllRows(s: Shot): seq<Row>
    requires ValidShot(s)
  {
    IntervalBlock(s, |s.intervals|) + TransitionBlock(s, s.Count()) + FrameBlock(s, s.Count())
  }

  /** The loops that generate the rows. */
  method Assemble(s: Shot) returns (rows: seq<Row>)
    requires ValidShot(s)
    ensures rows == AllRows(s)
  {
    rows := [];
    for i := 0 to |s.intervals|
      invariant rows == IntervalBlock(s, i)
    {
      rows := rows + [SpeedRow(s, i, 1.0), TravelRow(s, i, 1.0)];
      rows := rows + [SpeedRow(s, i, -1.0), TravelRow(s, i, -1.0)];
    }
    for k := 0 to s.Count()
      invariant rows == IntervalBlock(s, |s.intervals|) + TransitionBlock(s, k)
    {
      DurationPositive(s, k);
      var t := TransitionAt(s.intervals, k);
      rows := rows + [AccelerationRow(s, t, 1.0), VariationRow(s, t, k, 1.0)];
      rows := rows + [AccelerationRow(s, t, -1.0), VariationRow(s, t, k, -1.0)];
    }
    for i := 0 to s.Count()
      invariant rows == IntervalBlock(s, |s.intervals|) + TransitionBlock(s, s.Count()) + FrameBlock(s, i)
    {
      rows := rows + FrameRows(s, i);
    }
  }

  /* ---------------------------------------------------------------------------------------
     What the rows mean.
     --------------------------------------------------------------------------------------- */

  predicate RowWithin(r: Row, columns: nat) {
    Within(r.coefficients, columns)
  }

  predicate RowsWithin(rows: seq<Row>, columns: nat) {
    forall r :: r in rows ==> RowWithin(r, columns)
  }

  /** A vector satisfies every row up to a tolerance. */
  predicate Satisfies(rows: seq<Row>, x: seq<real>, tolerance: real)
    requires RowsWithin(rows, |x|)
  {
    forall r :: r in rows ==> Dot(r.coefficients, x) - r.limit <= tolerance
  }

  lemma {:induction false} DotAppend(a: Coefficients, b: Coefficients, x: seq<real>)
    requires Within(a, |x|) && Within(b, |x|)
    ensures Within(a + b, |x|) && Dot(a + b, x) == Dot(a, x) + Dot(b, x)
  {
    if a == [] {
      assert a + b == b;
    } else {
      DotAppend(a[1..], b, x);
      assert (a + b)[1..] == a[1..] + b;
    }
  }

  lemma Distributes(factor: real, a: real, b: real, rest: real)
    ensures factor * a * b + factor * rest == factor * (a * b + rest)
  {
  }

  lemma {:induction false} DotScaled(c: Coefficients, factor: real, x: seq<real>)
    requires Within(c, |x|)
    ensures Within(Scaled(c, factor), |x|) && Dot(Scaled(c, factor), x) == factor * Dot(c, x)
  {
    if c != [] {
      DotScaled(c[1..], factor, x);
      var d := Scaled(c, factor);
      assert d[0] == (c[0].0, factor * c[0].1) && d[1..] == Scaled(c[1..], factor);
      Distributes(factor, c[0].1, x[c[0].0], Dot(c[1..], x));
    }
  }

  /** Velocity over interval `i` of a path of centers. */
  function Velocity(intervals: seq<real>, c: seq<real>, i: nat): real
    requires i < |intervals| && i + 1 < |c| && intervals[i] != 0.0
  {
    (c[i + 1] - c[i]) / intervals[i]
  }

  ghost predicate PathOf(intervals: seq<real>, c: seq<real>) {
    && |c| == |intervals| + 1
    && forall i :: 0 <= i < |intervals| ==> intervals[i] > 0.0
  }

  /** Change of velocity at transition `k`: from rest before the first interval, to rest after
      the last. */
  function VelocityChange(intervals: seq<real>, c: seq<real>, k: nat): real
    requires PathOf(intervals, c) && k <= |intervals|
  {
    (if k < |intervals| then Velocity(intervals, c, k) else 0.0)
    - (if k > 0 then Velocity(intervals, c, k - 1) else 0.0)
  }

  /** Time span of transition `k`: half of each adjacent interval. */
  function Span(intervals: seq<real>, k: nat): real
    requires k <= |intervals|
  {
    ((if k < |intervals| then intervals[k] else 0.0) + (if k > 0 then intervals[k - 1] else 0.0)) / 2.0
  }

  function Acceleration(intervals: seq<real>, c: seq<real>, k: nat): real
    requires PathOf(intervals, c) && |intervals| > 0 && k <= |intervals|
  {
    SpanPositive(intervals, c, k);
    VelocityChange(intervals, c, k) / Span(intervals, k)
  }

  lemma SpanPositive(intervals: seq<real>, c: seq<real>, k: nat)
    requires PathOf(intervals, c) && |intervals| > 0 && k <= |intervals|
    ensures Span(intervals, k) > 0.0
  {
  }

  lemma Dot2(c: Coefficients, x: seq<real>)
    requires |c| == 2 && Within(c, |x|)
    ensures Dot(c, x) == c[0].1 * x[c[0].0] + c[1].1 * x[c[1].0]
  {
    assert Dot(c[1..], x) == c[1].1 * x[c[1].0] + Dot(c[1..][1..], x);
  }

  lemma Dot3(c: Coefficients, x: seq<real>)
    requires |c| == 3 && Within(c, |x|)
    ensures Dot(c, x) == c[0].1 * x[c[0].0] + c[1].1 * x[c[1].0] + c[2].1 * x[c[2].0]
  {
    Dot2(c[1..], x);
  }

  /** A transition's coefficients applied to centers give the velocity change over its span. */
  ghost predicate TransitionChanges(intervals: seq<real>, x: seq<real>, k: nat)
    requires |x| > |intervals| > 0 && k <= |intervals| && PathOf(intervals, x[..|intervals| + 1])
  {
    var t := TransitionAt(intervals, k);
    && t.duration == Span(intervals, k)
    && Within(t.coefficients, |x|)
    && Dot(t.coefficients, x) == VelocityChange(intervals, x[..|intervals| + 1], k)
  }

  lemma InnerTransition(intervals: seq<real>, x: seq<real>, k: nat)
    requires |x| > |intervals| > 0 && 0 < k < |intervals| && PathOf(intervals, x[..|intervals| + 1])
    ensures TransitionChanges(intervals, x, k)
  {
    hide Dot;
    var c := TransitionAt(intervals, k).coefficients;
    Dot3(c, x);
    var p, q := intervals[k - 1], intervals[k];
    var u, v := 1.0 / p, 1.0 / q;
    var path := x[..|intervals| + 1];
    assert -1.0 / p == -u;
    assert Velocity(intervals, path, k) == v * (x[k + 1] - x[k]);
    assert Velocity(intervals, path, k - 1) == u * (x[k] - x[k - 1]);
    assert Dot(c, x) == u * x[k - 1] + (-u - v) * x[k] + v * x[k + 1];
  }

  lemma EdgeTransition(intervals: seq<real>, x: seq<real>, k: nat)
    requires |x| > |intervals| > 0 && (k == 0 || k == |intervals|) && PathOf(intervals, x[..|intervals| + 1])
    ensures TransitionChanges(intervals, x, k)
  {
    hide Dot;
    var c := TransitionAt(intervals, k).coefficients;
    Dot2(c, x);
    var i := if k == 0 then 0 else k - 1;
    var u := 1.0 / intervals[i];
    assert -1.0 / intervals[i] == -u;
    assert Velocity(intervals, x[..|intervals| + 1], i) == u * (x[i + 1] - x[i]);
  }

  lemma TransitionMeans(intervals: seq<real>, x: seq<real>, k: nat)
    requires |x| > |intervals| > 0 && k <= |intervals| && PathOf(intervals, x[..|intervals| + 1])
    ensures TransitionChanges(intervals, x, k)
  {
    hide TransitionChanges;
    if 0 < k < |intervals| {
      InnerTransition(intervals, x, k);
    } else {
      EdgeTransition(intervals, x, k);
    }
  }

  /** The centers of a vector, its leading block. */
  function Centers(s: Shot, x: seq<real>): seq<real>
    requires |x| >= s.Count()
  {
    x[..s.Count()]
  }

  ghost predicate Vector(s: Shot, x: seq<real>) {
    ValidShot(s) && |x| == Columns(s.Count())
  }

  /** One interval respects the speed limit up to the speed excess, and its travel auxiliary
      dominates the step. */
  ghost predicate MeetsInterval(s: Shot, x: seq<real>, i: nat, tolerance: real)
    requires Vector(s, x) && i < |s.intervals|
  {
    var c, n := Centers(s, x), s.Count();
    && Abs(Velocity(s.intervals, c, i)) <= PAN_MAX_SPEED + x[SpeedColumn(n)] + tolerance
    && Abs(c[i + 1] - c[i]) <= x[TravelColumn(n, i)] + tolerance
  }

  /** One transition respects the acceleration limit up to the acceleration excess, and its
      variation auxiliary dominates the velocity change. */
  ghost predicate MeetsTransition(s: Shot, x: seq<real>, k: nat, tolerance: real)
    requires Vector(s, x) && k < s.Count()
  {
    var c, n := Centers(s, x), s.Count();
    && Abs(Acceleration(s.intervals, c, k)) <= PAN_MAX_ACCELERATION + x[AccelerationColumn(n)] + tolerance
    && Abs(VelocityChange(s.intervals, c, k)) <= x[VariationColumn(n, k)] + tolerance
  }

  /** One frame's deviation auxiliary dominates the distance to the seed, and its deadzone
      auxiliary what of it lies outside the deadzone. */
  ghost predicate MeetsFrame(s: Shot, x: seq<real>, i: nat, tolerance: real)
    requires Vector(s, x) && i < s.Count()
  {
    var c, n := Centers(s, x), s.Count();
    && Abs(c[i] - s.seeds[i]) <= x[DeviationColumn(n, i)] + tolerance
    && x[DeviationColumn(n, i)] - s.radii[i] <= x[DeadzoneColumn(n, i)] + tolerance
  }

  ghost predicate IntervalsMet(s: Shot, x: seq<real>, m: nat, tolerance: real)
    requires Vector(s, x) && m <= |s.intervals|
  {
    forall k: nat :: k < m ==> MeetsInterval(s, x, k, tolerance)
  }

  ghost predicate TransitionsMet(s: Shot, x: seq<real>, m: nat, tolerance: real)
    requires Vector(s, x) && m <= s.Count()
  {
    forall k: nat :: k < m ==> MeetsTransition(s, x, k, tolerance)
  }

  ghost predicate FramesMet(s: Shot, x: seq<real>, m: nat, tolerance: real)
    requires Vector(s, x) && m <= s.Count()
  {
    forall k: nat :: k < m ==> MeetsFrame(s, x, k, tolerance)
  }

  /** What a vector that satisfies every row means: the limits met up to the excesses, and
      every auxiliary dominating what it stands for. */
  ghost predicate Meets(s: Shot, x: seq<real>, tolerance: real)
    requires Vector(s, x)
  {
    && IntervalsMet(s, x, |s.intervals|, tolerance)
    && TransitionsMet(s, x, s.Count(), tolerance)
    && FramesMet(s, x, s.Count(), tolerance)
  }

  ghost predicate Holds(r: Row, x: seq<real>, tolerance: real) {
    RowWithin(r, |x|) && Dot(r.coefficients, x) - r.limit <= tolerance
  }

  ghost predicate AllHold(rows: seq<Row>, x: seq<real>, tolerance: real) {
    forall r :: r in rows ==> Holds(r, x, tolerance)
  }

  lemma AllHoldAppend(a: seq<Row>, b: seq<Row>, x: seq<real>, tolerance: real)
    ensures AllHold(a + b, x, tolerance) <==> AllHold(a, x, tolerance) && AllHold(b, x, tolerance)
    ensures RowsWithin(a + b, |x|) <==> RowsWithin(a, |x|) && RowsWithin(b, |x|)
  {
    hide Holds, RowWithin;
    assert forall r :: r in a ==> r in a + b;
    assert forall r :: r in b ==> r in a + b;
  }

  lemma AllHold4(a: Row, b: Row, c: Row, d: Row, x: seq<real>, tolerance: real)
    ensures AllHold([a, b, c, d], x, tolerance)
       <==> Holds(a, x, tolerance) && Holds(b, x, tolerance) && Holds(c, x, tolerance) && Holds(d, x, tolerance)
    ensures RowsWithin([a, b, c, d], |x|)
       <==> RowWithin(a, |x|) && RowWithin(b, |x|) && RowWithin(c, |x|) && RowWithin(d, |x|)
  {
    hide Holds, RowWithin;
    var rows := [a, b, c, d];
    assert rows[0] == a && rows[1] == b && rows[2] == c && rows[3] == d;
  }

  lemma SpeedRowMeans(s: Shot, x: seq<real>, i: nat, sign: real)
    requires Vector(s, x) && i < |s.intervals| && (sign == 1.0 || sign == -1.0)
    ensures var row := SpeedRow(s, i, sign);
            && RowWithin(row, |x|)
            && Dot(row.coefficients, x)
               == sign * Velocity(s.intervals, Centers(s, x), i) - x[SpeedColumn(s.Count())]
  {
    var c, d := Centers(s, x), s.intervals[i];
    Dot3(SpeedRow(s, i, sign).coefficients, x);
    assert (-sign / d) * c[i] + (sign / d) * c[i + 1] == sign * ((c[i + 1] - c[i]) / d);
  }

  lemma TravelRowMeans(s: Shot, x: seq<real>, i: nat, sign: real)
    requires Vector(s, x) && i < |s.intervals|
    ensures var row := TravelRow(s, i, sign);
            && RowWithin(row, |x|)
            && Dot(row.coefficients, x)
               == sign * (Centers(s, x)[i + 1] - Centers(s, x)[i]) - x[TravelColumn(s.Count(), i)]
  {
    Dot3(TravelRow(s, i, sign).coefficients, x);
  }

  lemma IntervalMeans(s: Shot, x: seq<real>, i: nat, tolerance: real)
    requires Vector(s, x) && i < |s.intervals|
    ensures RowsWithin(IntervalRows(s, i), |x|)
    ensures AllHold(IntervalRows(s, i), x, tolerance) <==> MeetsInterval(s, x, i, tolerance)
  {
    hide Dot, Velocity, AllHold, RowsWithin;
    SpeedRowMeans(s, x, i, 1.0);
    SpeedRowMeans(s, x, i, -1.0);
    TravelRowMeans(s, x, i, 1.0);
    TravelRowMeans(s, x, i, -1.0);
    AllHold4(SpeedRow(s, i, 1.0), TravelRow(s, i, 1.0), SpeedRow(s, i, -1.0), TravelRow(s, i, -1.0), x, tolerance);
  }

  /** A row of a scaled transition and one auxiliary. */
  lemma ScaledRowMeans(t: Transition, factor: real, column: nat, x: seq<real>)
    requires Within(t.coefficients, |x|) && column < |x|
    ensures var row := Scaled(t.coefficients, factor) + [(column, -1.0)];
            Within(row, |x|) && Dot(row, x) == factor * Dot(t.coefficients, x) - x[column]
  {
    DotScaled(t.coefficients, factor, x);
    var last: Coefficients := [(column, -1.0)];
    assert Dot(last, x) == -1.0 * x[column] + Dot(last[1..], x);
    DotAppend(Scaled(t.coefficients, factor), last, x);
  }

  lemma AccelerationRowMeans(s: Shot, x: seq<real>, k: nat, sign: real)
    requires Vector(s, x) && k < s.Count()
    ensures TransitionAt(s.intervals, k).duration > 0.0
    ensures var row := AccelerationRow(s, TransitionAt(s.intervals, k), sign);
            && RowWithin(row, |x|)
            && Dot(row.coefficients, x)
               == sign * Acceleration(s.intervals, Centers(s, x), k) - x[AccelerationColumn(s.Count())]
  {
    hide Dot, Scaled, TransitionAt, VelocityChange, Span;
    DurationPositive(s, k);
    var t := TransitionAt(s.intervals, k);
    TransitionMeans(s.intervals, x, k);
    ScaledRowMeans(t, sign / t.duration, AccelerationColumn(s.Count()), x);
    QuotientMoves(sign, t.duration, VelocityChange(s.intervals, Centers(s, x), k));
  }

  lemma QuotientMoves(sign: real, d: real, v: real)
    requires d > 0.0
    ensures (sign / d) * v == sign * (v / d)
  {
  }

  lemma VariationRowMeans(s: Shot, x: seq<real>, k: nat, sign: real)
    requires Vector(s, x) && k < s.Count()
    ensures var row := VariationRow(s, TransitionAt(s.intervals, k), k, sign);
            && RowWithin(row, |x|)
            && Dot(row.coefficients, x)
               == sign * VelocityChange(s.intervals, Centers(s, x), k) - x[VariationColumn(s.Count(), k)]
  {
    hide Dot, Scaled, TransitionAt, VelocityChange;
    TransitionMeans(s.intervals, x, k);
    ScaledRowMeans(TransitionAt(s.intervals, k), sign, VariationColumn(s.Count(), k), x);
  }

  lemma TransitionRowsMean(s: Shot, x: seq<real>, k: nat, tolerance: real)
    requires Vector(s, x) && k < s.Count()
    ensures RowsWithin(TransitionRows(s, k), |x|)
    ensures AllHold(TransitionRows(s, k), x, tolerance) <==> MeetsTransition(s, x, k, tolerance)
  {
    hide Dot, Scaled, TransitionAt, Acceleration, VelocityChange, AllHold, RowsWithin;
    AccelerationRowMeans(s, x, k, 1.0);
    AccelerationRowMeans(s, x, k, -1.0);
    VariationRowMeans(s, x, k, 1.0);
    VariationRowMeans(s, x, k, -1.0);
    var t := TransitionAt(s.intervals, k);
    AllHold4(AccelerationRow(s, t, 1.0), VariationRow(s, t, k, 1.0),
             AccelerationRow(s, t, -1.0), VariationRow(s, t, k, -1.0), x, tolerance);
  }

  lemma FrameRowsMean(s: Shot, x: seq<real>, i: nat, tolerance: real)
    requires Vector(s, x) && i < s.Count()
    ensures RowsWithin(FrameRows(s, i), |x|)
    ensures AllHold(FrameRows(s, i), x, tolerance) <==> MeetsFrame(s, x, i, tolerance)
  {
    hide Dot;
    var rows := FrameRows(s, i);
    Dot2(rows[0].coefficients, x);
    Dot2(rows[1].coefficients, x);
    Dot2(rows[2].coefficients, x);
    assert AllHold(rows, x, tolerance)
      <==> Holds(rows[0], x, tolerance) && Holds(rows[1], x, tolerance) && Holds(rows[2], x, tolerance);
  }

  lemma NoRowsHold(x: seq<real>, tolerance: real)
    ensures RowsWithin([], |x|) && AllHold([], x, tolerance)
  {
  }

  lemma IntervalsMetStep(s: Shot, x: seq<real>, m: nat, tolerance: real)
    requires Vector(s, x) && m < |s.intervals|
    ensures IntervalsMet(s, x, 0, tolerance)
    ensures IntervalsMet(s, x, m + 1, tolerance) <==> IntervalsMet(s, x, m, tolerance) && MeetsInterval(s, x, m, tolerance)
  {
    hide MeetsInterval;
  }

  lemma {:induction false} IntervalBlockMeans(s: Shot, x: seq<real>, m: nat, tolerance: real)
    requires Vector(s, x) && m <= |s.intervals|
    ensures RowsWithin(IntervalBlock(s, m), |x|)
    ensures AllHold(IntervalBlock(s, m), x, tolerance) <==> IntervalsMet(s, x, m, tolerance)
  {
    hide IntervalRows, MeetsInterval, IntervalsMet, AllHold, RowsWithin;
    NoRowsHold(x, tolerance);
    if m > 0 {
      IntervalBlockMeans(s, x, m - 1, tolerance);
      IntervalMeans(s, x, m - 1, tolerance);
      IntervalsMetStep(s, x, m - 1, tolerance);
      AllHoldAppend(IntervalBlock(s, m - 1), IntervalRows(s, m - 1), x, tolerance);
    } else {
      IntervalsMetStep(s, x, 0, tolerance);
    }
  }

  lemma TransitionsMetStep(s: Shot, x: seq<real>, m: nat, tolerance: real)
    requires Vector(s, x) && m < s.Count()
    ensures TransitionsMet(s, x, 0, tolerance)
    ensures TransitionsMet(s, x, m + 1, tolerance) <==> TransitionsMet(s, x, m, tolerance) && MeetsTransition(s, x, m, tolerance)
  {
    hide MeetsTransition;
  }

  lemma {:induction false} TransitionBlockMeans(s: Shot, x: seq<real>, m: nat, tolerance: real)
    requires Vector(s, x) && m <= s.Count()
    ensures RowsWithin(TransitionBlock(s, m), |x|)
    ensures AllHold(TransitionBlock(s, m), x, tolerance) <==> TransitionsMet(s, x, m, tolerance)
  {
    hide TransitionRows, MeetsTransition, TransitionsMet, AllHold, RowsWithin;
    NoRowsHold(x, tolerance);
    if m > 0 {
      TransitionBlockMeans(s, x, m - 1, tolerance);
      TransitionRowsMean(s, x, m - 1, tolerance);
      TransitionsMetStep(s, x, m - 1, tolerance);
      AllHoldAppend(TransitionBlock(s, m - 1), TransitionRows(s, m - 1), x, tolerance);
    } else {
      TransitionsMetStep(s, x, 0, tolerance);
    }
  }

  lemma FramesMetStep(s: Shot, x: seq<real>, m: nat, tolerance: real)
    requires Vector(s, x) && m < s.Count()
    ensures FramesMet(s, x, 0, tolerance)
    ensures FramesMet(s, x, m + 1, tolerance) <==> FramesMet(s, x, m, tolerance) && MeetsFrame(s, x, m, tolerance)
  {
    hide MeetsFrame;
  }

  lemma {:induction false} FrameBlockMeans(s: Shot, x: seq<real>, m: nat, tolerance: real)
    requires Vector(s, x) && m <= s.Count()
    ensures RowsWithin(FrameBlock(s, m), |x|)
    ensures AllHold(FrameBlock(s, m), x, tolerance) <==> FramesMet(s, x, m, tolerance)
  {
    hide FrameRows, MeetsFrame, FramesMet, AllHold, RowsWithin;
    NoRowsHold(x, tolerance);
    if m > 0 {
      FrameBlockMeans(s, x, m - 1, tolerance);
      FrameRowsMean(s, x, m - 1, tolerance);
      FramesMetStep(s, x, m - 1, tolerance);
      AllHoldAppend(FrameBlock(s, m - 1), FrameRows(s, m - 1), x, tolerance);
    } else {
      FramesMetStep(s, x, 0, tolerance);
    }
  }

  /** The encoding is sound and complete: a vector satisfies every row, up to a tolerance,
      exactly when its centers meet the limits up to the excesses and its auxiliaries dominate
      what they stand for, up to that tolerance. */
  lemma RowsMean(s: Shot, x: seq<real>, tolerance: real)
    requires Vector(s, x)
    ensures RowsWithin(AllRows(s), |x|)
    ensures Satisfies(AllRows(s), x, tolerance) <==> Meets(s, x, tolerance)
  {
    hide IntervalsMet, TransitionsMet, FramesMet, AllHold, RowsWithin, IntervalBlock, TransitionBlock, FrameBlock;
    var a, b, c := IntervalBlock(s, |s.intervals|), TransitionBlock(s, s.Count()), FrameBlock(s, s.Count());
    IntervalBlockMeans(s, x, |s.intervals|, tolerance);
    TransitionBlockMeans(s, x, s.Count(), tolerance);
    FrameBlockMeans(s, x, s.Count(), tolerance);
    AllHoldAppend(a, b, x, tolerance);
    AllHoldAppend(a + b, c, x, tolerance);
    SatisfiesIsAllHold(AllRows(s), x, tolerance);
  }

  lemma SatisfiesIsAllHold(rows: seq<Row>, x: seq<real>, tolerance: real)
    requires RowsWithin(rows, |x|)
    ensures Satisfies(rows, x, tolerance) <==> AllHold(rows, x, tolerance)
  {
    hide Dot;
  }
}
