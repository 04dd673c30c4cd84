/** The constant-rate frame clock (`MediaMetadata`): half-even millisecond timestamps, the frame
    a selected time falls in, and where the two agree. */
module FrameClock {
  import opened Prelude

  /** Python's `round` on an exact number: to nearest, halves to even. */
  function Round(x: real): int {
    var below := x.Floor;
    var rest := x - below as real;
    if rest < 0.5 then below
    else if rest > 0.5 then below + 1
    else if below % 2 == 0 then below else below + 1
  }

  /** What the clock reads of a video: positive duration in seconds and frames per second. */
  datatype Clock = Clock(duration: real, rate: real)

  ghost predicate ValidClock(c: Clock) {
    c.duration > 0.0 && c.rate > 0.0
  }

  function DurationMs(c: Clock): int {
    Round(c.duration * 1000.0)
  }

  /** The length in frames, a partial last one included. */
  function Span(c: Clock): real {
    c.duration * c.rate
  }

  function ExpectedFrames(c: Clock): int {
    Round(Span(c))
  }

  function Timestamp(rate: real, index: nat): int
    requires rate != 0.0
  {
    Round((index * 1000) as real / rate)
  }

  datatype SelectionError = OutsideVideo

  /** `frame_for_time_ms`. */
  function FrameForTime(c: Clock, time: int): Result<int, SelectionError> {
    if !(0 <= time < DurationMs(c)) then Failure(OutsideVideo)
    else Success(FrameAt(c.rate, time))
  }

  function FrameAt(rate: real, time: int): int {
    (time as real / 1000.0 * rate).Floor
  }

  /* Rounding. */

  lemma RoundNear(x: real)
    ensures -0.5 <= Round(x) as real - x <= 0.5
  {
  }

  lemma RoundMonotone(x: real, y: real)
    requires x <= y
    ensures Round(x) <= Round(y)
  {
    RoundNear(x);
    RoundNear(y);
  }

  lemma RoundExact(n: int)
    ensures Round(n as real) == n
  {
  }

  /** Nearest, and the even one of two that are equally near. */
  lemma RoundMeans(x: real, n: int)
    ensures Round(x) == n <==> Abs(n as real - x) < 0.5 || (Abs(n as real - x) == 0.5 && n % 2 == 0)
  {
  }

  /** What the clock tells of a video: its length in whole milliseconds and in whole frames, each
      the nearest, and the frame that a time within the length falls in. */
  lemma ClockMeans(c: Clock, n: int, time: int)
    ensures DurationMs(c) == n
       <==> Abs(n as real - 1000.0 * c.duration) < 0.5 || (Abs(n as real - 1000.0 * c.duration) == 0.5 && n % 2 == 0)
    ensures ExpectedFrames(c) == n
       <==> Abs(n as real - c.duration * c.rate) < 0.5 || (Abs(n as real - c.duration * c.rate) == 0.5 && n % 2 == 0)
    ensures FrameForTime(c, time).Success? <==> 0 <= time < DurationMs(c)
    ensures FrameForTime(c, time).Success? ==>
              var frame := FrameForTime(c, time).value;
              1000.0 * frame as real <= time as real * c.rate < 1000.0 * (frame + 1) as real
  {
    RoundMeans(c.duration * 1000.0, n);
    RoundMeans(Span(c), n);
    hide Round;
    FrameMeans(c.rate, time);
  }

  lemma FrameMeans(rate: real, time: int)
    ensures var frame := FrameAt(rate, time);
            1000.0 * frame as real <= time as real * rate < 1000.0 * (frame + 1) as real
  {
    var seconds := time as real / 1000.0;
    assert 1000.0 * seconds == time as real;
    Thousandfold(seconds, rate, time as real);
  }

  lemma Thousandfold(seconds: real, rate: real, time: real)
    requires 1000.0 * seconds == time
    ensures 1000.0 * (seconds * rate) == time * rate
  {
  }

  /* Time per frame. */

  function Period(rate: real): real
    requires rate != 0.0
  {
    1000.0 / rate
  }

  lemma PeriodMeans(rate: real)
    requires rate > 0.0
    ensures Period(rate) > 0.0 && Period(rate) * rate == 1000.0
    ensures Period(rate) >= 1.0 <==> rate <= 1000.0
  {
    var p := Period(rate);
    if p <= 0.0 {
      NonNegative(-p, rate, -p * rate);
    }
    if p >= 1.0 {
      NonNegative(p - 1.0, rate, 1000.0 - rate);
    } else {
      Positive(1.0 - p, rate, rate - 1000.0);
    }
  }

  lemma PeriodMultiple(rate: real, index: nat)
    requires rate > 0.0
    ensures (index * 1000) as real / rate == index as real * Period(rate)
  {
    assert (index * 1000) as real == index as real * 1000.0;
  }

  /** The exact time of a frame in milliseconds. */
  function Ideal(rate: real, index: nat): real
    requires rate != 0.0
  {
    index as real * Period(rate)
  }

  lemma TimestampMeans(rate: real, index: nat)
    requires rate > 0.0
    ensures Timestamp(rate, index) == Round(Ideal(rate, index))
  {
    PeriodMultiple(rate, index);
  }

  /** The timestamp of a frame is the whole number of milliseconds nearest to its exact time, the
      even one of two. */
  lemma TimestampNearest(rate: real, index: nat, t: int)
    requires rate > 0.0
    ensures var apart := Abs(t as real * rate - 1000.0 * index as real);
            Timestamp(rate, index) == t <==> apart < 0.5 * rate || (apart == 0.5 * rate && t % 2 == 0)
  {
    Recovered((index * 1000) as real, rate);
    RoundScaled(t, (index * 1000) as real / rate, rate, 1000.0 * index as real);
  }

  lemma RoundScaled(t: int, exact: real, rate: real, time: real)
    requires rate > 0.0 && exact * rate == time
    ensures var apart := Abs(t as real * rate - time);
            Round(exact) == t <==> apart < 0.5 * rate || (apart == 0.5 * rate && t % 2 == 0)
  {
    RoundMeans(exact, t);
    hide Round;
    NearScaled(t as real, exact, rate);
  }

  lemma Recovered(x: real, rate: real)
    requires rate > 0.0
    ensures x / rate * rate == x
  {
  }

  lemma NearScaled(t: real, exact: real, rate: real)
    requires rate > 0.0
    ensures Abs(t - exact) < 0.5 <==> Abs(t * rate - exact * rate) < 0.5 * rate
    ensures Abs(t - exact) == 0.5 <==> Abs(t * rate - exact * rate) == 0.5 * rate
  {
    Side(t - exact, rate, t * rate - exact * rate);
    Side(exact - t, rate, exact * rate - t * rate);
  }

  lemma Side(d: real, rate: real, product: real)
    requires rate > 0.0 && product == d * rate
    ensures d < 0.5 <==> product < 0.5 * rate
    ensures d <= 0.5 <==> product <= 0.5 * rate
  {
    if d < 0.5 {
      Positive(0.5 - d, rate, 0.5 * rate - d * rate);
    } else {
      NonNegative(d - 0.5, rate, d * rate - 0.5 * rate);
      if d > 0.5 {
        Positive(d - 0.5, rate, d * rate - 0.5 * rate);
      }
    }
  }

  lemma IdealSteps(rate: real, index: nat)
    requires rate > 0.0
    ensures Ideal(rate, index) >= 0.0
    ensures Ideal(rate, index + 1) == Ideal(rate, index) + Period(rate)
  {
    PeriodMeans(rate);
    var p := Period(rate);
    hide Period;
    NonNegative(index as real, p, Ideal(rate, index));
  }

  /** Up to 1000 frames per second, timestamps are strictly increasing. */
  lemma StrictlyIncreasing(rate: real, index: nat)
    requires 0.0 < rate <= 1000.0
    ensures 0 <= Timestamp(rate, index) < Timestamp(rate, index + 1)
  {
    hide Round, Period, Timestamp, Ideal;
    PeriodMeans(rate);
    TimestampMeans(rate, index);
    TimestampMeans(rate, index + 1);
    IdealSteps(rate, index);
    if Period(rate) == 1.0 {
      UnitIdeal(rate, index);
      UnitSteps(index, Ideal(rate, index), Ideal(rate, index + 1));
    } else {
      RoundApart(Ideal(rate, index), Ideal(rate, index + 1));
    }
  }

  lemma UnitIdeal(rate: real, index: nat)
    requires rate > 0.0 && Period(rate) == 1.0
    ensures Ideal(rate, index) == index as real
  {
  }

  lemma UnitSteps(index: nat, x: real, y: real)
    requires x == index as real && y == x + 1.0
    ensures 0 <= Round(x) < Round(y)
  {
    RoundExact(index);
    assert y == (index + 1) as real;
    RoundExact(index + 1);
  }

  /** Numbers more than one apart round to different integers. */
  lemma RoundApart(x: real, y: real)
    requires 0.0 <= x && x + 1.0 < y
    ensures 0 <= Round(x) < Round(y)
  {
    RoundMonotone(0.0, x);
    RoundExact(0);
    RoundNear(x);
    RoundNear(y);
  }

  /** Above 1000 frames per second they are not: some two neighbouring frames share one. */
  lemma {:induction false} TimestampAtLeast(rate: real, n: nat)
    requires rate > 0.0 && forall i: nat :: i < n ==> Timestamp(rate, i) < Timestamp(rate, i + 1)
    ensures Timestamp(rate, n) >= n
  {
    if n == 0 {
      TimestampMeans(rate, 0);
    } else {
      TimestampAtLeast(rate, n - 1);
    }
  }

  lemma SomeRepeats(rate: real)
    requires rate > 1000.0
    ensures exists i: nat :: !(Timestamp(rate, i) < Timestamp(rate, i + 1))
  {
    var p := Period(rate);
    PeriodMeans(rate);
    var gap := 1.0 - p;
    var n: nat := (1.0 / gap).Floor + 1;
    assert n as real > 1.0 / gap;
    Positive(n as real - 1.0 / gap, gap, n as real * gap - 1.0);
    assert Ideal(rate, n) == n as real - n as real * gap;
    TimestampMeans(rate, n);
    RoundNear(Ideal(rate, n));
    hide Timestamp, Round, Period, Ideal;
    if forall i: nat :: i < n ==> Timestamp(rate, i) < Timestamp(rate, i + 1) {
      TimestampAtLeast(rate, n);
      assert false;
    }
  }

  /** The planner's demand for increasing timestamps is met exactly up to 1000 frames per
      second. */
  lemma IncreasingExactly(rate: real)
    requires rate > 0.0
    ensures (forall i: nat :: Timestamp(rate, i) < Timestamp(rate, i + 1)) <==> rate <= 1000.0
  {
    hide Timestamp;
    if rate <= 1000.0 {
      forall i: nat ensures Timestamp(rate, i) < Timestamp(rate, i + 1) {
        StrictlyIncreasing(rate, i);
      }
    } else {
      SomeRepeats(rate);
    }
  }

  /** The position of a time on the frame axis, in frames. */
  lemma FrameScale(rate: real, time: int)
    requires rate > 0.0
    ensures (time as real / 1000.0 * rate) * Period(rate) == time as real
  {
    PeriodMeans(rate);
    var x, p := time as real / 1000.0, Period(rate);
    hide Period;
    assert (x * rate) * p == x * (p * rate);
    assert x * 1000.0 == time as real;
  }

  lemma FrameAtMeans(rate: real, time: int, index: int)
    requires rate > 0.0
    ensures FrameAt(rate, time) >= index <==> time as real >= index as real * Period(rate)
  {
    var y, p := time as real / 1000.0 * rate, Period(rate);
    PeriodMeans(rate);
    FrameScale(rate, time);
    if y >= index as real {
      NonNegative(y - index as real, p, time as real - index as real * p);
    } else {
      Positive(index as real - y, p, index as real * p - time as real);
    }
  }

  /** Mapping a frame's timestamp back gives that frame, or the one before it: the one before
      exactly when its timestamp was rounded down. */
  lemma TimestampRoundTrip(rate: real, index: nat)
    requires 0.0 < rate <= 1000.0
    ensures FrameAt(rate, Timestamp(rate, index))
         == if Timestamp(rate, index) as real < Ideal(rate, index) then index - 1 else index
  {
    var t, p := Timestamp(rate, index), Period(rate);
    PeriodMeans(rate);
    TimestampMeans(rate, index);
    RoundNear(Ideal(rate, index));
    FrameAtMeans(rate, t, index - 1);
    FrameAtMeans(rate, t, index);
    FrameAtMeans(rate, t, index + 1);
    assert (index - 1) as real * p == index as real * p - p;
    assert (index + 1) as real * p == index as real * p + p;
  }

  lemma FramesOrdered(rate: real, time: int, later: int)
    requires rate > 0.0 && time <= later
    ensures FrameAt(rate, time) <= FrameAt(rate, later)
  {
    hide FrameAt, Period;
    FrameAtMeans(rate, time, FrameAt(rate, time));
    FrameAtMeans(rate, later, FrameAt(rate, time));
  }

  lemma FirstFrame(rate: real)
    ensures FrameAt(rate, 0) == 0
  {
    assert 0 as real / 1000.0 * rate == 0.0;
  }

  /** What indexing the analyzed frames with a selected time needs. */
  predicate SelectionInRange(c: Clock) {
    (DurationMs(c) - 1) as real * c.rate < ExpectedFrames(c) as real * 1000.0
  }

  /** Every valid selection indexes an existing frame exactly when the last millisecond does. */
  lemma SelectionsInRange(c: Clock)
    requires ValidClock(c) && DurationMs(c) >= 1
    ensures (forall time: int :: FrameForTime(c, time).Success? ==> 0 <= FrameForTime(c, time).value < ExpectedFrames(c))
       <==> SelectionInRange(c)
  {
    hide DurationMs, ExpectedFrames, FrameAt;
    var d, e := DurationMs(c), ExpectedFrames(c);
    LastSelection(c, d - 1, e);
    if SelectionInRange(c) {
      forall time: int | FrameForTime(c, time).Success?
        ensures 0 <= FrameForTime(c, time).value < e
      {
        FramesOrdered(c.rate, 0, time);
        FramesOrdered(c.rate, time, d - 1);
        FirstFrame(c.rate);
      }
    } else {
      assert FrameForTime(c, d - 1) == Success(FrameAt(c.rate, d - 1));
    }
  }

  lemma LastSelection(c: Clock, time: int, e: int)
    requires c.rate > 0.0
    ensures FrameAt(c.rate, time) < e <==> time as real * c.rate < e as real * 1000.0
  {
    var y := time as real / 1000.0 * c.rate;
    assert y * 1000.0 == time as real * c.rate;
  }

  /** A whole number of frames is enough. */
  lemma WholeFramesInRange(c: Clock, frames: nat)
    requires ValidClock(c) && c.duration * c.rate == frames as real
    ensures ExpectedFrames(c) == frames && SelectionInRange(c)
  {
    RoundExact(frames);
    var d, u := DurationMs(c), c.duration * 1000.0;
    RoundNear(u);
    assert u * c.rate == frames as real * 1000.0;
    Positive(u - (d - 1) as real, c.rate, u * c.rate - (d - 1) as real * c.rate);
  }

  /** A partial last frame may not be: 1013 ms at 30 frames per second is 30 frames, and the
      valid selection of its last millisecond falls in frame 30. */
  lemma PartialFrameOutOfRange()
    ensures var c := Clock(1.013, 30.0);
            && ValidClock(c) && DurationMs(c) == 1013 && ExpectedFrames(c) == 30
            && FrameForTime(c, 1012) == Success(30) && !SelectionInRange(c)
  {
    assert 1.013 * 1000.0 == 1013.0;
    RoundExact(1013);
    var x := 1.013 * 30.0;
    assert x == 30.39 && x.Floor == 30;
    var y := 1012.0 / 1000.0 * 30.0;
    assert y == 30.36 && y.Floor == 30;
  }

  /** Every frame's timestamp lies within the reported duration. */
  lemma TimestampsWithinDuration(c: Clock, index: nat)
    requires ValidClock(c) && index < ExpectedFrames(c)
    ensures 0 <= Timestamp(c.rate, index) <= DurationMs(c)
  {
    hide Round, Period, Timestamp, Ideal, Span;
    TimestampMeans(c.rate, index);
    RoundNear(Span(c));
    IdealWithin(c, index);
    RoundMonotone(0.0, Ideal(c.rate, index));
    RoundMonotone(Ideal(c.rate, index), c.duration * 1000.0);
    RoundExact(0);
  }

  lemma IdealWithin(c: Clock, index: nat)
    requires ValidClock(c) && index as real <= Span(c)
    ensures 0.0 <= Ideal(c.rate, index) <= c.duration * 1000.0
  {
    PeriodMeans(c.rate);
    ScaledWithin(index as real, Span(c), Period(c.rate), c);
  }

  lemma ScaledWithin(i: real, n: real, p: real, c: Clock)
    requires 0.0 <= i <= n && p > 0.0 && n == c.duration * c.rate && p * c.rate == 1000.0
    ensures 0.0 <= i * p <= c.duration * 1000.0
  {
    NonNegative(i, p, i * p);
    NonNegative(n - i, p, n * p - i * p);
    assert n * p == c.duration * (p * c.rate);
  }
}
