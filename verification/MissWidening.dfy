/** Runs of missed frames: the crop only widens, around a center moved by clamping alone,
    and reaches the full frame in a computable time. */
module MissWidening {
  import opened Prelude
  import opened Geometry
  import opened Motion
  import opened SeedPlanner
  import opened SeedSafety
  import opened SeedRun

  lemma LogOrder(fn: Functions, h: real, h': real)
    requires ValidFunctions(fn) && h > 0.0 && h' > 0.0
    ensures fn.log(h) <= fn.log(h') <==> h <= h'
    ensures fn.log(h) == fn.log(h') <==> h == h'
  {
    var y, z := fn.log(h), fn.log(h');
    assert fn.exp(y) == h && fn.exp(z) == h';
    if y < z {
      assert fn.exp(y) < fn.exp(z);
    } else if z < y {
      assert fn.exp(z) < fn.exp(y);
    }
  }

  /** The zoom motion in the logarithm of the height. */
  function ZoomMotion(fn: Functions, height: real, velocity: real, goal: real, dt: real): Kinetic {
    Advance(fn.root, Kinetic(fn.log(height), velocity), Some(fn.log(goal)), dt, ZOOM)
  }

  lemma ZoomFollows(cam: Camera, fn: Functions, previous: Rect, goal: real, velocity: real, dt: real)
    requires ValidFrame(cam.frame) && ValidFunctions(fn) && Shaped(previous, cam.frame) && goal > 0.0
    requires dt >= 0.0 && Abs(velocity) <= ZOOM.speed
    ensures var z := Zoom(cam, fn, previous, Some(goal), velocity, dt);
            Kinetic(fn.log(z.height), z.velocity) == ZoomMotion(fn, previous.height, velocity, goal, dt)
  {
    hide Advance, FullFrame;
  }

  /** Widening around a center and clamping keeps every point of an in-source crop. */
  ghost predicate Widens(cam: Camera, before: Rect, after: Rect) {
    && after.Contains(before) && before.height <= after.height
    && after.CenterX() == Min(Max(before.CenterX(), after.width / 2.0), cam.frame.width - after.width / 2.0)
    && after.CenterY() == Min(Max(before.CenterY(), after.height / 2.0), cam.frame.height - after.height / 2.0)
  }

  lemma ClampedWidens(cam: Camera, before: Rect, width: real, height: real)
    requires InSource(before, cam.frame) && before.width <= width <= cam.frame.width
    requires before.height <= height <= cam.frame.height
    ensures var c := ClampCrop(Centered(before.CenterX(), before.CenterY(), width, height), cam.frame);
            c.Success? && c.value.width == width && c.value.height == height && Widens(cam, before, c.value)
  {
  }

  /** On a miss only the zoom moves: the proposal keeps the center. */
  lemma MissProposal(cam: Camera, fn: Functions, s: SeedState, dt: real)
    requires ValidFrame(cam.frame) && ValidFunctions(fn) && ValidState(cam, s) && s.previous.Some? && dt >= 0.0
    ensures var p, previous := ProposeMiss(cam, fn, s, dt), s.previous.value;
            && Shaped(p.candidate, cam.frame)
            && p.candidate == Centered(previous.CenterX(), previous.CenterY(), p.candidate.width, p.candidate.height)
            && p.velocities.x == 0.0 && p.velocities.y == 0.0
            && Kinetic(fn.log(p.candidate.height), p.velocities.zoom)
               == ZoomMotion(fn, previous.height, Max(0.0, s.velocities.zoom), FullFrame(cam.frame).height, dt)
  {
    hide Zoom, FullFrame, WidthFor, ZoomMotion;
    FullFrameValid(cam.frame);
    var previous := s.previous.value;
    var v := Max(0.0, s.velocities.zoom);
    ZoomFollows(cam, fn, previous, FullFrame(cam.frame).height, v, dt);
    ZoomShaped(cam, fn, previous, Some(FullFrame(cam.frame).height), v, dt);
  }

  /** One missed frame. */
  lemma MissStep(cam: Camera, fn: Functions, s: SeedState, m: Measurement)
    requires ValidFrame(cam.frame) && ValidFunctions(fn) && ValidState(cam, s) && s.previous.Some?
    requires m.bounds.None? && Step(cam, fn, s, m).Success?
    ensures var (after, frame) := Step(cam, fn, s, m).value;
            && Widens(cam, s.previous.value, frame.crop)
            && after.velocities.x == 0.0 && after.velocities.y == 0.0 && after.velocities.zoom >= 0.0
            && (frame.crop.height == FullFrame(cam.frame).height
                || Kinetic(fn.log(frame.crop.height), after.velocities.zoom)
                   == ZoomMotion(fn, s.previous.value.height, Max(0.0, s.velocities.zoom),
                                 FullFrame(cam.frame).height, Elapsed(s, m.timestamp)))
  {
    hide Advance, FullFrame, WidthFor, ProposeMiss;
    var previous, full, dt := s.previous.value, FullFrame(cam.frame), Elapsed(s, m.timestamp);
    FullFrameValid(cam.frame);
    var p := ProposeMiss(cam, fn, s, dt);
    MissProposal(cam, fn, s, dt);
    LogOrder(fn, previous.height, full.height);
    UpwardAdvance(fn.root, Kinetic(fn.log(previous.height), Max(0.0, s.velocities.zoom)), fn.log(full.height), dt, ZOOM);
    LogOrder(fn, previous.height, p.candidate.height);
    LogOrder(fn, p.candidate.height, full.height);
    FullFrameLargest(p.candidate, cam.frame);
    WidthMonotone(previous.height, p.candidate.height, cam.frame.aspect);
    WidthMonotone(previous.height, full.height, cam.frame.aspect);
    var sized := Capped(cam, p.candidate);
    ClampedWidens(cam, previous, sized.width, sized.height);
  }

  /** The controller after the first `n` frames of a shot that plans. */
  ghost function After(cam: Camera, fn: Functions, ms: seq<Measurement>, n: nat): Progress
    requires ValidFrame(cam.frame) && ValidFunctions(fn) && SourceBoxes(cam, ms)
    requires IncreasingTimestamps(ms) && n <= |ms|
    ensures ValidState(cam, After(cam, fn, ms, n).state) && |After(cam, fn, ms, n).frames| == n
    ensures n > 0 ==> After(cam, fn, ms, n).state.previous == Some(After(cam, fn, ms, n).frames[n - 1].crop)
    ensures n > 0 ==> After(cam, fn, ms, n).state.timestamp == Some(ms[n - 1].timestamp)
  {
    RunSafe(cam, fn, ms[..n]);
    Run(cam, fn, ms[..n]).value
  }

  /** Frames once planned do not change as the shot goes on. */
  lemma AfterExtends(cam: Camera, fn: Functions, ms: seq<Measurement>, n: nat)
    requires ValidFrame(cam.frame) && ValidFunctions(fn) && SourceBoxes(cam, ms)
    requires IncreasingTimestamps(ms) && n < |ms|
    ensures UsablePrevious(After(cam, fn, ms, n).state)
    ensures var step := Step(cam, fn, After(cam, fn, ms, n).state, ms[n]);
            && step.Success?
            && After(cam, fn, ms, n + 1)
               == Progress(step.value.0, After(cam, fn, ms, n).frames + [step.value.1])
  {
    hide Step;
    assert ms[..n + 1][..n] == ms[..n];
    RunSafe(cam, fn, ms[..n]);
    RunSafe(cam, fn, ms[..n + 1]);
    ValidUsable(cam, After(cam, fn, ms, n).state);
  }

  ghost predicate MissedBetween(ms: seq<Measurement>, i: nat, j: nat) {
    j < |ms| && forall k :: i < k <= j ==> ms[k].bounds.None?
  }

  function Seconds(ms: seq<Measurement>, i: nat, j: nat): real
    requires i < |ms| && j < |ms|
  {
    (ms[j].timestamp - ms[i].timestamp) as real / 1000.0
  }

  /** The crop planned for frame `i`. */
  ghost function CropAt(cam: Camera, fn: Functions, ms: seq<Measurement>, i: nat): Rect
    requires ValidFrame(cam.frame) && ValidFunctions(fn) && SourceBoxes(cam, ms)
    requires IncreasingTimestamps(ms) && i < |ms|
  {
    After(cam, fn, ms, i + 1).frames[i].crop
  }

  ghost function ZoomVelocityAt(cam: Camera, fn: Functions, ms: seq<Measurement>, i: nat): real
    requires ValidFrame(cam.frame) && ValidFunctions(fn) && SourceBoxes(cam, ms)
    requires IncreasingTimestamps(ms) && i < |ms|
  {
    After(cam, fn, ms, i + 1).state.velocities.zoom
  }

  /** Over a run of misses after frame `i` the crops are nested, and the height either is the
      full height already or follows one uninterrupted motion towards it. */
  lemma {:induction false} MissRun(cam: Camera, fn: Functions, ms: seq<Measurement>, i: nat, j: nat)
    requires ValidFrame(cam.frame) && ValidFunctions(fn) && SourceBoxes(cam, ms) && IncreasingTimestamps(ms)
    requires i < j && MissedBetween(ms, i, j)
    ensures var full := FullFrame(cam.frame).height;
            var before, after := CropAt(cam, fn, ms, i), CropAt(cam, fn, ms, j);
            && after.Contains(before) && before.height <= after.height <= full
            && ZoomVelocityAt(cam, fn, ms, j) >= 0.0
            && (after.height == full
                || Kinetic(fn.log(after.height), ZoomVelocityAt(cam, fn, ms, j))
                   == ZoomMotion(fn, before.height, Max(0.0, ZoomVelocityAt(cam, fn, ms, i)), full, Seconds(ms, i, j)))
    decreases j
  {
    hide Step, Advance, FullFrame, Run;
    AfterExtends(cam, fn, ms, j);
    var s := After(cam, fn, ms, j).state;
    MissStep(cam, fn, s, ms[j]);
    if i < j - 1 {
      MissRun(cam, fn, ms, i, j - 1);
      TimestampsOrdered(ms, i, j - 1);
      var v := Max(0.0, ZoomVelocityAt(cam, fn, ms, i));
      AdvanceComposes(fn.root, Kinetic(fn.log(CropAt(cam, fn, ms, i).height), v), Some(fn.log(FullFrame(cam.frame).height)),
                      Seconds(ms, i, j - 1), Elapsed(s, ms[j].timestamp), ZOOM);
      assert Seconds(ms, i, j - 1) + Elapsed(s, ms[j].timestamp) == Seconds(ms, i, j);
    }
  }

  /** The time from frame `i` within which a run of misses reaches the full frame, whatever
      its frame intervals are. */
  ghost function WideningTime(cam: Camera, fn: Functions, ms: seq<Measurement>, i: nat): real
    requires ValidFrame(cam.frame) && ValidFunctions(fn) && SourceBoxes(cam, ms)
    requires IncreasingTimestamps(ms) && i < |ms|
  {
    ArrivalTime(fn.root, Kinetic(fn.log(CropAt(cam, fn, ms, i).height), Max(0.0, ZoomVelocityAt(cam, fn, ms, i))),
                fn.log(FullFrame(cam.frame).height), ZOOM)
  }

  /** A run of misses as long as the widening time ends at the full frame's size. */
  lemma MissRunReachesFull(cam: Camera, fn: Functions, ms: seq<Measurement>, i: nat, j: nat)
    requires ValidFrame(cam.frame) && ValidFunctions(fn) && SourceBoxes(cam, ms) && IncreasingTimestamps(ms)
    requires i < j && MissedBetween(ms, i, j)
    requires Seconds(ms, i, j) >= WideningTime(cam, fn, ms, i)
    ensures CropAt(cam, fn, ms, j).height == FullFrame(cam.frame).height
    ensures CropAt(cam, fn, ms, j).width == FullFrame(cam.frame).width
  {
    hide Advance, FullFrame, Run, ArrivalTime;
    MissRun(cam, fn, ms, i, j);
    TimestampsOrdered(ms, i, j);
    FullFrameValid(cam.frame);
    var before, after, full := CropAt(cam, fn, ms, i), CropAt(cam, fn, ms, j), FullFrame(cam.frame);
    var k := Kinetic(fn.log(before.height), Max(0.0, ZoomVelocityAt(cam, fn, ms, i)));
    ArrivesExactly(fn.root, k, fn.log(full.height), Seconds(ms, i, j), ZOOM);
    LogOrder(fn, after.height, full.height);
    FullFrameLargest(after, cam.frame);
  }

  /** On every single miss the crop keeps its center up to source clamping. */
  lemma MissCenter(cam: Camera, fn: Functions, ms: seq<Measurement>, i: nat)
    requires ValidFrame(cam.frame) && ValidFunctions(fn) && SourceBoxes(cam, ms) && IncreasingTimestamps(ms)
    requires 0 < i < |ms| && ms[i].bounds.None?
    ensures Widens(cam, CropAt(cam, fn, ms, i - 1), CropAt(cam, fn, ms, i))
  {
    hide Step, Advance, FullFrame, Run;
    AfterExtends(cam, fn, ms, i);
    MissStep(cam, fn, After(cam, fn, ms, i).state, ms[i]);
  }
}
