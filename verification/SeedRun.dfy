/** Whole shots of the causal controller, and the loop that plans them. */
module SeedRun {
  import opened Prelude
  import opened Geometry
  import opened SeedPlanner
  import opened SeedSafety

  datatype Progress = Progress(state: SeedState, frames: seq<SeedFrame>)

  /** What the detector guarantees: every box is a positive area clipped to the source. */
  ghost predicate SourceBoxes(cam: Camera, ms: seq<Measurement>) {
    forall i :: 0 <= i < |ms| ==> SourceBox(cam, ms[i])
  }

  ghost predicate IncreasingTimestamps(ms: seq<Measurement>) {
    && (forall i :: 0 <= i < |ms| ==> ms[i].timestamp >= 0)
    && (forall i :: 0 < i < |ms| ==> ms[i - 1].timestamp < ms[i].timestamp)
  }

  lemma {:induction false} TimestampsOrdered(ms: seq<Measurement>, i: nat, j: nat)
    requires IncreasingTimestamps(ms) && i <= j < |ms|
    ensures ms[i].timestamp <= ms[j].timestamp && (i < j ==> ms[i].timestamp < ms[j].timestamp)
    decreases j
  {
    if i < j {
      TimestampsOrdered(ms, i, j - 1);
    }
  }

  /** The shot after its measurements, one step at a time. */
  ghost function Run(cam: Camera, fn: Functions, ms: seq<Measurement>): (r: Result<Progress, PlanError>)
    requires ValidFrame(cam.frame) && ValidFunctions(fn) && SourceBoxes(cam, ms)
    ensures r.Success? ==> ValidState(cam, r.value.state) && |r.value.frames| == |ms|
  {
    if ms == [] then Success(Progress(INITIAL_STATE, []))
    else
      var before := Run(cam, fn, ms[..|ms| - 1]);
      match before
      case Failure(e) => Failure(e)
      case Success(p) =>
        StepSafe(cam, fn, p.state, ms[|ms| - 1]);
        match Step(cam, fn, p.state, ms[|ms| - 1])
        case Failure(e) => Failure(e)
        case Success((state, frame)) => Success(Progress(state, p.frames + [frame]))
  }

  /** The seed run invariant: with increasing timestamps and in-source boxes planning never
      fails, and each crop is inside the source, of the exact aspect ratio, no larger than the
      full frame, and contains its detection exactly when it reports no source limit. */
  lemma {:induction false} RunSafe(cam: Camera, fn: Functions, ms: seq<Measurement>)
    requires ValidFrame(cam.frame) && ValidFunctions(fn) && SourceBoxes(cam, ms)
    ensures Run(cam, fn, ms).Success? <==> IncreasingTimestamps(ms)
    ensures Run(cam, fn, ms).Failure? ==> Run(cam, fn, ms).error != CropTooLarge
    ensures Run(cam, fn, ms).Success? ==>
              var p := Run(cam, fn, ms).value;
              && (ms == [] ==> p.state == INITIAL_STATE)
              && (ms != [] ==> p.state.timestamp == Some(ms[|ms| - 1].timestamp)
                               && p.state.previous == Some(p.frames[|ms| - 1].crop))
              && forall i :: 0 <= i < |ms| ==> SafeFrame(cam, ms[i], p.frames[i])
  {
    hide Step, SafeFrame, HeldCrop, FullFrame;
    if ms != [] {
      var init, last := ms[..|ms| - 1], ms[|ms| - 1];
      RunSafe(cam, fn, init);
      assert IncreasingTimestamps(ms) <==>
        && IncreasingTimestamps(init) && last.timestamp >= 0
        && (init != [] ==> init[|init| - 1].timestamp < last.timestamp);
      if Run(cam, fn, init).Success? {
        var p := Run(cam, fn, init).value;
        StepSafe(cam, fn, p.state, last);
        ValidUsable(cam, p.state);
        if Step(cam, fn, p.state, last).Success? {
          var (state, frame) := Step(cam, fn, p.state, last).value;
          assert Run(cam, fn, ms).value == Progress(state, p.frames + [frame]);
        }
      }
    }
  }

  /** `DeterministicCropPlanner.plan`. */
  method Plan(cam: Camera, fn: Functions, ms: seq<Measurement>) returns (r: Result<seq<SeedFrame>, PlanError>)
    requires ValidFrame(cam.frame) && ValidFunctions(fn) && SourceBoxes(cam, ms)
    ensures r == match Run(cam, fn, ms) case Failure(e) => Failure(e) case Success(p) => Success(p.frames)
    ensures r.Success? <==> IncreasingTimestamps(ms)
    ensures r.Success? ==> |r.value| == |ms| && forall i :: 0 <= i < |ms| ==> SafeFrame(cam, ms[i], r.value[i])
  {
    var state := INITIAL_STATE;
    var frames := [];
    for i := 0 to |ms|
      invariant Run(cam, fn, ms[..i]) == Success(Progress(state, frames))
    {
      assert ms[..i + 1][..i] == ms[..i];
      StepSafe(cam, fn, state, ms[i]);
      var step := Step(cam, fn, state, ms[i]);
      if step.Failure? {
        RunFailurePersists(cam, fn, ms, i + 1);
        RunSafe(cam, fn, ms);
        return Failure(step.error);
      }
      state := step.value.0;
      frames := frames + [step.value.1];
    }
    assert ms[..|ms|] == ms;
    RunSafe(cam, fn, ms);
    return Success(frames);
  }

  lemma {:induction false} RunFailurePersists(cam: Camera, fn: Functions, ms: seq<Measurement>, n: nat)
    requires ValidFrame(cam.frame) && ValidFunctions(fn) && SourceBoxes(cam, ms)
    requires n <= |ms| && Run(cam, fn, ms[..n]).Failure?
    ensures Run(cam, fn, ms) == Run(cam, fn, ms[..n])
    decreases |ms|
  {
    if n < |ms| {
      var init := ms[..|ms| - 1];
      assert init[..n] == ms[..n];
      RunFailurePersists(cam, fn, init, n);
    } else {
      assert ms[..n] == ms;
    }
  }
}
