/** Whole-shot safety of the causal controller: every crop of every run. */
module SeedSafety {
  import opened Prelude
  import opened Geometry
  import opened Motion
  import opened SeedPlanner

  /** A crop the controller may hold: inside the source, of the exact aspect ratio, and no
      larger than the full frame. */
  ghost predicate HeldCrop(cam: Camera, crop: Rect)
    requires ValidFrame(cam.frame)
  {
    && ValidCrop(crop, cam.frame)
    && crop.height <= FullFrame(cam.frame).height
    && crop.width <= FullFrame(cam.frame).width
  }

  ghost predicate BoundedVelocities(v: Velocities) {
    Abs(v.x) <= PAN.speed && Abs(v.y) <= PAN.speed && Abs(v.zoom) <= ZOOM.speed
  }

  ghost predicate ValidState(cam: Camera, s: SeedState)
    requires ValidFrame(cam.frame)
  {
    && (s.previous.Some? ==> HeldCrop(cam, s.previous.value))
    && (s.previous.Some? <==> s.timestamp.Some?)
    && BoundedVelocities(s.velocities)
  }

  lemma ValidUsable(cam: Camera, s: SeedState)
    requires ValidFrame(cam.frame) && ValidState(cam, s)
    ensures UsablePrevious(s)
  {
  }

  /** A measurement whose box, if any, is a positive area inside the source. */
  ghost predicate SourceBox(cam: Camera, m: Measurement) {
    m.bounds.Some? ==> InSource(m.bounds.value, cam.frame)
  }

  /** The desired crop of an in-source detection always exists and is one the controller may
      hold. */
  lemma DesiredHeld(cam: Camera, box: Rect)
    requires ValidFrame(cam.frame) && InSource(box, cam.frame)
    ensures DesiredCrop(cam, box).Success? && HeldCrop(cam, DesiredCrop(cam, box).value)
  {
    hide FullFrame, WidthFor, TargetFraction;
    var full, a := FullFrame(cam.frame), cam.frame.aspect;
    FullFrameValid(cam.frame);
    DivPositive(box.height, TargetFraction(cam.profile));
    var height := Min(full.height, box.height / TargetFraction(cam.profile));
    var sized := Centered(box.CenterX(), box.CenterY(), WidthFor(height, a), height);
    SizesOrdered(height, 0.0, a);
    FullFrameLargest(sized, cam.frame);
    ClampInside(sized, cam.frame);
  }

  lemma ProfileShares(p: SeedPlanner.Profile)
    ensures TargetFraction(p)
         == match p case Tight => 0.60 case Balanced => 0.50 case Safe => 0.40 case FullMovement => 0.33
  {
  }

  lemma DesiredSize(cam: Camera, box: Rect)
    requires ValidFrame(cam.frame) && InSource(box, cam.frame)
    ensures DesiredCrop(cam, box).Success?
    ensures DesiredCrop(cam, box).value.height == Min(FullFrame(cam.frame).height, box.height / TargetFraction(cam.profile))
  {
    DesiredHeld(cam, box);
    hide FullFrame, WidthFor, TargetFraction, HeldCrop;
    var full, a := FullFrame(cam.frame), cam.frame.aspect;
    FullFrameValid(cam.frame);
    var height := Min(full.height, box.height / TargetFraction(cam.profile));
    DivPositive(box.height, TargetFraction(cam.profile));
    SizesOrdered(height, 0.0, a);
    FullFrameLargest(Centered(box.CenterX(), box.CenterY(), WidthFor(height, a), height), cam.frame);
  }

  lemma DesiredShare(cam: Camera, box: Rect)
    requires ValidFrame(cam.frame) && InSource(box, cam.frame)
    ensures DesiredCrop(cam, box).Success?
    ensures var d, fraction := DesiredCrop(cam, box).value, TargetFraction(cam.profile);
            && fraction * d.height <= box.height
            && (fraction * d.height == box.height || d.height == FullFrame(cam.frame).height)
  {
    hide FullFrame, TargetFraction, DesiredCrop;
    DesiredSize(cam, box);
    ShareBounded(FullFrame(cam.frame).height, box.height, TargetFraction(cam.profile));
  }

  lemma DesiredNearest(cam: Camera, box: Rect, other: Rect)
    requires ValidFrame(cam.frame) && InSource(box, cam.frame) && InSource(other, cam.frame)
    requires DesiredCrop(cam, box).Success?
    requires var d := DesiredCrop(cam, box).value; other.width == d.width && other.height == d.height
    ensures var d := DesiredCrop(cam, box).value;
            && Abs(d.CenterX() - box.CenterX()) <= Abs(other.CenterX() - box.CenterX())
            && Abs(d.CenterY() - box.CenterY()) <= Abs(other.CenterY() - box.CenterY())
  {
    hide FullFrame, WidthFor, TargetFraction;
    var full, a := FullFrame(cam.frame), cam.frame.aspect;
    FullFrameValid(cam.frame);
    var height := Min(full.height, box.height / TargetFraction(cam.profile));
    DivPositive(box.height, TargetFraction(cam.profile));
    SizesOrdered(height, 0.0, a);
    var sized := Centered(box.CenterX(), box.CenterY(), WidthFor(height, a), height);
    FullFrameLargest(sized, cam.frame);
    ClampNearest(sized, cam.frame, other);
  }

  /** The desired crop gives the detection the profile's share of the height, or is the full
      frame where that does not fit, and its center is as near to the detection's as that of any
      crop of its size in the source. */
  lemma DesiredFrames(cam: Camera, box: Rect, other: Rect)
    requires ValidFrame(cam.frame) && InSource(box, cam.frame)
    ensures DesiredCrop(cam, box).Success?
    ensures var d := DesiredCrop(cam, box).value;
            var share := match cam.profile case Tight => 0.60 case Balanced => 0.50 case Safe => 0.40 case FullMovement => 0.33;
            && share * d.height <= box.height
            && (share * d.height == box.height || d.height == FullFrame(cam.frame).height)
            && (InSource(other, cam.frame) && other.width == d.width && other.height == d.height ==>
                  && Abs(d.CenterX() - box.CenterX()) <= Abs(other.CenterX() - box.CenterX())
                  && Abs(d.CenterY() - box.CenterY()) <= Abs(other.CenterY() - box.CenterY()))
  {
    hide FullFrame, TargetFraction, DesiredCrop;
    ProfileShares(cam.profile);
    DesiredShare(cam, box);
    var d := DesiredCrop(cam, box).value;
    if InSource(other, cam.frame) && other.width == d.width && other.height == d.height {
      DesiredNearest(cam, box, other);
    }
  }

  lemma ShareBounded(full: real, height: real, fraction: real)
    requires fraction > 0.0
    ensures fraction * Min(full, height / fraction) <= height
    ensures Min(full, height / fraction) == full || fraction * Min(full, height / fraction) == height
  {
    var wanted := height / fraction;
    assert fraction * wanted == height;
    if full < wanted {
      Positive(fraction, wanted - full, height - fraction * full);
    }
  }

  lemma PanBounded(root: Root, center: real, velocity: real, target: Option<real>, extent: real, dt: real)
    requires IsSqrt(root) && extent > 0.0 && dt >= 0.0 && Abs(velocity) <= PAN.speed
    ensures Abs(PanAxis(root, center, velocity, target, extent, dt).velocity) <= PAN.speed
  {
    hide Advance;
    var goal := match target case None => None case Some(t) => Some(t / extent);
    AdvanceEnvelope(root, Kinetic(center / extent, velocity), goal, dt, PAN);
  }

  lemma ZoomShaped(cam: Camera, fn: Functions, previous: Rect, target: Option<real>, velocity: real, dt: real)
    requires ValidFrame(cam.frame) && ValidFunctions(fn) && Shaped(previous, cam.frame)
    requires dt >= 0.0 && Abs(velocity) <= ZOOM.speed && (target.Some? ==> target.value > 0.0)
    ensures var z := Zoom(cam, fn, previous, target, velocity, dt);
            z.height > 0.0 && z.width == WidthFor(z.height, cam.frame.aspect) && Abs(z.velocity) <= ZOOM.speed
  {
    hide Advance, FullFrame, WidthFor;
    FullFrameValid(cam.frame);
    var goal := match target case None => None case Some(h) => Some(fn.log(h));
    AdvanceEnvelope(fn.root, Kinetic(fn.log(previous.height), velocity), goal, dt, ZOOM);
  }

  /** Motion keeps the shape of the crop and the bounds on velocities. */
  lemma AdjustShaped(cam: Camera, fn: Functions, previous: Rect, desired: Rect, gates: Gates, v: Velocities, dt: real)
    requires ValidFrame(cam.frame) && ValidFunctions(fn) && Shaped(previous, cam.frame) && desired.height > 0.0
    requires dt >= 0.0 && BoundedVelocities(v)
    ensures var (candidate, w) := Adjust(cam, fn, previous, desired, gates, v, dt);
            Shaped(candidate, cam.frame) && BoundedVelocities(w)
  {
    hide PanAxis, Zoom, WidthFor;
    var cx, cy := previous.CenterX(), previous.CenterY();
    PanBounded(fn.root, cx, v.x, if gates.centerAdjusting then Some(desired.CenterX()) else None, cam.frame.width, dt);
    PanBounded(fn.root, cy, v.y, if gates.centerAdjusting then Some(desired.CenterY()) else None, cam.frame.height, dt);
    ZoomShaped(cam, fn, previous, if gates.scaleAdjusting then Some(desired.height) else None, v.zoom, dt);
  }

  /** A bounded candidate can be clamped, and clamping it gives a crop that may be held. */
  lemma BoundedClamps(cam: Camera, candidate: Rect)
    requires ValidFrame(cam.frame) && Shaped(candidate, cam.frame)
    ensures ClampCrop(Capped(cam, candidate), cam.frame).Success?
    ensures HeldCrop(cam, ClampCrop(Capped(cam, candidate), cam.frame).value)
  {
    hide FullFrame, WidthFor;
    FullFrameValid(cam.frame);
    FullFrameLargest(candidate, cam.frame);
    SizesOrdered(candidate.height, 0.0, cam.frame.aspect);
    ClampInside(Capped(cam, candidate), cam.frame);
  }

  /** The size the repair grows to holds the box and is one the controller may hold. */
  lemma GrownSize(cam: Camera, crop: Rect, box: Rect)
    requires ValidFrame(cam.frame) && HeldCrop(cam, crop) && InSource(box, cam.frame)
    requires box.width <= FullFrame(cam.frame).width && box.height <= FullFrame(cam.frame).height
    ensures var required := Max(Max(crop.height, box.height), HeightFor(box.width, cam.frame.aspect));
            && crop.height <= required <= FullFrame(cam.frame).height && box.height <= required
            && box.width <= WidthFor(required, cam.frame.aspect) <= FullFrame(cam.frame).width
  {
    hide FullFrame, WidthFor, HeightFor;
    var full, a := FullFrame(cam.frame), cam.frame.aspect;
    var needed := HeightFor(box.width, a);
    var required := Max(Max(crop.height, box.height), needed);
    FullFrameValid(cam.frame);
    SizesOrdered(needed, box.width, a);
    WidthMonotone(needed, full.height, a);
    WidthMonotone(needed, required, a);
    WidthMonotone(required, full.height, a);
  }

  /** A large enough rectangle shifted over the box contains it. */
  lemma ShiftedContains(crop: Rect, box: Rect, width: real, height: real)
    requires width >= box.width && height >= box.height
    ensures Rect(Max(Min(crop.x, box.x), box.Right() - width),
                 Max(Min(crop.y, box.y), box.Bottom() - height), width, height).Contains(box)
  {
  }

  /** Containment never fails, gives a crop that may be held, contains the detection unless it
      reports a source limit, and reports one exactly when the box exceeds the full frame. */
  lemma ContainSafe(cam: Camera, crop: Rect, box: Rect)
    requires ValidFrame(cam.frame) && HeldCrop(cam, crop) && InSource(box, cam.frame)
    ensures Contain(cam, crop, box).Success?
    ensures var c := Contain(cam, crop, box).value;
            && HeldCrop(cam, c.crop)
            && (c.crop.Contains(box) <==> !c.sourceAspectLimited)
            && (c.sourceAspectLimited <==>
                 box.width > FullFrame(cam.frame).width || box.height > FullFrame(cam.frame).height)
            && (crop.Contains(box) ==> c.crop == crop)
  {
    hide FullFrame, WidthFor, HeightFor, ClampCrop;
    var full, a := FullFrame(cam.frame), cam.frame.aspect;
    FullFrameValid(cam.frame);
    if crop.Contains(box) {
    } else if box.width > full.width || box.height > full.height {
      ClampInside(Centered(box.CenterX(), box.CenterY(), full.width, full.height), cam.frame);
    } else {
      GrownSize(cam, crop, box);
      var height := Max(Max(crop.height, box.height), HeightFor(box.width, a));
      var width := WidthFor(height, a);
      var grown := Rect(Max(Min(crop.x, box.x), box.Right() - width),
                        Max(Min(crop.y, box.y), box.Bottom() - height), width, height);
      ShiftedContains(crop, box, width, height);
      ClampInside(grown, cam.frame);
      ClampKeeps(grown, box, cam.frame);
    }
  }

  /** The repair is minimal: no larger than any crop that keeps the size and holds the box,
      and of all origins holding the box at its size the nearest to the one it started from. */
  lemma ContainMinimal(cam: Camera, crop: Rect, box: Rect, other: Rect)
    requires ValidFrame(cam.frame) && HeldCrop(cam, crop) && InSource(box, cam.frame)
    requires HeldCrop(cam, other) && other.Contains(box) && crop.height <= other.height
    ensures Contain(cam, crop, box).Success?
    ensures var c := Contain(cam, crop, box).value.crop;
            && c.height <= other.height
            && (c.height == other.height ==>
                  Abs(c.x - crop.x) <= Abs(other.x - crop.x) && Abs(c.y - crop.y) <= Abs(other.y - crop.y))
  {
    hide FullFrame, WidthFor, HeightFor;
    var a := cam.frame.aspect;
    ContainSafe(cam, crop, box);
    if !crop.Contains(box) {
      GrownSize(cam, crop, box);
      SizesOrdered(HeightFor(box.width, a), box.width, a);
      WidthMonotone(HeightFor(box.width, a), other.height, a);
    }
  }

  /** A proposal that safety can settle. */
  ghost predicate Settleable(cam: Camera, p: Proposal) {
    Shaped(p.candidate, cam.frame) && BoundedVelocities(p.velocities)
  }

  lemma SettleSafe(cam: Camera, s: SeedState, p: Proposal, m: Measurement)
    requires ValidFrame(cam.frame) && Settleable(cam, p) && SourceBox(cam, m)
    ensures Settle(cam, s, p, m).Success?
    ensures var (after, frame) := Settle(cam, s, p, m).value;
            && ValidState(cam, after) && after.previous == Some(frame.crop) && after.timestamp == Some(m.timestamp)
            && SafeFrame(cam, m, frame)
  {
    hide FullFrame, WidthFor, Contain, Capped, ClampCrop;
    BoundedClamps(cam, p.candidate);
    if m.bounds.Some? {
      ContainSafe(cam, ClampCrop(Capped(cam, p.candidate), cam.frame).value, m.bounds.value);
    }
  }

  /** The promise of one planned frame. */
  ghost predicate SafeFrame(cam: Camera, m: Measurement, frame: SeedFrame)
    requires ValidFrame(cam.frame)
  {
    && HeldCrop(cam, frame.crop)
    && (frame.trace.missed <==> m.bounds.None?)
    && match m.bounds
       case None => !frame.trace.sourceAspectLimited
       case Some(box) =>
         && (frame.crop.Contains(box) <==> !frame.trace.sourceAspectLimited)
         && (frame.trace.sourceAspectLimited <==>
              box.width > FullFrame(cam.frame).width || box.height > FullFrame(cam.frame).height)
  }

  lemma ProposeSafe(cam: Camera, fn: Functions, s: SeedState, m: Measurement, dt: real)
    requires ValidFrame(cam.frame) && ValidFunctions(fn) && ValidState(cam, s) && SourceBox(cam, m) && dt >= 0.0
    ensures m.bounds.None? ==> Settleable(cam, ProposeMiss(cam, fn, s, dt))
    ensures m.bounds.Some? ==>
              && DesiredCrop(cam, m.bounds.value).Success?
              && Settleable(cam, ProposeDetected(cam, fn, s, m.bounds.value, DesiredCrop(cam, m.bounds.value).value, dt))
  {
    hide FullFrame, WidthFor, Adjust, DesiredCrop, GateErrors, NextGates;
    var full := FullFrame(cam.frame);
    FullFrameValid(cam.frame);
    match m.bounds
    case None =>
      if s.previous.Some? {
        var previous := s.previous.value;
        AdjustShaped(cam, fn, previous, Centered(previous.CenterX(), previous.CenterY(), full.width, full.height),
                     Gates(true, false), Velocities(0.0, 0.0, Max(0.0, s.velocities.zoom)), dt);
      }
    case Some(box) =>
      DesiredHeld(cam, box);
      if s.previous.Some? {
        var desired := DesiredCrop(cam, box).value;
        var e := GateErrors(cam, s.previous.value, desired, box);
        AdjustShaped(cam, fn, s.previous.value, desired, NextGates(s.gates, e), s.velocities, dt);
      }
  }

  /** One frame: it fails only on its timestamp, and otherwise keeps every promise. */
  lemma StepSafe(cam: Camera, fn: Functions, s: SeedState, m: Measurement)
    requires ValidFrame(cam.frame) && ValidFunctions(fn) && ValidState(cam, s) && SourceBox(cam, m)
    ensures Step(cam, fn, s, m).Success? <==>
              m.timestamp >= 0 && (s.timestamp.Some? ==> s.timestamp.value < m.timestamp)
    ensures Step(cam, fn, s, m).Success? ==>
              var (after, frame) := Step(cam, fn, s, m).value;
              && ValidState(cam, after) && after.previous == Some(frame.crop) && after.timestamp == Some(m.timestamp)
              && SafeFrame(cam, m, frame)
    ensures Step(cam, fn, s, m).Failure? ==> Step(cam, fn, s, m).error != CropTooLarge
  {
    hide ProposeMiss, ProposeDetected, DesiredCrop, Settle;
    if m.timestamp >= 0 && (s.timestamp.Some? ==> s.timestamp.value < m.timestamp) {
      var dt := Elapsed(s, m.timestamp);
      ProposeSafe(cam, fn, s, m, dt);
      match m.bounds
      case None => SettleSafe(cam, s, ProposeMiss(cam, fn, s, dt), m);
      case Some(box) =>
        SettleSafe(cam, s, ProposeDetected(cam, fn, s, box, DesiredCrop(cam, box).value, dt), m);
    }
  }
}
