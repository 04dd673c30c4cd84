/** The motion of the causal controller between corrections: its three components as
    integrators, their landing on the desired crop, and the meaning of its gates. */
module SeedMotion {
  import opened Prelude
  import opened Geometry
  import opened Motion
  import opened SeedPlanner
  import opened SeedSafety
  import opened MissWidening

  /** Center in units of the source and logarithm of the height, with their velocities. */
  datatype Components = Components(x: Kinetic, y: Kinetic, zoom: Kinetic)

  function ComponentsOf(cam: Camera, fn: Functions, crop: Rect, v: Velocities): Components
    requires ValidFrame(cam.frame)
  {
    Components(Kinetic(crop.CenterX() / cam.frame.width, v.x),
               Kinetic(crop.CenterY() / cam.frame.height, v.y),
               Kinetic(fn.log(crop.height), v.zoom))
  }

  /** The target of a component: none behind a closed gate. */
  function Goal(open: bool, value: real): Option<real> {
    if open then Some(value) else None
  }

  function Advanced(cam: Camera, fn: Functions, c: Components, desired: Rect, gates: Gates, dt: real): Components
    requires ValidFrame(cam.frame)
  {
    Components(
      Advance(fn.root, c.x, Goal(gates.centerAdjusting, desired.CenterX() / cam.frame.width), dt, PAN),
      Advance(fn.root, c.y, Goal(gates.centerAdjusting, desired.CenterY() / cam.frame.height), dt, PAN),
      Advance(fn.root, c.zoom, Goal(gates.scaleAdjusting, fn.log(desired.height)), dt, ZOOM))
  }

  lemma PanFollows(root: Root, center: real, velocity: real, open: bool, goal: real, extent: real, dt: real)
    requires extent > 0.0
    ensures var k := PanAxis(root, center, velocity, Goal(open, goal), extent, dt);
            Kinetic(k.position / extent, k.velocity)
            == Advance(root, Kinetic(center / extent, velocity), Goal(open, goal / extent), dt, PAN)
  {
    hide Advance;
  }

  lemma ZoomIsComponent(cam: Camera, fn: Functions, previous: Rect, open: bool, goal: real, velocity: real, dt: real)
    requires ValidFrame(cam.frame) && ValidFunctions(fn) && Shaped(previous, cam.frame) && goal > 0.0
    ensures var z := Zoom(cam, fn, previous, Goal(open, goal), velocity, dt);
            Kinetic(fn.log(z.height), z.velocity)
            == Advance(fn.root, Kinetic(fn.log(previous.height), velocity), Goal(open, fn.log(goal)), dt, ZOOM)
  {
    hide Advance, FullFrame;
  }

  lemma AtRestStays(root: Root, position: real, dt: real, lim: Limits)
    requires ValidLimits(lim)
    ensures Advance(root, Kinetic(position, 0.0), None, dt, lim) == Kinetic(position, 0.0)
  {
  }

  /** Every component of an adjustment is the integrator on its own coordinate. */
  lemma AdjustIsMotion(cam: Camera, fn: Functions, previous: Rect, desired: Rect, gates: Gates, v: Velocities, dt: real)
    requires ValidFrame(cam.frame) && ValidFunctions(fn) && Shaped(previous, cam.frame) && desired.height > 0.0
    ensures var (c, w) := Adjust(cam, fn, previous, desired, gates, v, dt);
            ComponentsOf(cam, fn, c, w)
            == Advanced(cam, fn, ComponentsOf(cam, fn, previous, v), desired, gates, dt)
  {
    hide PanAxis, Zoom, Advance;
    var cx, cy := previous.CenterX(), previous.CenterY();
    PanFollows(fn.root, cx, v.x, gates.centerAdjusting, desired.CenterX(), cam.frame.width, dt);
    PanFollows(fn.root, cy, v.y, gates.centerAdjusting, desired.CenterY(), cam.frame.height, dt);
    ZoomIsComponent(cam, fn, previous, gates.scaleAdjusting, desired.height, v.zoom, dt);
    AtRestStays(fn.root, cx / cam.frame.width, dt, PAN);
    AtRestStays(fn.root, cy / cam.frame.height, dt, PAN);
    AtRestStays(fn.root, fn.log(previous.height), dt, ZOOM);
  }

  /** A shaped crop and its velocities are determined by their components. */
  lemma ComponentsDetermine(cam: Camera, fn: Functions, a: Rect, v: Velocities, b: Rect, w: Velocities)
    requires ValidFrame(cam.frame) && ValidFunctions(fn) && Shaped(a, cam.frame) && Shaped(b, cam.frame)
    requires ComponentsOf(cam, fn, a, v) == ComponentsOf(cam, fn, b, w)
    ensures a == b && v == w
  {
    hide WidthFor;
    LogOrder(fn, a.height, b.height);
    DividedEqual(a.CenterX(), b.CenterX(), cam.frame.width);
    DividedEqual(a.CenterY(), b.CenterY(), cam.frame.height);
  }

  lemma DividedEqual(x: real, y: real, d: real)
    requires d > 0.0
    ensures x / d == y / d <==> x == y
  {
    assert d * (x / d) == x && d * (y / d) == y;
  }

  /** Between corrections the whole crop is independent of the frame interval: adjusting twice
      towards the same crop through the same gates is adjusting once. */
  lemma AdjustComposes(cam: Camera, fn: Functions, previous: Rect, desired: Rect, gates: Gates,
                       v: Velocities, t: real, u: real)
    requires ValidFrame(cam.frame) && ValidFunctions(fn) && Shaped(previous, cam.frame) && desired.height > 0.0
    requires BoundedVelocities(v) && t >= 0.0 && u >= 0.0
    ensures var (c, w) := Adjust(cam, fn, previous, desired, gates, v, t);
            Adjust(cam, fn, c, desired, gates, w, u) == Adjust(cam, fn, previous, desired, gates, v, t + u)
  {
    hide Adjust, Advance, Shaped;
    var (c, w) := Adjust(cam, fn, previous, desired, gates, v, t);
    var (d, x) := Adjust(cam, fn, c, desired, gates, w, u);
    var (e, y) := Adjust(cam, fn, previous, desired, gates, v, t + u);
    AdjustShaped(cam, fn, previous, desired, gates, v, t);
    AdjustShaped(cam, fn, c, desired, gates, w, u);
    AdjustShaped(cam, fn, previous, desired, gates, v, t + u);
    AdjustIsMotion(cam, fn, previous, desired, gates, v, t);
    AdjustIsMotion(cam, fn, c, desired, gates, w, u);
    AdjustIsMotion(cam, fn, previous, desired, gates, v, t + u);
    var k := ComponentsOf(cam, fn, previous, v);
    AdvanceComposes(fn.root, k.x, Goal(gates.centerAdjusting, desired.CenterX() / cam.frame.width), t, u, PAN);
    AdvanceComposes(fn.root, k.y, Goal(gates.centerAdjusting, desired.CenterY() / cam.frame.height), t, u, PAN);
    AdvanceComposes(fn.root, k.zoom, Goal(gates.scaleAdjusting, fn.log(desired.height)), t, u, ZOOM);
    ComponentsDetermine(cam, fn, d, x, e, y);
  }

  /** Time for the slowest component to reach the desired crop through open gates. */
  function LandingTime(cam: Camera, fn: Functions, previous: Rect, desired: Rect, v: Velocities): real
    requires ValidFrame(cam.frame)
  {
    var k := ComponentsOf(cam, fn, previous, v);
    Max(ArrivalTime(fn.root, k.zoom, fn.log(desired.height), ZOOM),
        Max(ArrivalTime(fn.root, k.x, desired.CenterX() / cam.frame.width, PAN),
            ArrivalTime(fn.root, k.y, desired.CenterY() / cam.frame.height, PAN)))
  }

  /** With both gates open the crop rests exactly on the desired crop from the landing time on
      and not before. */
  lemma AdjustLands(cam: Camera, fn: Functions, previous: Rect, desired: Rect, v: Velocities, dt: real)
    requires ValidFrame(cam.frame) && ValidFunctions(fn) && Shaped(previous, cam.frame) && Shaped(desired, cam.frame)
    requires BoundedVelocities(v) && dt >= 0.0
    ensures Adjust(cam, fn, previous, desired, Gates(true, true), v, dt) == (desired, REST)
       <==> dt >= LandingTime(cam, fn, previous, desired, v)
  {
    hide Adjust, Advance, ArrivalTime, WidthFor;
    var open := Gates(true, true);
    var k := ComponentsOf(cam, fn, previous, v);
    var (c, w) := Adjust(cam, fn, previous, desired, open, v, dt);
    AdjustIsMotion(cam, fn, previous, desired, open, v, dt);
    AdjustShaped(cam, fn, previous, desired, open, v, dt);
    ArrivesExactly(fn.root, k.x, desired.CenterX() / cam.frame.width, dt, PAN);
    ArrivesExactly(fn.root, k.y, desired.CenterY() / cam.frame.height, dt, PAN);
    ArrivesExactly(fn.root, k.zoom, fn.log(desired.height), dt, ZOOM);
    if ComponentsOf(cam, fn, c, w) == ComponentsOf(cam, fn, desired, REST) {
      ComponentsDetermine(cam, fn, c, w, desired, REST);
    }
  }

  /** The scale gate compares the detected height with a band around the profile's fraction of
      the previous crop's height. */
  lemma ScaleBand(cam: Camera, previous: Rect, desired: Rect, detection: Rect, threshold: real)
    requires previous.width > 0.0 && previous.height > 0.0
    ensures var wanted := TargetFraction(cam.profile) * previous.height;
            OutsideDeadband(GateErrors(cam, previous, desired, detection).scale, threshold)
            <==> detection.height < (1.0 - threshold) * wanted || detection.height > (1.0 + threshold) * wanted
  {
    hide TargetFraction;
    RatioBand(detection.height, previous.height, TargetFraction(cam.profile), threshold);
  }

  lemma RatioBand(h: real, p: real, f: real, t: real)
    requires p > 0.0 && f > 0.0
    ensures OutsideDeadband(h / p / f - 1.0, t) <==> h < (1.0 - t) * (f * p) || h > (1.0 + t) * (f * p)
  {
    var wanted, q := f * p, h / p / f;
    Positive(f, p, wanted);
    QuotientTwice(h, p, f);
    BandCompare(h, q, wanted, t);
  }

  lemma BandCompare(h: real, q: real, wanted: real, t: real)
    requires wanted > 0.0 && q * wanted == h
    ensures OutsideDeadband(q - 1.0, t) <==> h < (1.0 - t) * wanted || h > (1.0 + t) * wanted
  {
    ScaledCompare(q, 1.0 - t, wanted);
    ScaledCompare(1.0 + t, q, wanted);
  }

  lemma QuotientTwice(h: real, p: real, f: real)
    requires p > 0.0 && f > 0.0
    ensures h / p / f * (f * p) == h
  {
    var o := h / p;
    var q := o / f;
    assert o * p == h;
    assert q * f == o;
    Reassociate(q, f, p);
  }

  lemma Reassociate(x: real, y: real, z: real)
    ensures x * (y * z) == (x * y) * z
  {
  }

  lemma ScaledCompare(x: real, y: real, scale: real)
    requires scale > 0.0
    ensures x < y <==> x * scale < y * scale
  {
    if x < y {
      Positive(y - x, scale, y * scale - x * scale);
    } else {
      NonNegative(x - y, scale, x * scale - y * scale);
    }
  }

  /** The detected height lies within the present scale gate's band around the wanted one. */
  ghost predicate WithinScaleBand(cam: Camera, previous: Rect, box: Rect, gates: Gates) {
    var scale := if gates.scaleAdjusting then 0.02 else 0.05;
    var wanted := TargetFraction(cam.profile) * previous.height;
    (1.0 - scale) * wanted <= box.height <= (1.0 + scale) * wanted
  }

  /** The desired center lies within the present center gate's band, on both axes. */
  ghost predicate WithinCenterBands(previous: Rect, desired: Rect, gates: Gates) {
    var center := if gates.centerAdjusting then 0.004 else 0.01;
    && Abs(desired.CenterX() - previous.CenterX()) <= center * previous.width
    && Abs(desired.CenterY() - previous.CenterY()) <= center * previous.height
  }

  ghost predicate WithinBands(cam: Camera, previous: Rect, desired: Rect, box: Rect, gates: Gates) {
    WithinScaleBand(cam, previous, box, gates) && WithinCenterBands(previous, desired, gates)
  }

  /** Hysteresis: each gate is open after a detection exactly when the detection lies outside
      its band, the wide one for a closed gate and the narrow one for an open gate. */
  lemma BandsAreGates(cam: Camera, previous: Rect, desired: Rect, box: Rect, gates: Gates)
    requires previous.width > 0.0 && previous.height > 0.0
    ensures var next := NextGates(gates, GateErrors(cam, previous, desired, box));
            && (next.scaleAdjusting <==> !WithinScaleBand(cam, previous, box, gates))
            && (next.centerAdjusting <==> !WithinCenterBands(previous, desired, gates))
  {
    hide TargetFraction, OutsideDeadband, GateErrors;
    var scale := if gates.scaleAdjusting then SCALE_EXIT else SCALE_ENTER;
    var center := if gates.centerAdjusting then CENTER_EXIT else CENTER_ENTER;
    ScaleBand(cam, previous, desired, box, scale);
    CenterBands(cam, previous, desired, box, center);
  }

  lemma CenterBands(cam: Camera, previous: Rect, desired: Rect, box: Rect, threshold: real)
    requires previous.width > 0.0 && previous.height > 0.0
    ensures var e := GateErrors(cam, previous, desired, box);
            && (OutsideDeadband(e.x, threshold)
                <==> Abs(desired.CenterX() - previous.CenterX()) > threshold * previous.width)
            && (OutsideDeadband(e.y, threshold)
                <==> Abs(desired.CenterY() - previous.CenterY()) > threshold * previous.height)
  {
    hide TargetFraction, OutsideDeadband;
    CenterBand(desired.CenterX() - previous.CenterX(), previous.width, threshold);
    CenterBand(desired.CenterY() - previous.CenterY(), previous.height, threshold);
  }

  /** A detection within both bands of a resting controller, and inside the held crop, leaves
      the crop exactly as it was. */
  lemma DeadbandHolds(cam: Camera, fn: Functions, s: SeedState, m: Measurement)
    requires ValidFrame(cam.frame) && ValidFunctions(fn) && ValidState(cam, s) && SourceBox(cam, m)
    requires s.previous.Some? && s.velocities == REST && m.bounds.Some? && s.previous.value.Contains(m.bounds.value)
    requires Step(cam, fn, s, m).Success? && DesiredCrop(cam, m.bounds.value).Success?
    requires WithinBands(cam, s.previous.value, DesiredCrop(cam, m.bounds.value).value, m.bounds.value, s.gates)
    ensures var (after, frame) := Step(cam, fn, s, m).value;
            && frame.crop == s.previous.value && after.velocities == REST
            && after.gates == Gates(false, false) && frame.trace.action == DeadbandHold
  {
    hide FullFrame, WidthFor, DesiredCrop, TargetFraction, NextGates, GateErrors, WithinScaleBand, WithinCenterBands,
         ClampCrop;
    var previous, box := s.previous.value, m.bounds.value;
    BandsAreGates(cam, previous, DesiredCrop(cam, box).value, box, s.gates);
    ClampInside(previous, cam.frame);
  }

  lemma CenterBand(offset: real, extent: real, threshold: real)
    requires extent > 0.0
    ensures OutsideDeadband(offset / extent, threshold) <==> Abs(offset) > threshold * extent
  {
    assert (offset / extent) * extent == offset;
    ScaledCompare(threshold, Abs(offset / extent), extent);
    assert Abs(offset / extent) * extent == Abs(offset);
  }
}
