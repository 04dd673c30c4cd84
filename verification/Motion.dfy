/**
 The constant-acceleration motion integrator of the causal crop controller
 (`_advance_motion`), over exact reals.  The square root is a parameter: all that is used
 about it is that it returns the non-negative root.
 */
module Motion {
  import opened Prelude

  type Root = real -> real

  /** What `math.sqrt` promises on its domain. */
  ghost predicate IsSqrt(root: Root) {
    forall x: real :: x >= 0.0 ==> root(x) >= 0.0 && root(x) * root(x) == x
  }

  /** Position and signed velocity of one camera component. */
  datatype Kinetic = Kinetic(position: real, velocity: real)

  /** The speed and acceleration caps of one component. */
  datatype Limits = Limits(speed: real, acceleration: real)

  ghost predicate ValidLimits(lim: Limits) {
    lim.speed > 0.0 && lim.acceleration > 0.0
  }

  function Sign(x: real): (r: real)
    ensures r == 1.0 || r == -1.0
    ensures r * x == Abs(x)
  {
    if x < 0.0 then -1.0 else 1.0
  }

  /** Distance covered in `t` seconds from the given speed under constant acceleration. */
  function Covered(speed: real, acceleration: real, t: real): real {
    speed * t + acceleration * t * t / 2.0
  }

  /** What a rate amounts to over a time. */
  function Over(rate: real, t: real): real {
    rate * t
  }

  function StopDistance(velocity: real, lim: Limits): real
    requires ValidLimits(lim)
  {
    velocity * velocity / (2.0 * lim.acceleration)
  }

  /** The condition under which a moving component first brakes to rest. */
  predicate BrakesFirst(k: Kinetic, target: Option<real>, lim: Limits)
    requires ValidLimits(lim)
  {
    && k.velocity != 0.0
    && match target
       case None => true
       case Some(t) =>
         || k.velocity * (t - k.position) <= 0.0
         || StopDistance(k.velocity, lim) > Abs(t - k.position)
  }

  function StopTime(k: Kinetic, lim: Limits): real
    requires ValidLimits(lim)
  {
    Abs(k.velocity) / lim.acceleration
  }

  /** State after braking for `elapsed` seconds, `elapsed` at most the stopping time. */
  function Braked(k: Kinetic, elapsed: real, lim: Limits): Kinetic {
    var braking := -(lim.acceleration * Sign(k.velocity));
    Kinetic(k.position + Covered(k.velocity, braking, elapsed),
            k.velocity + braking * elapsed)
  }

  /** Where the component comes to rest when it only brakes. */
  function Rested(k: Kinetic, lim: Limits): Kinetic
    requires ValidLimits(lim)
  {
    Kinetic(Braked(k, StopTime(k, lim), lim).position, 0.0)
  }

  /** A remaining distance to a target and the speed of closing it. */
  datatype Leg = Leg(distance: real, speed: real)

  /** The velocity profile of a leg: peak speed, the durations of its rise, cruise and fall,
      and the distances covered while rising and cruising. */
  datatype Profile = Profile(peak: real, rise: real, riseDistance: real,
                             cruise: real, cruiseDistance: real, fall: real)

  /** Half the square of the speed a leg would reach if it only accelerated and then braked. */
  function Energy(leg: Leg, a: real): real {
    a * leg.distance + leg.speed * leg.speed / 2.0
  }

  function Peak(root: Root, leg: Leg, lim: Limits): real {
    Min(lim.speed, root(Energy(leg, lim.acceleration)))
  }

  function Phases(leg: Leg, peak: real, a: real): Profile
    requires a > 0.0
  {
    var rise := Max(0.0, (peak - leg.speed) / a);
    var riseDistance := (leg.speed + peak) * rise / 2.0;
    var cruiseDistance := Max(0.0, leg.distance - riseDistance - peak * peak / (2.0 * a));
    Profile(peak, rise, riseDistance,
            if peak != 0.0 then cruiseDistance / peak else 0.0, cruiseDistance, peak / a)
  }

  function ProfileOf(root: Root, leg: Leg, lim: Limits): Profile
    requires ValidLimits(lim)
  {
    Phases(leg, Peak(root, leg, lim), lim.acceleration)
  }

  /** The triangular or trapezoidal approach to a target: accelerate, cruise, brake, rest. */
  function Approach(root: Root, k: Kinetic, target: real, dt: real, lim: Limits): Kinetic
    requires ValidLimits(lim)
  {
    var offset := target - k.position;
    if offset == 0.0 && k.velocity == 0.0 then
      Kinetic(target, 0.0)
    else
      var direction := Sign(offset);
      var speed := k.velocity * direction;
      var a := lim.acceleration;
      var p := ProfileOf(root, Leg(Abs(offset), speed), lim);
      if dt < p.rise then
        Kinetic(k.position + direction * Covered(speed, a, dt),
                direction * (speed + a * dt))
      else
        var cruiseStart := k.position + direction * p.riseDistance;
        var afterRise := dt - p.rise;
        if afterRise < p.cruise then
          Kinetic(cruiseStart + direction * p.peak * afterRise, direction * p.peak)
        else
          var brakeStart := cruiseStart + direction * p.cruiseDistance;
          var braking := afterRise - p.cruise;
          if braking < p.fall then
            Kinetic(brakeStart + direction * Covered(p.peak, -a, braking),
                    direction * (p.peak - a * braking))
          else
            Kinetic(target, 0.0)
  }

  /** `_advance_motion`: a closed gate brakes to rest, an open one moves to its target. */
  function Advance(root: Root, k: Kinetic, target: Option<real>, dt: real, lim: Limits): Kinetic
    requires ValidLimits(lim)
  {
    if BrakesFirst(k, target, lim) then
      if dt < StopTime(k, lim) then
        Braked(k, dt, lim)
      else
        match target
        case None => Rested(k, lim)
        case Some(t) => Approach(root, Rested(k, lim), t, dt - StopTime(k, lim), lim)
    else
      match target
      case None => k
      case Some(t) => Approach(root, k, t, dt, lim)
  }

  /* ---------------------------------------------------------------------------------------
     The approach seen from its target.
     --------------------------------------------------------------------------------------- */

  /** A leg that can still stop at its target without exceeding the speed cap. */
  ghost predicate Stoppable(leg: Leg, lim: Limits) {
    && leg.distance > 0.0
    && 0.0 <= leg.speed <= lim.speed
    && leg.speed * leg.speed <= 2.0 * lim.acceleration * leg.distance
  }

  /** The leg after `t` seconds of the given profile. */
  function Along(leg: Leg, p: Profile, t: real, a: real): Leg {
    if t < p.rise then
      Leg(leg.distance - Covered(leg.speed, a, t), leg.speed + Over(a, t))
    else if t - p.rise < p.cruise then
      Leg(leg.distance - p.riseDistance - Over(p.peak, t - p.rise), p.peak)
    else if t - p.rise - p.cruise < p.fall then
      var u := t - p.rise - p.cruise;
      Leg(leg.distance - p.riseDistance - p.cruiseDistance - Covered(p.peak, -a, u),
          p.peak - Over(a, u))
    else
      Leg(0.0, 0.0)
  }

  function LegTime(p: Profile): real {
    p.rise + p.cruise + p.fall
  }

  /** Facts about a profile that make every phase identity linear in its parts. */
  ghost predicate Consistent(leg: Leg, p: Profile, lim: Limits) {
    var a := lim.acceleration;
    && leg.speed <= p.peak <= lim.speed && p.peak > 0.0
    && p.rise >= 0.0 && p.cruise >= 0.0
    && a * p.rise == p.peak - leg.speed
    && p.riseDistance == Covered(leg.speed, a, p.rise)
    && p.cruiseDistance == p.peak * p.cruise
    && a * p.fall == p.peak
    && leg.distance == p.riseDistance + p.cruiseDistance + p.peak * p.fall / 2.0
    && (p.cruise == 0.0 || p.peak == lim.speed)
  }

  lemma SquareLess(x: real, y: real)
    requires 0.0 <= x < y
    ensures x * x < y * y
  {
    Positive(y - x, y + x, (y - x) * (y + x));
  }

  /** The peak is at least the present speed, and it is either the cap or uses all energy. */
  lemma PeakFacts(root: Root, leg: Leg, lim: Limits)
    requires IsSqrt(root) && ValidLimits(lim) && Stoppable(leg, lim)
    ensures leg.speed <= Peak(root, leg, lim) <= lim.speed && Peak(root, leg, lim) > 0.0
    ensures Peak(root, leg, lim) * Peak(root, leg, lim) <= Energy(leg, lim.acceleration)
    ensures Peak(root, leg, lim) < lim.speed
        ==> Peak(root, leg, lim) * Peak(root, leg, lim) == Energy(leg, lim.acceleration)
  {
    var energy := Energy(leg, lim.acceleration);
    EnergyBounds(leg, lim);
    hide Energy;
    var r := root(energy);
    assert r >= 0.0 && r * r == energy;
    if r < leg.speed {
      SquareLess(r, leg.speed);
    }
    if lim.speed < r {
      SquareLess(lim.speed, r);
    }
    assert r != 0.0;
  }

  lemma EnergyBounds(leg: Leg, lim: Limits)
    requires ValidLimits(lim) && Stoppable(leg, lim)
    ensures Energy(leg, lim.acceleration) > 0.0
    ensures leg.speed * leg.speed <= Energy(leg, lim.acceleration)
  {
    Positive(lim.acceleration, leg.distance, lim.acceleration * leg.distance);
    NonNegative(leg.speed, leg.speed, leg.speed * leg.speed);
  }

  lemma Divided(x: real, y: real)
    requires y > 0.0
    ensures y * (x / y) == x && (x >= 0.0 ==> x / y >= 0.0)
  {
  }

  /** The defining equations of the phases, free of divisions. */
  lemma PhasesEquations(leg: Leg, peak: real, a: real)
    requires a > 0.0 && leg.speed <= peak && peak > 0.0
    ensures var p := Phases(leg, peak, a);
            && p.peak == peak && p.rise >= 0.0 && a * p.rise == peak - leg.speed
            && p.riseDistance == (leg.speed + peak) * p.rise / 2.0
            && a * p.fall == peak && p.cruiseDistance == peak * p.cruise
            && p.cruiseDistance == Max(0.0, leg.distance - p.riseDistance - peak * peak / (2.0 * a))
  {
    Divided(peak - leg.speed, a);
    Divided(peak, a);
    Divided(Phases(leg, peak, a).cruiseDistance, peak);
  }

  lemma FallDistance(peak: real, fall: real, a: real)
    requires a > 0.0 && a * fall == peak
    ensures peak * peak / (2.0 * a) == peak * fall / 2.0
  {
    assert (2.0 * a) * (peak * fall / 2.0) == peak * peak;
  }

  /** What rise and fall leave of the leg, scaled by the acceleration, is unused energy. */
  lemma UnusedEnergy(leg: Leg, peak: real, rise: real, fall: real, a: real)
    requires a > 0.0 && a * rise == peak - leg.speed && a * fall == peak
    requires peak * peak <= Energy(leg, a)
    ensures var rest := leg.distance - (leg.speed + peak) * rise / 2.0 - peak * fall / 2.0;
            && rest >= 0.0
            && (peak * peak == Energy(leg, a) ==> rest == 0.0)
  {
  }

  lemma RiseCovered(speed: real, peak: real, rise: real, a: real)
    requires a * rise == peak - speed
    ensures (speed + peak) * rise / 2.0 == Covered(speed, a, rise)
  {
  }

  /** The phases below a usable peak are consistent. */
  lemma PhasesConsistent(leg: Leg, peak: real, lim: Limits)
    requires ValidLimits(lim) && leg.speed <= peak <= lim.speed && peak > 0.0
    requires peak * peak <= Energy(leg, lim.acceleration)
    requires peak < lim.speed ==> peak * peak == Energy(leg, lim.acceleration)
    ensures Consistent(leg, Phases(leg, peak, lim.acceleration), lim)
  {
    hide Phases, Covered, Energy;
    var p, a := Phases(leg, peak, lim.acceleration), lim.acceleration;
    PhasesEquations(leg, peak, a);
    FallDistance(peak, p.fall, a);
    UnusedEnergy(leg, peak, p.rise, p.fall, a);
    RiseCovered(leg.speed, peak, p.rise, a);
    Divided(p.cruiseDistance, peak);
    assert p.cruise >= 0.0 && (p.cruiseDistance == 0.0 ==> p.cruise == 0.0);
  }

  lemma ProfileConsistent(root: Root, leg: Leg, lim: Limits)
    requires IsSqrt(root) && ValidLimits(lim) && Stoppable(leg, lim)
    ensures Consistent(leg, ProfileOf(root, leg, lim), lim)
  {
    hide Phases;
    PeakFacts(root, leg, lim);
    PhasesConsistent(leg, Peak(root, leg, lim), lim);
  }

  /* ---------------------------------------------------------------------------------------
     Advancing a leg in two steps.
     --------------------------------------------------------------------------------------- */

  /** The profile that is left after `t` seconds of `p`, `t` less than its whole time. */
  function Remaining(leg: Leg, p: Profile, t: real, a: real): Profile {
    if t < p.rise then
      p.(rise := p.rise - t, riseDistance := p.riseDistance - Covered(leg.speed, a, t))
    else if t - p.rise < p.cruise then
      Profile(p.peak, 0.0, 0.0, p.cruise - (t - p.rise),
              p.cruiseDistance - Over(p.peak, t - p.rise), p.fall)
    else
      var u := t - p.rise - p.cruise;
      Profile(p.peak - Over(a, u), 0.0, 0.0, 0.0, 0.0, p.fall - u)
  }

  lemma RiseSplit(s: real, a: real, rise: real, t: real)
    ensures Covered(s, a, rise) - Covered(s, a, t) == Covered(s + a * t, a, rise - t)
  {
  }

  lemma FallSplit(s: real, a: real, fall: real, t: real)
    ensures Covered(s, -a, fall) - Covered(s, -a, t) == Covered(s - a * t, -a, fall - t)
  {
  }

  lemma RiseConsistent(leg: Leg, p: Profile, t: real, lim: Limits, after: Leg, rest: Profile)
    requires ValidLimits(lim) && Consistent(leg, p, lim) && 0.0 <= t < p.rise
    requires after.distance == leg.distance - Covered(leg.speed, lim.acceleration, t)
    requires after.speed == leg.speed + lim.acceleration * t
    requires rest == p.(rise := p.rise - t,
                        riseDistance := p.riseDistance
                                        - Covered(leg.speed, lim.acceleration, t))
    ensures Consistent(after, rest, lim)
  {
    RiseSplit(leg.speed, lim.acceleration, p.rise, t);
    assert lim.acceleration * (p.rise - t) >= 0.0;
  }

  lemma CruiseConsistent(leg: Leg, p: Profile, t: real, lim: Limits, after: Leg, rest: Profile)
    requires ValidLimits(lim) && Consistent(leg, p, lim) && 0.0 <= t < p.cruise
    requires after == Leg(leg.distance - p.riseDistance - p.peak * t, p.peak)
    requires rest == Profile(p.peak, 0.0, 0.0, p.cruise - t, p.cruiseDistance - p.peak * t, p.fall)
    ensures Consistent(after, rest, lim)
  {
  }

  lemma FallConsistent(leg: Leg, p: Profile, t: real, lim: Limits, after: Leg, rest: Profile)
    requires ValidLimits(lim) && Consistent(leg, p, lim) && leg.speed >= 0.0 && 0.0 <= t < p.fall
    requires after == Leg(leg.distance - p.riseDistance - p.cruiseDistance
                          - Covered(p.peak, -lim.acceleration, t),
                          p.peak - lim.acceleration * t)
    requires rest == Profile(p.peak - lim.acceleration * t, 0.0, 0.0, 0.0, 0.0, p.fall - t)
    ensures Consistent(after, rest, lim)
  {
    assert lim.acceleration * (p.fall - t) > 0.0;
  }

  /** Partway along a consistent profile, what is left of the profile is consistent with
      what is left of the leg. */
  lemma RemainingConsistent(leg: Leg, p: Profile, t: real, lim: Limits)
    requires ValidLimits(lim) && Consistent(leg, p, lim) && leg.speed >= 0.0
    requires 0.0 <= t < LegTime(p)
    ensures Consistent(Along(leg, p, t, lim.acceleration),
                       Remaining(leg, p, t, lim.acceleration), lim)
    ensures Along(leg, p, t, lim.acceleration).speed >= 0.0
  {
    hide Consistent;
    var after, rest := Along(leg, p, t, lim.acceleration), Remaining(leg, p, t, lim.acceleration);
    if t < p.rise {
      RiseConsistent(leg, p, t, lim, after, rest);
    } else if t - p.rise < p.cruise {
      CruiseConsistent(leg, p, t - p.rise, lim, after, rest);
    } else {
      FallConsistent(leg, p, t - p.rise - p.cruise, lim, after, rest);
    }
  }

  /** A consistent profile stops within its leg. */
  lemma ConsistentStoppable(leg: Leg, p: Profile, lim: Limits)
    requires ValidLimits(lim) && Consistent(leg, p, lim) && leg.speed >= 0.0
    ensures Stoppable(leg, lim)
  {
    var a := lim.acceleration;
    assert leg.distance > 0.0 by {
      assert p.peak * p.fall > 0.0;
      assert leg.speed * p.rise >= 0.0;
      assert a * p.rise * p.rise >= 0.0;
      assert p.peak * p.cruise >= 0.0;
    }
    assert leg.speed * leg.speed <= 2.0 * a * leg.distance by {
      assert 2.0 * a * p.riseDistance == (leg.speed + p.peak) * (a * p.rise);
      assert 2.0 * a * (p.peak * p.fall / 2.0) == p.peak * p.peak;
      assert p.cruiseDistance >= 0.0;
    }
  }

  lemma ConsistentUnique(leg: Leg, p: Profile, q: Profile, lim: Limits)
    requires ValidLimits(lim) && Consistent(leg, p, lim) && Consistent(leg, q, lim)
    requires p.peak == q.peak
    ensures p == q
  {
  }

  lemma AlongComposes(leg: Leg, p: Profile, t: real, u: real, a: real)
    requires 0.0 <= t < LegTime(p) && u >= 0.0 && p.rise >= 0.0 && p.cruise >= 0.0
    requires p.cruiseDistance == p.peak * p.cruise
    ensures Along(Along(leg, p, t, a), Remaining(leg, p, t, a), u, a) == Along(leg, p, t + u, a)
  {
    hide Covered;
    var q, r := Along(leg, p, t, a), Remaining(leg, p, t, a);
    var w := t + u - p.rise - p.cruise;
    if t < p.rise {
      RiseSplit(leg.speed, a, t + u, t);
      assert u - r.rise - r.cruise == w && u - r.rise == t + u - p.rise;
    } else if t - p.rise < p.cruise {
      assert p.peak * (t - p.rise) + p.peak * u == p.peak * (t + u - p.rise);
      assert u - r.rise - r.cruise == w;
    } else {
      var past := t - p.rise - p.cruise;
      FallSplit(p.peak, a, w, past);
      assert p.peak - a * past == r.peak && u == w - past;
      assert Covered(p.peak, -a, w) - Covered(p.peak, -a, past) == Covered(r.peak, -a, u);
      assert r.peak - a * u == p.peak - a * w;
      if w < p.fall {
        assert Along(q, r, u, a).distance == Along(leg, p, t + u, a).distance;
      }
    }
  }

  /** The cruise is exactly what the peak leaves of the leg's energy. */
  lemma CruiseEnergy(leg: Leg, p: Profile, lim: Limits)
    requires ValidLimits(lim) && Consistent(leg, p, lim)
    ensures Energy(leg, lim.acceleration) - p.peak * p.peak == lim.acceleration * p.cruiseDistance
  {
    var a := lim.acceleration;
    assert 2.0 * a * p.riseDistance == (leg.speed + p.peak) * (a * p.rise);
    assert 2.0 * a * (p.peak * p.fall / 2.0) == p.peak * p.peak;
  }

  lemma PeakIs(root: Root, leg: Leg, peak: real, lim: Limits)
    requires IsSqrt(root) && 0.0 < peak <= lim.speed
    requires peak * peak <= Energy(leg, lim.acceleration)
    requires peak == lim.speed || peak * peak == Energy(leg, lim.acceleration)
    ensures Peak(root, leg, lim) == peak
  {
    var r := root(Energy(leg, lim.acceleration));
    assert r >= 0.0 && r * r >= peak * peak by {
      assert peak * peak > 0.0;
    }
    if r < peak {
      SquareLess(r, peak);
    } else if r > peak {
      SquareLess(peak, r);
    }
  }

  /** A consistent profile has the peak the integrator computes, hence is its profile. */
  lemma ConsistentIsProfile(root: Root, leg: Leg, p: Profile, lim: Limits)
    requires IsSqrt(root) && ValidLimits(lim) && leg.speed >= 0.0 && Consistent(leg, p, lim)
    ensures Stoppable(leg, lim) && ProfileOf(root, leg, lim) == p
  {
    hide ProfileOf, Peak, Energy;
    ConsistentStoppable(leg, p, lim);
    CruiseEnergy(leg, p, lim);
    assert p.cruiseDistance >= 0.0 && (p.cruise == 0.0 ==> p.cruiseDistance == 0.0);
    assert lim.acceleration * p.cruiseDistance >= 0.0;
    PeakIs(root, leg, p.peak, lim);
    ProfileConsistent(root, leg, lim);
    PeakOfProfile(root, leg, lim);
    ConsistentUnique(leg, p, ProfileOf(root, leg, lim), lim);
  }

  lemma PeakOfProfile(root: Root, leg: Leg, lim: Limits)
    requires ValidLimits(lim)
    ensures ProfileOf(root, leg, lim).peak == Peak(root, leg, lim)
  {
  }

  function LegAt(root: Root, leg: Leg, t: real, lim: Limits): Leg
    requires ValidLimits(lim)
  {
    Along(leg, ProfileOf(root, leg, lim), t, lim.acceleration)
  }

  /** Before a leg ends it can be cut at any time: both parts replay the whole. */
  lemma LegComposes(root: Root, leg: Leg, t: real, u: real, lim: Limits)
    requires IsSqrt(root) && ValidLimits(lim) && Stoppable(leg, lim)
    requires 0.0 <= t < LegTime(ProfileOf(root, leg, lim)) && u >= 0.0
    ensures Stoppable(LegAt(root, leg, t, lim), lim)
    ensures LegAt(root, LegAt(root, leg, t, lim), u, lim) == LegAt(root, leg, t + u, lim)
    ensures LegTime(ProfileOf(root, LegAt(root, leg, t, lim), lim))
         == LegTime(ProfileOf(root, leg, lim)) - t
  {
    hide ProfileOf, Along, Remaining, Consistent, IsSqrt, LegTime, StopDistance;
    var p, a := ProfileOf(root, leg, lim), lim.acceleration;
    ProfileConsistent(root, leg, lim);
    ConsistentParts(leg, p, lim);
    RemainingConsistent(leg, p, t, lim);
    ConsistentIsProfile(root, Along(leg, p, t, a), Remaining(leg, p, t, a), lim);
    AlongComposes(leg, p, t, u, a);
    assert LegTime(Remaining(leg, p, t, a)) == LegTime(p) - t by {
      RemainingTime(leg, p, t, a);
    }
  }

  lemma ConsistentParts(leg: Leg, p: Profile, lim: Limits)
    requires Consistent(leg, p, lim)
    ensures p.rise >= 0.0 && p.cruise >= 0.0 && p.cruiseDistance == p.peak * p.cruise
  {
  }

  lemma RemainingTime(leg: Leg, p: Profile, t: real, a: real)
    requires 0.0 <= t < LegTime(p)
    ensures LegTime(Remaining(leg, p, t, a)) == LegTime(p) - t
  {
  }

  /* ---------------------------------------------------------------------------------------
     The integrator in terms of legs.
     --------------------------------------------------------------------------------------- */

  /** The leg a component still has to travel to `target`. */
  function LegOf(k: Kinetic, target: real): Leg {
    Leg(Abs(target - k.position), k.velocity * Sign(target - k.position))
  }

  /** The component at the given leg of a target that lies in the given direction. */
  function FromLeg(leg: Leg, target: real, direction: real): Kinetic {
    Kinetic(target - direction * leg.distance, direction * leg.speed)
  }

  lemma ApproachIsLeg(root: Root, k: Kinetic, target: real, dt: real, lim: Limits)
    requires ValidLimits(lim) && Stoppable(LegOf(k, target), lim)
    requires Consistent(LegOf(k, target), ProfileOf(root, LegOf(k, target), lim), lim)
    ensures Approach(root, k, target, dt, lim)
         == FromLeg(LegAt(root, LegOf(k, target), dt, lim), target, Sign(target - k.position))
  {
    hide ProfileOf, Covered, Consistent;
    var d := Sign(target - k.position);
    var leg := LegOf(k, target);
    var p := ProfileOf(root, leg, lim);
    var x, y := Approach(root, k, target, dt, lim), FromLeg(Along(leg, p, dt, lim.acceleration), target, d);
    if d == 1.0 {
      assert x.position == y.position && x.velocity == y.velocity;
    } else {
      assert x.position == y.position && x.velocity == y.velocity;
    }
  }

  /** A component that need not brake first has a leg it can stop on, or is at its target. */
  lemma ApproachStoppable(k: Kinetic, target: real, lim: Limits)
    requires ValidLimits(lim) && Abs(k.velocity) <= lim.speed
    requires !BrakesFirst(k, Some(target), lim) && k != Kinetic(target, 0.0)
    ensures Stoppable(LegOf(k, target), lim)
  {
  }

  /** A stoppable leg and the component it describes determine each other. */
  lemma FromLegBack(leg: Leg, target: real, direction: real, lim: Limits)
    requires ValidLimits(lim) && Stoppable(leg, lim) && (direction == 1.0 || direction == -1.0)
    ensures var k := FromLeg(leg, target, direction);
            && LegOf(k, target) == leg && Sign(target - k.position) == direction
            && !BrakesFirst(k, Some(target), lim) && k != Kinetic(target, 0.0)
            && Abs(k.velocity) <= lim.speed
  {
    var k := FromLeg(leg, target, direction);
    assert leg.speed * leg.speed / (2.0 * lim.acceleration) <= leg.distance;
    assert k.velocity * k.velocity == leg.speed * leg.speed;
    assert k.velocity * (target - k.position) == leg.speed * leg.distance;
    assert leg.speed > 0.0 ==> leg.speed * leg.distance > 0.0;
  }

  /** Two successive approaches are one. */
  lemma ApproachComposes(root: Root, k: Kinetic, target: real, t: real, u: real, lim: Limits)
    requires IsSqrt(root) && ValidLimits(lim) && Abs(k.velocity) <= lim.speed
    requires !BrakesFirst(k, Some(target), lim) && t >= 0.0 && u >= 0.0
    ensures var m := Approach(root, k, target, t, lim);
            && Abs(m.velocity) <= lim.speed && !BrakesFirst(m, Some(target), lim)
            && Approach(root, m, target, u, lim) == Approach(root, k, target, t + u, lim)
  {
    hide ProfileOf, Along, LegTime;
    if k != Kinetic(target, 0.0) {
      ApproachStoppable(k, target, lim);
      var leg, d := LegOf(k, target), Sign(target - k.position);
      var p := ProfileOf(root, leg, lim);
      ProfileConsistent(root, leg, lim);
      ApproachIsLeg(root, k, target, t, lim);
      ApproachIsLeg(root, k, target, t + u, lim);
      if t < LegTime(p) {
        var q := LegAt(root, leg, t, lim);
        LegComposes(root, leg, t, u, lim);
        FromLegBack(q, target, d, lim);
        ProfileConsistent(root, q, lim);
        ApproachIsLeg(root, FromLeg(q, target, d), target, u, lim);
      } else {
        AlongEnds(leg, p, t, lim.acceleration);
        AlongEnds(leg, p, t + u, lim.acceleration);
      }
    }
  }

  lemma AlongEnds(leg: Leg, p: Profile, t: real, a: real)
    requires p.fall >= 0.0 && p.cruise >= 0.0 && p.rise >= 0.0
    ensures t >= LegTime(p) ==> Along(leg, p, t, a) == Leg(0.0, 0.0)
  {
  }

  lemma DivCompare(x: real, y: real, z: real)
    requires y > 0.0
    ensures x / y > z <==> x > y * z
    ensures x / y <= z <==> x <= y * z
    ensures y * (x / y) == x
  {
  }

  /** Signed distance to the target along the present motion. */
  function Ahead(k: Kinetic, target: real): real {
    Sign(k.velocity) * (target - k.position)
  }

  lemma StopDistancePositive(v: real, lim: Limits)
    requires ValidLimits(lim) && v != 0.0
    ensures StopDistance(v, lim) > 0.0
  {
    Positive(Abs(v), Abs(v), v * v);
    DivPositive(v * v, 2.0 * lim.acceleration);
  }

  lemma DivPositive(x: real, y: real)
    requires x > 0.0 && y > 0.0
    ensures x / y > 0.0
  {
  }

  /** A moving component brakes first exactly when its stopping distance exceeds the signed
      distance to the target along its motion. */
  lemma BrakesExactly(k: Kinetic, target: real, lim: Limits)
    requires ValidLimits(lim) && k.velocity != 0.0
    ensures BrakesFirst(k, Some(target), lim) <==> StopDistance(k.velocity, lim) > Ahead(k, target)
  {
    StopDistancePositive(k.velocity, lim);
    hide StopDistance;
    var d := target - k.position;
    if k.velocity > 0.0 {
      assert Ahead(k, target) == d;
      assert k.velocity * d <= 0.0 <==> d <= 0.0;
    } else {
      assert Ahead(k, target) == -d;
      assert k.velocity * d <= 0.0 <==> d >= 0.0;
    }
  }

  /** Braking keeps the sign of the velocity and removes speed at the given rate. */
  lemma BrakedSpeed(k: Kinetic, t: real, lim: Limits)
    requires ValidLimits(lim) && k.velocity != 0.0 && 0.0 <= t < StopTime(k, lim)
    ensures var m := Braked(k, t, lim);
            && m.velocity != 0.0 && Sign(m.velocity) == Sign(k.velocity)
            && Abs(m.velocity) == Abs(k.velocity) - lim.acceleration * t
            && StopTime(m, lim) == StopTime(k, lim) - t
  {
    var a, w := lim.acceleration, Abs(k.velocity);
    DivCompare(w, a, t);
    assert a * t < w;
    var m := Braked(k, t, lim);
    assert m.velocity == Sign(k.velocity) * (w - a * t);
    DivCompare(w - a * t, a, 0.0);
    assert a * (w / a - t) == w - a * t;
  }

  lemma BrakedAdds(k: Kinetic, t: real, u: real, lim: Limits)
    requires ValidLimits(lim) && k.velocity != 0.0 && 0.0 <= t < StopTime(k, lim)
    ensures Braked(Braked(k, t, lim), u, lim) == Braked(k, t + u, lim)
  {
    hide Covered, StopTime;
    BrakedSpeed(k, t, lim);
    var b := -(lim.acceleration * Sign(k.velocity));
    RiseSplit(k.velocity, b, t + u, t);
    assert k.velocity + b * t + b * u == k.velocity + b * (t + u);
    var m := Braked(k, t, lim);
    assert m == Kinetic(k.position + Covered(k.velocity, b, t), k.velocity + b * t);
    assert Braked(m, u, lim) == Kinetic(m.position + Covered(m.velocity, b, u), m.velocity + b * u);
  }

  lemma BrakesLater(k: Kinetic, target: real, t: real, lim: Limits)
    requires ValidLimits(lim) && BrakesFirst(k, Some(target), lim) && 0.0 <= t < StopTime(k, lim)
    ensures BrakesFirst(Braked(k, t, lim), Some(target), lim)
  {
    hide BrakesFirst;
    var m := Braked(k, t, lim);
    BrakesExactly(k, target, lim);
    BrakedSpeed(k, t, lim);
    BrakesExactly(m, target, lim);
    BrakedBalance(k, target, t, lim);
  }

  /** While braking, stopping distance and distance ahead shrink together. */
  lemma BrakedBalance(k: Kinetic, target: real, t: real, lim: Limits)
    requires ValidLimits(lim) && k.velocity != 0.0 && 0.0 <= t < StopTime(k, lim)
    ensures var m := Braked(k, t, lim);
            StopDistance(m.velocity, lim) - Ahead(m, target) == StopDistance(k.velocity, lim) - Ahead(k, target)
  {
    BrakedSpeed(k, t, lim);
    var m, w, a := Braked(k, t, lim), Abs(k.velocity), lim.acceleration;
    assert Ahead(m, target) == Ahead(k, target) - (w * t - a * t * t / 2.0);
    assert m.velocity * m.velocity == (w - a * t) * (w - a * t);
    assert k.velocity * k.velocity == w * w;
    DivCompare(w * w, 2.0 * a, 0.0);
    assert 2.0 * a * (w * w / (2.0 * a) - (w * t - a * t * t / 2.0)) == (w - a * t) * (w - a * t);
  }

  /** Partway through braking the component still has to brake, to the same resting place. */
  lemma BrakingComposes(k: Kinetic, target: Option<real>, t: real, u: real, lim: Limits)
    requires ValidLimits(lim) && BrakesFirst(k, target, lim)
    requires 0.0 <= t < StopTime(k, lim) && u >= 0.0
    ensures var m := Braked(k, t, lim);
            && BrakesFirst(m, target, lim) && StopTime(m, lim) == StopTime(k, lim) - t
            && Braked(m, u, lim) == Braked(k, t + u, lim) && Rested(m, lim) == Rested(k, lim)
            && Abs(m.velocity) <= Abs(k.velocity)
  {
    BrakedSpeed(k, t, lim);
    BrakedAdds(k, t, u, lim);
    BrakedAdds(k, t, StopTime(k, lim) - t, lim);
    match target
    case None =>
    case Some(goal) => BrakesLater(k, goal, t, lim);
  }

  /* ---------------------------------------------------------------------------------------
     Main results.
     --------------------------------------------------------------------------------------- */

  /** Frame-rate independence: advancing twice is advancing once by the sum. */
  lemma AdvanceComposes(root: Root, k: Kinetic, target: Option<real>, t: real, u: real, lim: Limits)
    requires IsSqrt(root) && ValidLimits(lim) && Abs(k.velocity) <= lim.speed
    requires t >= 0.0 && u >= 0.0
    ensures Abs(Advance(root, k, target, t, lim).velocity) <= lim.speed
    ensures Advance(root, Advance(root, k, target, t, lim), target, u, lim)
         == Advance(root, k, target, t + u, lim)
  {
    hide Approach, Braked;
    if BrakesFirst(k, target, lim) {
      if t < StopTime(k, lim) {
        BrakingComposes(k, target, t, u, lim);
      } else if target.Some? {
        ApproachComposes(root, Rested(k, lim), target.value, t - StopTime(k, lim), u, lim);
      }
    } else if target.Some? {
      ApproachComposes(root, k, target.value, t, u, lim);
    }
  }

  /** Advancing through consecutive frame intervals. */
  function AdvanceAll(root: Root, k: Kinetic, target: Option<real>, steps: seq<real>, lim: Limits): Kinetic
    requires ValidLimits(lim)
    decreases |steps|
  {
    if steps == [] then k
    else AdvanceAll(root, Advance(root, k, target, steps[0], lim), target, steps[1..], lim)
  }

  function Total(steps: seq<real>): real {
    if steps == [] then 0.0 else steps[0] + Total(steps[1..])
  }

  /** Any partition of a time span into frame intervals gives the same motion. */
  lemma {:induction false} PartitionIrrelevant(root: Root, k: Kinetic, target: Option<real>,
                                               steps: seq<real>, lim: Limits)
    requires IsSqrt(root) && ValidLimits(lim) && Abs(k.velocity) <= lim.speed && steps != []
    requires forall i :: 0 <= i < |steps| ==> steps[i] >= 0.0
    ensures AdvanceAll(root, k, target, steps, lim) == Advance(root, k, target, Total(steps), lim)
    decreases |steps|
  {
    hide Advance;
    if |steps| > 1 {
      AdvanceComposes(root, k, target, steps[0], steps[1], lim);
      var merged := [steps[0] + steps[1]] + steps[2..];
      assert merged[1..] == steps[2..] == steps[1..][1..];
      PartitionIrrelevant(root, k, target, merged, lim);
      assert Total(steps[1..]) == steps[1] + Total(steps[2..]);
      assert AdvanceAll(root, k, target, steps, lim) == AdvanceAll(root, k, target, merged, lim);
    } else {
      assert steps[1..] == [];
    }
  }

  /** Time after which the component rests on its target for good. */
  function ArrivalTime(root: Root, k: Kinetic, target: real, lim: Limits): real
    requires ValidLimits(lim)
  {
    if BrakesFirst(k, Some(target), lim) then
      StopTime(k, lim) + LegTime(ProfileOf(root, LegOf(Rested(k, lim), target), lim))
    else if k == Kinetic(target, 0.0) then 0.0
    else LegTime(ProfileOf(root, LegOf(k, target), lim))
  }

  lemma LegArrives(root: Root, leg: Leg, t: real, lim: Limits)
    requires IsSqrt(root) && ValidLimits(lim) && Stoppable(leg, lim) && t >= 0.0
    ensures LegAt(root, leg, t, lim).distance == 0.0 <==> t >= LegTime(ProfileOf(root, leg, lim))
    ensures t >= LegTime(ProfileOf(root, leg, lim)) ==> LegAt(root, leg, t, lim) == Leg(0.0, 0.0)
  {
    hide ProfileOf, Along, LegTime;
    var p := ProfileOf(root, leg, lim);
    ProfileConsistent(root, leg, lim);
    AlongEnds(leg, p, t, lim.acceleration);
    if t < LegTime(p) {
      LegComposes(root, leg, t, 0.0, lim);
    }
  }

  lemma LegTimePositive(root: Root, leg: Leg, lim: Limits)
    requires IsSqrt(root) && ValidLimits(lim) && Stoppable(leg, lim)
    ensures LegTime(ProfileOf(root, leg, lim)) > 0.0
  {
    hide ProfileOf;
    ProfileConsistent(root, leg, lim);
  }

  lemma ApproachArrives(root: Root, k: Kinetic, target: real, t: real, lim: Limits)
    requires IsSqrt(root) && ValidLimits(lim) && Abs(k.velocity) <= lim.speed && t >= 0.0
    requires !BrakesFirst(k, Some(target), lim) && k != Kinetic(target, 0.0)
    ensures Approach(root, k, target, t, lim) == Kinetic(target, 0.0)
       <==> t >= LegTime(ProfileOf(root, LegOf(k, target), lim))
    ensures LegTime(ProfileOf(root, LegOf(k, target), lim)) > 0.0
  {
    hide ProfileOf, LegAt, LegTime, BrakesFirst;
    ApproachStoppable(k, target, lim);
    LegTimePositive(root, LegOf(k, target), lim);
    ProfileConsistent(root, LegOf(k, target), lim);
    ApproachIsLeg(root, k, target, t, lim);
    LegArrives(root, LegOf(k, target), t, lim);
  }

  /** A component that brakes first comes to rest away from its target. */
  lemma RestedAway(k: Kinetic, target: real, lim: Limits)
    requires ValidLimits(lim) && BrakesFirst(k, Some(target), lim)
    ensures Rested(k, lim).position != target
    ensures forall t :: 0.0 <= t < StopTime(k, lim) ==> Braked(k, t, lim).velocity != 0.0
  {
    BrakesExactly(k, target, lim);
    assert Sign(k.velocity) * (target - Rested(k, lim).position)
        == Ahead(k, target) - StopDistance(k.velocity, lim) by {
      RestedDistance(k, target, lim);
    }
    forall t | 0.0 <= t < StopTime(k, lim) ensures Braked(k, t, lim).velocity != 0.0 {
      BrakedSpeed(k, t, lim);
    }
  }

  lemma RestedDistance(k: Kinetic, target: real, lim: Limits)
    requires ValidLimits(lim)
    ensures Sign(k.velocity) * (target - Rested(k, lim).position)
         == Ahead(k, target) - StopDistance(k.velocity, lim)
  {
    var w, a := Abs(k.velocity), lim.acceleration;
    var e := w / a;
    DivCompare(w, a, 0.0);
    assert a * e == w;
    assert StopDistance(k.velocity, lim) == w * e / 2.0 by {
      DivCompare(w * w, 2.0 * a, 0.0);
      assert 2.0 * a * (w * e / 2.0) == w * w;
    }
    assert Rested(k, lim).position == k.position + Sign(k.velocity) * (w * e - a * e * e / 2.0);
  }

  /** The component rests on its target exactly from its arrival time on. */
  lemma ArrivesExactly(root: Root, k: Kinetic, target: real, t: real, lim: Limits)
    requires IsSqrt(root) && ValidLimits(lim) && Abs(k.velocity) <= lim.speed && t >= 0.0
    ensures Advance(root, k, Some(target), t, lim) == Kinetic(target, 0.0)
       <==> t >= ArrivalTime(root, k, target, lim)
  {
    hide Approach, ProfileOf, LegTime, Braked;
    if BrakesFirst(k, Some(target), lim) {
      RestedAway(k, target, lim);
      var late := if t >= StopTime(k, lim) then t - StopTime(k, lim) else 0.0;
      ApproachArrives(root, Rested(k, lim), target, late, lim);
    } else if k == Kinetic(target, 0.0) {
      assert Approach(root, k, target, t, lim) == k by {
        ApproachStays(root, target, t, lim);
      }
    } else {
      ApproachArrives(root, k, target, t, lim);
    }
  }

  lemma ApproachStays(root: Root, target: real, t: real, lim: Limits)
    requires ValidLimits(lim)
    ensures Approach(root, Kinetic(target, 0.0), target, t, lim) == Kinetic(target, 0.0)
  {
  }

  /* Envelope of one leg. */

  lemma OverAdds(rate: real, t: real, u: real)
    ensures Over(rate, t + u) == Over(rate, t) + Over(rate, u)
  {
  }

  lemma OverNonNegative(rate: real, t: real)
    requires rate >= 0.0 && t >= 0.0
    ensures Over(rate, t) >= 0.0
  {
    NonNegative(rate, t, rate * t);
  }

  lemma OverMonotone(low: real, high: real, t: real)
    requires low <= high && t >= 0.0
    ensures Over(low, t) <= Over(high, t)
  {
    NonNegative(high - low, t, high * t - low * t);
  }

  /** A phase at speeds between zero and `cap` covers at most the distance at `cap`. */
  lemma CoveredBounds(speed: real, a: real, t: real, cap: real)
    requires t >= 0.0 && 0.0 <= speed <= cap && 0.0 <= speed + a * t <= cap
    ensures 0.0 <= Covered(speed, a, t) <= Over(cap, t)
  {
    assert Covered(speed, a, t) == t * ((speed + (speed + a * t)) / 2.0);
    NonNegative(t, (speed + (speed + a * t)) / 2.0, Covered(speed, a, t));
    NonNegative(t, cap - (speed + (speed + a * t)) / 2.0, cap * t - Covered(speed, a, t));
  }

  /** Within a profile the speed stays within the cap and changes at most at the given rate,
      and the distance never grows nor shrinks faster than at the cap. */
  ghost predicate LegEnvelope(before: Leg, after: Leg, t: real, lim: Limits) {
    && 0.0 <= after.speed <= lim.speed
    && Abs(after.speed - before.speed) <= Over(lim.acceleration, t)
    && 0.0 <= after.distance <= before.distance
    && before.distance - after.distance <= Over(lim.speed, t)
  }

  /** The linear facts about a consistent profile that its envelope needs. */
  ghost predicate Bounded(leg: Leg, p: Profile, lim: Limits) {
    var a, m := lim.acceleration, lim.speed;
    && p.rise >= 0.0 && p.cruise >= 0.0 && p.fall >= 0.0
    && 0.0 <= leg.speed <= p.peak <= m
    && Over(a, p.rise) == p.peak - leg.speed && Over(a, p.fall) == p.peak
    && p.riseDistance == Covered(leg.speed, a, p.rise) <= Over(m, p.rise)
    && p.cruiseDistance == Over(p.peak, p.cruise) <= Over(m, p.cruise)
    && leg.distance == p.riseDistance + p.cruiseDistance + Covered(p.peak, -a, p.fall)
    && Covered(p.peak, -a, p.fall) <= Over(m, p.fall)
  }

  lemma ConsistentBounded(leg: Leg, p: Profile, lim: Limits)
    requires ValidLimits(lim) && Consistent(leg, p, lim) && leg.speed >= 0.0
    ensures Bounded(leg, p, lim)
  {
    CoveredBounds(leg.speed, lim.acceleration, p.rise, lim.speed);
    OverMonotone(p.peak, lim.speed, p.cruise);
    CoveredBounds(p.peak, -lim.acceleration, p.fall, lim.speed);
  }

  /** Speed and distance while rising to time `t`. */
  lemma RiseBounds(speed: real, a: real, rise: real, t: real, cap: real)
    requires a > 0.0 && speed >= 0.0 && 0.0 <= t <= rise && speed + Over(a, rise) <= cap
    ensures 0.0 <= Over(a, t) <= Over(a, rise)
    ensures 0.0 <= Covered(speed, a, t) <= Covered(speed, a, rise)
    ensures Covered(speed, a, t) <= Over(cap, t)
  {
    OverNonNegative(a, t);
    OverNonNegative(a, rise - t);
    OverAdds(a, t, rise - t);
    CoveredBounds(speed, a, t, cap);
    CoveredLess(speed, a, t, rise);
  }

  /** Speed and distance while falling from `peak` until time `t`. */
  lemma FallBounds(peak: real, a: real, fall: real, t: real, cap: real)
    requires a > 0.0 && 0.0 <= t <= fall && Over(a, fall) == peak <= cap
    ensures 0.0 <= Over(a, t) <= peak
    ensures 0.0 <= Covered(peak, -a, t) <= Covered(peak, -a, fall)
    ensures Covered(peak, -a, t) <= Over(cap, t)
  {
    OverNonNegative(a, t);
    OverNonNegative(a, fall - t);
    OverAdds(a, t, fall - t);
    CoveredBounds(peak, -a, t, cap);
    FallSplit(peak, a, fall, t);
    CoveredBounds(peak - a * t, -a, fall - t, cap);
  }

  lemma RiseEnvelope(leg: Leg, p: Profile, t: real, lim: Limits, after: Leg)
    requires ValidLimits(lim) && Bounded(leg, p, lim) && 0.0 <= t < p.rise
    requires after == Leg(leg.distance - Covered(leg.speed, lim.acceleration, t),
                          leg.speed + Over(lim.acceleration, t))
    ensures LegEnvelope(leg, after, t, lim)
  {
    hide Covered, Over;
    RiseBounds(leg.speed, lim.acceleration, p.rise, t, lim.speed);
    RestBounds(leg, p, lim);
  }

  lemma CruiseEnvelope(leg: Leg, p: Profile, w: real, lim: Limits, after: Leg)
    requires ValidLimits(lim) && Bounded(leg, p, lim) && 0.0 <= w < p.cruise
    requires after == Leg(leg.distance - p.riseDistance - Over(p.peak, w), p.peak)
    ensures LegEnvelope(leg, after, p.rise + w, lim)
  {
    hide Covered, Over;
    RestBounds(leg, p, lim);
    OverAdds(lim.acceleration, p.rise, w);
    OverAdds(lim.speed, p.rise, w);
    OverAdds(p.peak, w, p.cruise - w);
    OverNonNegative(lim.acceleration, w);
    OverNonNegative(p.peak, w);
    OverNonNegative(p.peak, p.cruise - w);
    OverMonotone(p.peak, lim.speed, w);
  }

  lemma FallEnvelope(leg: Leg, p: Profile, w: real, lim: Limits, after: Leg)
    requires ValidLimits(lim) && Bounded(leg, p, lim) && 0.0 <= w < p.fall
    requires after == Leg(leg.distance - p.riseDistance - p.cruiseDistance
                          - Covered(p.peak, -lim.acceleration, w),
                          p.peak - Over(lim.acceleration, w))
    ensures LegEnvelope(leg, after, p.rise + p.cruise + w, lim)
  {
    hide Covered, Over;
    RestBounds(leg, p, lim);
    FallBounds(p.peak, lim.acceleration, p.fall, w, lim.speed);
    OverAdds(lim.acceleration, p.rise + p.cruise, w);
    OverAdds(lim.acceleration, p.rise, p.cruise);
    OverNonNegative(lim.acceleration, p.cruise);
    OverAdds(lim.speed, p.rise + p.cruise, w);
    OverAdds(lim.speed, p.rise, p.cruise);
  }

  lemma EndEnvelope(leg: Leg, p: Profile, late: real, lim: Limits)
    requires ValidLimits(lim) && Bounded(leg, p, lim) && late >= 0.0
    ensures LegEnvelope(leg, Leg(0.0, 0.0), LegTime(p) + late, lim)
  {
    hide Covered, Over;
    RestBounds(leg, p, lim);
    var a, m := lim.acceleration, lim.speed;
    OverAdds(a, p.fall, p.rise + p.cruise + late);
    OverNonNegative(a, p.rise + p.cruise + late);
    OverAdds(m, p.rise + p.cruise + p.fall, late);
    OverAdds(m, p.rise + p.cruise, p.fall);
    OverAdds(m, p.rise, p.cruise);
    OverNonNegative(m, late);
    assert LegTime(p) + late == p.fall + (p.rise + p.cruise + late);
  }

  lemma RestBounds(leg: Leg, p: Profile, lim: Limits)
    requires ValidLimits(lim) && Bounded(leg, p, lim)
    ensures p.riseDistance >= 0.0 && p.cruiseDistance >= 0.0
    ensures Covered(p.peak, -lim.acceleration, p.fall) >= 0.0
  {
    hide Covered, Over;
    RiseBounds(leg.speed, lim.acceleration, p.rise, p.rise, lim.speed);
    OverNonNegative(p.peak, p.cruise);
    FallBounds(p.peak, lim.acceleration, p.fall, p.fall, lim.speed);
  }

  lemma AlongEnvelope(leg: Leg, p: Profile, t: real, lim: Limits)
    requires ValidLimits(lim) && Consistent(leg, p, lim) && leg.speed >= 0.0 && t >= 0.0
    ensures LegEnvelope(leg, Along(leg, p, t, lim.acceleration), t, lim)
  {
    ConsistentBounded(leg, p, lim);
    hide Consistent, Bounded, LegEnvelope, Covered, Over;
    var after := Along(leg, p, t, lim.acceleration);
    if t < p.rise {
      RiseEnvelope(leg, p, t, lim, after);
    } else if t - p.rise < p.cruise {
      CruiseEnvelope(leg, p, t - p.rise, lim, after);
    } else if t - p.rise - p.cruise < p.fall {
      FallEnvelope(leg, p, t - p.rise - p.cruise, lim, after);
    } else {
      EndEnvelope(leg, p, t - LegTime(p), lim);
    }
  }

  lemma CoveredLess(speed: real, a: real, t: real, u: real)
    requires speed >= 0.0 && a >= 0.0 && 0.0 <= t <= u
    ensures Covered(speed, a, t) <= Covered(speed, a, u)
  {
    NonNegative(speed, u - t, speed * u - speed * t);
    NonNegative(a, u + t, a * (u + t));
    NonNegative(a * (u + t), u - t, a * u * u - a * t * t);
  }

  /** Speed stays under the cap, and velocity and position change no faster than the caps
      allow over `t` seconds. */
  ghost predicate Envelope(before: Kinetic, after: Kinetic, t: real, lim: Limits) {
    && Abs(after.velocity) <= lim.speed
    && Abs(after.velocity - before.velocity) <= Over(lim.acceleration, t)
    && Abs(after.position - before.position) <= Over(lim.speed, t)
  }

  lemma EnvelopeJoins(k: Kinetic, m: Kinetic, n: Kinetic, t: real, u: real, lim: Limits)
    requires Envelope(k, m, t, lim) && Envelope(m, n, u, lim)
    ensures Envelope(k, n, t + u, lim)
  {
    OverAdds(lim.acceleration, t, u);
    OverAdds(lim.speed, t, u);
  }

  /** Braking along the direction of motion. */
  lemma BrakedForm(k: Kinetic, t: real, lim: Limits)
    ensures Braked(k, t, lim)
         == Kinetic(k.position + Sign(k.velocity) * Covered(Abs(k.velocity), -lim.acceleration, t),
                    Sign(k.velocity) * (Abs(k.velocity) - Over(lim.acceleration, t)))
  {
  }

  lemma SignedEnvelope(k: Kinetic, m: Kinetic, t: real, lim: Limits)
    requires var w, a, s := Abs(k.velocity), lim.acceleration, Sign(k.velocity);
             && 0.0 <= Over(a, t) <= w <= lim.speed
             && 0.0 <= Covered(w, -a, t) <= Over(lim.speed, t)
             && m == Kinetic(k.position + s * Covered(w, -a, t), s * (w - Over(a, t)))
    ensures Envelope(k, m, t, lim)
    ensures Sign(k.velocity) * (m.position - k.position) >= 0.0
  {
    hide Covered, Over;
  }

  lemma BrakedEnvelope(k: Kinetic, t: real, lim: Limits)
    requires ValidLimits(lim) && k.velocity != 0.0 && Abs(k.velocity) <= lim.speed
    requires 0.0 <= t <= StopTime(k, lim)
    ensures Envelope(k, Braked(k, t, lim), t, lim)
    ensures Sign(k.velocity) * (Braked(k, t, lim).position - k.position) >= 0.0
  {
    hide Covered, Braked, Envelope;
    var w, a := Abs(k.velocity), lim.acceleration;
    DivCompare(w, a, t);
    OverNonNegative(a, t);
    NonNegative(a, StopTime(k, lim) - t, w - a * t);
    CoveredBounds(w, -a, t, lim.speed);
    BrakedForm(k, t, lim);
    SignedEnvelope(k, Braked(k, t, lim), t, lim);
  }

  /** An approach keeps the envelope and stays between its start and its target. */
  lemma ApproachEnvelope(root: Root, k: Kinetic, target: real, t: real, lim: Limits)
    requires IsSqrt(root) && ValidLimits(lim) && Abs(k.velocity) <= lim.speed && t >= 0.0
    requires !BrakesFirst(k, Some(target), lim)
    ensures var m := Approach(root, k, target, t, lim);
            && Envelope(k, m, t, lim)
            && (k.position <= target ==> k.position <= m.position <= target && m.velocity >= 0.0)
            && (k.position >= target ==> k.position >= m.position >= target && m.velocity <= 0.0)
            && (m.position == target ==> m.velocity == 0.0)
  {
    hide ProfileOf, Along, BrakesFirst, Approach, Over;
    if k == Kinetic(target, 0.0) {
      ApproachStays(root, target, t, lim);
      OverNonNegative(lim.acceleration, t);
      OverNonNegative(lim.speed, t);
    } else {
      ApproachStoppable(k, target, lim);
      var leg := LegOf(k, target);
      ProfileConsistent(root, leg, lim);
      ApproachIsLeg(root, k, target, t, lim);
      AlongEnvelope(leg, ProfileOf(root, leg, lim), t, lim);
      LegArrives(root, leg, t, lim);
    }
  }

  lemma RestedEnvelope(k: Kinetic, lim: Limits)
    requires ValidLimits(lim) && k.velocity != 0.0 && Abs(k.velocity) <= lim.speed
    ensures Envelope(k, Rested(k, lim), StopTime(k, lim), lim)
  {
    hide Braked;
    DivCompare(Abs(k.velocity), lim.acceleration, 0.0);
    BrakedEnvelope(k, StopTime(k, lim), lim);
  }

  /** The motion envelope of the integrator over any duration, through every phase. */
  lemma AdvanceEnvelope(root: Root, k: Kinetic, target: Option<real>, t: real, lim: Limits)
    requires IsSqrt(root) && ValidLimits(lim) && Abs(k.velocity) <= lim.speed && t >= 0.0
    ensures Envelope(k, Advance(root, k, target, t, lim), t, lim)
  {
    hide Approach, Braked, Over;
    OverNonNegative(lim.acceleration, t);
    OverNonNegative(lim.speed, t);
    if BrakesFirst(k, target, lim) {
      var stop := StopTime(k, lim);
      if t < stop {
        BrakedEnvelope(k, t, lim);
      } else {
        RestedEnvelope(k, lim);
        var n := Advance(root, k, target, t, lim);
        assert Envelope(Rested(k, lim), n, t - stop, lim) by {
          OverNonNegative(lim.acceleration, t - stop);
          OverNonNegative(lim.speed, t - stop);
          if target.Some? {
            ApproachEnvelope(root, Rested(k, lim), target.value, t - stop, lim);
          }
        }
        EnvelopeJoins(k, Rested(k, lim), n, stop, t - stop, lim);
      }
    } else if target.Some? {
      ApproachEnvelope(root, k, target.value, t, lim);
    }
  }

  /** From rest, or when the stopping distance fits in what remains, the target is never
      crossed. */
  lemma NeverCrosses(root: Root, k: Kinetic, target: real, t: real, lim: Limits)
    requires IsSqrt(root) && ValidLimits(lim) && Abs(k.velocity) <= lim.speed && t >= 0.0
    requires k.velocity == 0.0 || StopDistance(k.velocity, lim) <= Ahead(k, target)
    ensures var p := Advance(root, k, Some(target), t, lim).position;
            || k.position <= p <= target
            || target <= p <= k.position
  {
    hide Approach;
    if k.velocity != 0.0 {
      BrakesExactly(k, target, lim);
    }
    ApproachEnvelope(root, k, target, t, lim);
  }

  /** Moving towards a target from below never moves back, and while at or below the target
      the velocity stays non-negative, even after leftover velocity overshot it. */
  lemma UpwardAdvance(root: Root, k: Kinetic, target: real, t: real, lim: Limits)
    requires IsSqrt(root) && ValidLimits(lim) && 0.0 <= k.velocity <= lim.speed && t >= 0.0
    requires k.position <= target
    ensures var m := Advance(root, k, Some(target), t, lim);
            && k.position <= m.position
            && (m.position <= target ==> m.velocity >= 0.0)
  {
    hide Approach, Braked;
    if BrakesFirst(k, Some(target), lim) {
      var stop := StopTime(k, lim);
      if t < stop {
        BrakedEnvelope(k, t, lim);
        BrakedSpeed(k, t, lim);
      } else {
        BrakesExactly(k, target, lim);
        RestedDistance(k, target, lim);
        ApproachEnvelope(root, Rested(k, lim), target, t - stop, lim);
      }
    } else {
      ApproachEnvelope(root, k, target, t, lim);
    }
  }
}
