/** CSP on its target: once the velocity follows the loop and the deceleration can keep up,
    every further cycle shrinks the position error by the same factor. */
module CspTracking {
  import opened Reals
  import opened StateMachine
  import opened ServoSpec
  import opened ServoInvariants
  import opened Kinematics
  import opened Motion

  function Error(s: Servo, target: real): real {
    target - s.axis.position
  }

  /** The speed the loop asks for at the present distance. */
  function Asked(s: Servo, target: real): real {
    LoopSpeed(s.od.config, s.gain, Abs(Error(s, target)))
  }

  function Braking(c: Config): real {
    c.deceleration * Ka(c)
  }

  /** Referenced in CSP on one side of the target, no slower than the loop asks and at most
      one braking step faster, below the limits, with a deceleration that keeps up with the
      loop. */
  predicate Tracks(s: Servo, target: real, profileVelocity: real, dt: real, forward: bool) {
    && Running(s) && s.last.mode == 8 && s.homing.referenced
    && Signed(forward, Error(s, target)) >= 0.0
    && Asked(s, target) <= Signed(forward, s.axis.velocity) <= Asked(s, target) + Braking(s.od.config) * dt
    && Asked(s, target) * s.gain <= Braking(s.od.config)
    && Asked(s, target) <= SideBound(s.od.config, profileVelocity, Error(s, target) < 0.0)
  }

  /** An undisturbed cycle of the run. */
  predicate Steady(s: Servo, e: Event, target: real, profileVelocity: real, dt: real) {
    && Continues(s, e) && !Halts(e) && e.dt == dt && e.pdo.target == target && e.pdo.profileVelocity == profileVelocity
  }

  /** The loop speed covers the same fraction of any distance. */
  lemma LoopTravels(c: Config, gain: real, distance: real, dt: real)
    ensures Travel(Kv(c), LoopSpeed(c, gain, distance), dt) == gain * dt * distance
  {
    hide Kv;
    Units(c);
    var v := LoopSpeed(c, gain, distance);
    assert v * Kv(c) == gain * distance;
    assert Kv(c) * v * dt == gain * distance * dt;
  }

  lemma LoopScales(c: Config, gain: real, distance: real, factor: real, scaled: real)
    requires scaled == factor * distance
    ensures LoopSpeed(c, gain, scaled) == factor * LoopSpeed(c, gain, distance)
  {
    hide Kv;
    Units(c);
    var v := LoopSpeed(c, gain, distance);
    assert v * Kv(c) == gain * distance;
    assert (factor * v) * Kv(c) == gain * (factor * distance);
  }

  /** In tracking the wanted velocity is the loop's, and braking reaches it. */
  lemma TrackingWants(s: Servo, e: Event, target: real, profileVelocity: real, dt: real, forward: bool)
    requires Tracks(s, target, profileVelocity, dt, forward) && Steady(s, e, target, profileVelocity, dt)
    ensures Wanted(s.od.config, s.gain, s.axis.position, e.pdo) == Signed(forward, Asked(s, target))
    ensures Step(s, e).axis.velocity == Signed(forward, Asked(s, target))
    ensures Step(s, e).axis.position
            == s.axis.position + Travel(Kv(s.od.config), Signed(forward, Asked(s, target)), dt)
  {
    hide Step, Kv, Ka, LoopSpeed, SideBound, Inv, Next, WithinLimits, Travel;
    CspCycle(s, e);
    ZeroErrorAsksNothing(s, target);
    var wanted := Wanted(s.od.config, s.gain, s.axis.position, e.pdo);
    assert wanted == Signed(forward, Asked(s, target));
    assert Reach(s.od.config, s.axis.velocity, wanted, dt) == Braking(s.od.config) * dt;
  }

  /** What is left of the error. */
  lemma TrackingCycle(s: Servo, e: Event, target: real, profileVelocity: real, dt: real, forward: bool, k: real)
    requires Tracks(s, target, profileVelocity, dt, forward) && Steady(s, e, target, profileVelocity, dt)
    requires k == 1.0 - s.gain * dt
    ensures Step(s, e).axis.velocity == Signed(forward, Asked(s, target))
    ensures Error(Step(s, e), target) == k * Error(s, target)
  {
    hide Step, Kv, Ka, LoopSpeed, SideBound, Inv, Next, WithinLimits, Travel, Running;
    TrackingWants(s, e, target, profileVelocity, dt, forward);
    LoopTravels(s.od.config, s.gain, Abs(Error(s, target)), dt);
    SignedTravel(Kv(s.od.config), Asked(s, target), dt);
    ErrorLeft(s.gain, dt, Error(s, target), forward, k);
  }

  lemma ZeroErrorAsksNothing(s: Servo, target: real)
    requires s.gain > 0.0
    ensures Asked(s, target) >= 0.0 && (Error(s, target) == 0.0 <==> Asked(s, target) == 0.0)
  {
    hide LoopSpeed;
    LoopIsPositive(s.od.config, s.gain, Abs(Error(s, target)));
  }

  lemma SignedTravel(kv: real, v: real, dt: real)
    ensures Travel(kv, -v, dt) == -Travel(kv, v, dt)
  {
  }

  lemma ErrorLeft(gain: real, dt: real, error: real, forward: bool, k: real)
    requires Signed(forward, error) >= 0.0 && k == 1.0 - gain * dt
    ensures error - (if forward then gain * dt * Abs(error) else -(gain * dt * Abs(error))) == k * error
  {
    var q := gain * dt;
    assert k * error == error - q * error;
    if forward {
      assert Abs(error) == error;
    } else {
      assert q * Abs(error) == -(q * error);
    }
  }

  lemma AskedScales(s: Servo, t: Servo, target: real, k: real)
    requires t.od.config == s.od.config && t.gain == s.gain && k >= 0.0 && Error(t, target) == k * Error(s, target)
    ensures Asked(t, target) == k * Asked(s, target)
  {
    hide LoopSpeed, Error;
    ScaledAbs(k, Error(s, target));
    LoopScales(s.od.config, s.gain, Abs(Error(s, target)), k, Abs(Error(t, target)));
  }

  /** Tracking goes on. */
  lemma TrackingStays(s: Servo, e: Event, target: real, profileVelocity: real, dt: real, forward: bool, k: real)
    requires Tracks(s, target, profileVelocity, dt, forward) && Steady(s, e, target, profileVelocity, dt)
    requires k == 1.0 - s.gain * dt >= 0.0
    ensures Tracks(Step(s, e), target, profileVelocity, dt, forward)
  {
    hide Step, Asked, SideBound, Inv, Next, WithinLimits, Running, Braking, Error, Signed;
    var c, t := s.od.config, Step(s, e);
    var u, next := Asked(s, target), Asked(t, target);
    RunningFacts(s, e);
    TrackingCycle(s, e, target, profileVelocity, dt, forward, k);
    CycleKeepsRunning(s, e);
    ZeroErrorAsksNothing(s, target);
    AskedScales(s, t, target, k);
    Shrinks(k, u, next, s.gain, Braking(c), dt);
    SignKept(k, Error(s, target), forward, Error(t, target));
    TwiceSigned(forward, u);
    ZeroErrorAsksNothing(t, target);
    BoundKept(c, profileVelocity, Error(s, target), Error(t, target), u, next);
  }

  lemma BoundKept(c: Config, profileVelocity: real, error: real, left: real, asked: real, next: real)
    requires c.Valid() && profileVelocity >= 0.0 && asked <= SideBound(c, profileVelocity, error < 0.0)
    requires next <= asked && (left == 0.0 ==> next == 0.0) && (left != 0.0 ==> (left < 0.0 <==> error < 0.0))
    ensures next <= SideBound(c, profileVelocity, left < 0.0)
  {
  }

  lemma TwiceSigned(forward: bool, u: real)
    ensures Signed(forward, Signed(forward, u)) == u
  {
  }

  lemma RunningFacts(s: Servo, e: Event)
    requires Running(s) && e.Valid() && e.Cycle?
    ensures s.gain > 0.0 && s.od.config.Valid() && e.dt > 0.0 && e.pdo.profileVelocity >= 0.0 && s.gain * e.dt > 0.0
  {
    MulPos(s.gain, e.dt);
  }

  lemma ScaledAbs(k: real, x: real)
    requires k >= 0.0
    ensures Abs(k * x) == k * Abs(x)
  {
    if x >= 0.0 {
      MulNonNeg(k, x);
    } else {
      MulNonNeg(k, -x);
      assert k * -x == -(k * x);
    }
  }

  lemma Shrinks(k: real, u: real, next: real, gain: real, braking: real, dt: real)
    requires k == 1.0 - gain * dt && 0.0 <= k < 1.0 && u >= 0.0 && gain > 0.0 && dt > 0.0 && u * gain <= braking
    requires next == k * u
    ensures 0.0 <= next <= u <= next + braking * dt && next * gain <= braking
  {
    MulNonNeg(k, u);
    MulMono(k, 1.0, u);
    MulMono(u * gain, braking, dt);
    assert k * u == u - u * gain * dt;
    MulMono(k * u, u, gain);
  }

  lemma SignKept(k: real, error: real, forward: bool, left: real)
    requires k >= 0.0 && Signed(forward, error) >= 0.0 && left == k * error
    ensures Signed(forward, left) >= 0.0 && (left == 0.0 || (left < 0.0 <==> error < 0.0))
  {
    if error >= 0.0 {
      MulNonNeg(k, error);
    } else {
      MulNonNeg(k, -error);
      assert k * -error == -(k * error);
    }
  }

  function Power(x: real, n: nat): real {
    if n == 0 then 1.0 else x * Power(x, n - 1)
  }

  predicate SteadyAlong(s: Servo, events: seq<Event>, target: real, profileVelocity: real, dt: real)
    requires AllValid(events)
    decreases |events|
  {
    events == []
    || (Steady(s, events[0], target, profileVelocity, dt)
        && SteadyAlong(Step(s, events[0]), events[1..], target, profileVelocity, dt))
  }

  lemma Regroup(k: real, p: real, x: real)
    ensures p * (k * x) == (k * p) * x
  {
  }

  /** However long the run, the error is exactly the initial one times a power of
      1 - gain * dt: CSP converges geometrically and never overshoots. */
  lemma {:induction false} CspConverges(s: Servo, events: seq<Event>, target: real, profileVelocity: real, dt: real,
                                        forward: bool, factor: real)
    requires Tracks(s, target, profileVelocity, dt, forward) && factor == 1.0 - s.gain * dt >= 0.0
    requires AllValid(events) && SteadyAlong(s, events, target, profileVelocity, dt)
    ensures var t := Run(s, events);
            && Tracks(t, target, profileVelocity, dt, forward)
            && Error(t, target) == Power(factor, |events|) * Error(s, target)
    decreases |events|
  {
    hide Step, Tracks, Steady, Error;
    if events == [] {
    } else {
      var t := Step(s, events[0]);
      SameGain(s, events[0], target, profileVelocity, dt, forward);
      TrackingCycle(s, events[0], target, profileVelocity, dt, forward, factor);
      TrackingStays(s, events[0], target, profileVelocity, dt, forward, factor);
      CspConverges(t, events[1..], target, profileVelocity, dt, forward, factor);
      Regroup(factor, Power(factor, |events| - 1), Error(s, target));
    }
  }

  lemma SameGain(s: Servo, e: Event, target: real, profileVelocity: real, dt: real, forward: bool)
    requires Tracks(s, target, profileVelocity, dt, forward) && Steady(s, e, target, profileVelocity, dt)
    ensures Step(s, e).gain == s.gain
  {
    hide Step, Inv;
    CycleKeepsRunning(s, e);
  }
}
