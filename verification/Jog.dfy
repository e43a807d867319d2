/** How far a jogging axis can run past its software limits. */
module Jog {
  import opened Reals
  import opened Words
  import opened StateMachine
  import opened ServoSpec
  import opened ServoInvariants
  import opened Kinematics
  import opened VelocityCap

  /** Both velocity limits, both accelerations and the longest cycle are positive. */
  predicate Drivable(c: Config, dtMax: real) {
    && c.Valid() && c.maxProfileVelocity > 0.0 && NegativeVelocityLimit(c) > 0.0
    && c.acceleration > 0.0 && c.deceleration > 0.0 && dtMax > 0.0
  }

  /** The smaller of the two velocity limits. */
  function Top(c: Config): real {
    Min(c.maxProfileVelocity, NegativeVelocityLimit(c))
  }

  /** The weaker of the two ramps, in velocity units per second. */
  function Weakest(c: Config): real {
    Mul(Min(c.acceleration, c.deceleration), Ka(c))
  }

  /** Distance that ends a speed by braking. */
  function BrakePath(kv: real, a: real, v: real): real
    requires a > 0.0
  {
    kv * (v * v / (2.0 * a))
  }

  /** The distance an axis may pass a limit: one cycle at full speed, then braking. */
  function Overshoot(c: Config, dtMax: real): real
    requires Drivable(c, dtMax)
  {
    WeakestIsPositive(c, dtMax);
    Travel(Kv(c), Top(c), dtMax) + BrakePath(Kv(c), Weakest(c), Top(c))
  }

  lemma WeakestIsPositive(c: Config, dtMax: real)
    requires Drivable(c, dtMax)
    ensures Weakest(c) > 0.0 && Kv(c) > 0.0 && Top(c) > 0.0
  {
    Units(c);
    MulPos(Min(c.acceleration, c.deceleration), Ka(c));
  }

  /** Position reached if the axis braked from now on. */
  function Potential(x: real, v: real, kv: real, a: real): real
    requires a > 0.0
  {
    x + BrakePath(kv, a, Max(v, 0.0))
  }

  // ---- One side, in plain numbers ----

  lemma BrakePathGrows(kv: real, a: real, v: real, w: real)
    requires kv > 0.0 && a > 0.0 && 0.0 <= v <= w
    ensures 0.0 <= BrakePath(kv, a, v) <= BrakePath(kv, a, w)
  {
    MulMono(v, w, v);
    MulMono(v, w, w);
    DivNonNeg(v * v, 2.0 * a);
    DivLe(v * v, 2.0 * a, w * w / (2.0 * a));
    MulNonNeg(kv, v * v / (2.0 * a));
    MulMono(v * v / (2.0 * a), w * w / (2.0 * a), kv);
  }

  lemma SquareLoss(a: real, v: real, w: real, dt: real)
    requires a > 0.0 && dt > 0.0 && 0.0 <= w <= v - a * dt
    ensures v * v - w * w >= (2.0 * a) * (w * dt)
  {
    var d := a * dt;
    MulPos(a, dt);
    MulMono(d, v - w, v + w);
    MulMono(2.0 * w, v + w, d);
    assert (v - w) * (v + w) == v * v - w * w;
    assert d * (2.0 * w) == (2.0 * a) * (w * dt);
  }

  lemma QuotientLoss(x: real, y: real, q: real, z: real)
    requires q > 0.0 && x - y >= q * z
    ensures y / q <= x / q - z
  {
    var r := x / q - z;
    assert r * q == x - q * z;
    DivLe(y, q, r);
  }

  /** Losing at least a*dt of speed shortens the braking path by more than the cycle
      travels. */
  lemma BrakingPaysForTravel(kv: real, a: real, v: real, w: real, dt: real)
    requires kv > 0.0 && a > 0.0 && dt > 0.0 && 0.0 <= w <= v - a * dt
    ensures Travel(kv, w, dt) + BrakePath(kv, a, w) <= BrakePath(kv, a, v)
  {
    SquareLoss(a, v, w, dt);
    QuotientLoss(v * v, w * w, 2.0 * a, w * dt);
    ScaledLoss(kv, v * v / (2.0 * a), w * w / (2.0 * a), w * dt);
    assert Travel(kv, w, dt) == kv * (w * dt);
  }

  lemma ScaledLoss(k: real, x: real, y: real, z: real)
    requires k > 0.0 && y <= x - z
    ensures k * z + k * y <= k * x
  {
    MulMono(y + z, x, k);
  }

  /** The potential stays under the bound whenever the axis is short of the limit, not
      moving towards it, or braking. */
  lemma PotentialIsKept(x: real, v: real, w: real, kv: real, a: real, top: real, dt: real, dtMax: real, limit: real)
    requires kv > 0.0 && a > 0.0 && 0.0 < dt <= dtMax && v <= top && w <= top && top > 0.0
    requires x < limit || w <= 0.0 || w <= v - a * dt
    requires Potential(x, v, kv, a) <= limit + Travel(kv, top, dtMax) + BrakePath(kv, a, top)
    ensures Potential(x + Travel(kv, w, dt), w, kv, a) <= limit + Travel(kv, top, dtMax) + BrakePath(kv, a, top)
  {
    if w <= 0.0 {
      MulNonNeg(kv, -w);
      MulNonNeg(kv * -w, dt);
      assert Travel(kv, w, dt) <= 0.0;
      assert BrakePath(kv, a, 0.0) == 0.0;
      BrakePathGrows(kv, a, 0.0, Max(v, 0.0));
    } else if x < limit {
      BrakePathGrows(kv, a, w, top);
      MulMono(w, top, kv);
      MulMono(kv * w, kv * top, dt);
      MulPos(kv, top);
      MulMono(dt, dtMax, kv * top);
    } else {
      MulPos(a, dt);
      BrakingPaysForTravel(kv, a, v, w, dt);
    }
  }

  // ---- The jogging servo ----

  predicate Safe(x: real, v: real, c: Config, limit: real, dtMax: real)
    requires Drivable(c, dtMax)
  {
    WeakestIsPositive(c, dtMax);
    Potential(x, v, Kv(c), Weakest(c)) <= limit + Overshoot(c, dtMax) && v <= Top(c)
  }

  /** Both sides are safe and no device reset is waiting. */
  predicate JogSafe(s: Servo, dtMax: real)
    requires Drivable(s.od.config, dtMax)
  {
    && Inv(s) && s.od.commands.reset == s.last.reset
    && Safe(s.axis.position, s.axis.velocity, s.od.config, UpperLimit(s.od.config), dtMax)
    && Safe(-s.axis.position, -s.axis.velocity, s.od.config, -LowerLimit(s.od.config), dtMax)
  }

  /** Braking towards a target on the far side loses at least the weakest ramp. */
  lemma RampLoses(v: real, target: real, delta: real, least: real)
    requires target <= 0.0 && 0.0 <= least <= delta
    ensures MoveTowards(v, target, delta) <= 0.0 || MoveTowards(v, target, delta) <= v - least
  {
  }

  lemma RampIsAtLeastWeakest(c: Config, target: real, velocity: real, dt: real, dtMax: real)
    requires Drivable(c, dtMax) && dt > 0.0
    ensures 0.0 <= Weakest(c) * dt <= VelocityDelta(c, Ramp(c, target, velocity), dt)
  {
    var ramp := Ramp(c, target, velocity);
    VelocityDeltaIsLinear(c, ramp, dt);
    Units(c);
    MulMono(Min(c.acceleration, c.deceleration), ramp, Ka(c));
    MulMono(Weakest(c), ramp * Ka(c), dt);
    WeakestIsPositive(c, dtMax);
    MulNonNeg(Weakest(c), dt);
  }

  lemma SafeMove(c: Config, x: real, v: real, target: real, ramp: real, limit: real, dt: real, dtMax: real)
    requires Drivable(c, dtMax) && 0.0 < dt <= dtMax
    requires Safe(x, v, c, limit, dtMax) && target <= Top(c)
    requires x >= limit ==> target <= 0.0
    requires 0.0 <= Weakest(c) * dt <= ramp
    ensures var w := MoveTowards(v, target, ramp);
            Safe(x + Travel(Kv(c), w, dt), w, c, limit, dtMax)
  {
    hide MoveTowards, Travel, BrakePath, Kv, Weakest, Top;
    WeakestIsPositive(c, dtMax);
    var w := MoveTowards(v, target, ramp);
    MoveTowardsIsBetween(v, target, ramp);
    if x >= limit {
      RampLoses(v, target, ramp, Weakest(c) * dt);
    }
    PotentialIsKept(x, v, w, Kv(c), Weakest(c), Top(c), dt, dtMax, limit);
  }

  /** Stopping is always safe. */
  lemma SafeStop(c: Config, x: real, v: real, limit: real, dtMax: real)
    requires Drivable(c, dtMax) && Safe(x, v, c, limit, dtMax)
    ensures Safe(x, 0.0, c, limit, dtMax)
  {
    hide BrakePath, Kv, Weakest, Top, Travel;
    WeakestIsPositive(c, dtMax);
    BrakePathGrows(Kv(c), Weakest(c), 0.0, Max(v, 0.0));
  }

  lemma JogTargetStopsAtLimits(c: Config, x: real, v: real, top: real)
    requires Abs(v) <= top && top >= 0.0
    ensures Abs(JogTarget(c, x, v)) <= top
    ensures x >= UpperLimit(c) ==> JogTarget(c, x, v) <= 0.0
    ensures x <= LowerLimit(c) ==> JogTarget(c, x, v) >= 0.0
  {
  }

  lemma MirroredRamp(v: real, target: real, delta: real)
    ensures MoveTowards(-v, -target, delta) == -MoveTowards(v, target, delta)
  {
  }

  lemma JogMove(c: Config, a: Axis, command: real, dt: real, dtMax: real)
    requires Drivable(c, dtMax) && 0.0 < dt <= dtMax && Abs(command) <= Top(c)
    requires Safe(a.position, a.velocity, c, UpperLimit(c), dtMax)
    requires Safe(-a.position, -a.velocity, c, -LowerLimit(c), dtMax)
    ensures var v := JogTarget(c, a.position, command);
            var b := Integrate(c, a, v, Ramp(c, v, a.velocity), dt);
            && Safe(b.position, b.velocity, c, UpperLimit(c), dtMax)
            && Safe(-b.position, -b.velocity, c, -LowerLimit(c), dtMax)
  {
    hide Safe, JogTarget, MoveTowards, VelocityDelta, Kv, Weakest, Top, Integrate, UpperLimit, LowerLimit;
    var v := JogTarget(c, a.position, command);
    JogTargetStopsAtLimits(c, a.position, command, Top(c));
    var ramp := VelocityDelta(c, Ramp(c, v, a.velocity), dt);
    RampIsAtLeastWeakest(c, v, a.velocity, dt, dtMax);
    IntegrateMoves(c, a, v, Ramp(c, v, a.velocity), dt);
    SafeMove(c, a.position, a.velocity, v, ramp, UpperLimit(c), dt, dtMax);
    MirroredRamp(a.velocity, v, ramp);
    SafeMove(c, -a.position, -a.velocity, -v, ramp, -LowerLimit(c), dt, dtMax);
    var w := MoveTowards(a.velocity, v, ramp);
    assert Travel(Kv(c), -w, dt) == -Travel(Kv(c), w, dt);
  }

  predicate JogCycle(e: Event, dtMax: real) {
    e.Cycle? && e.pdo.mode == -3 && e.pdo.profileVelocity >= 0.0 && 0.0 < e.dt <= dtMax
  }

  /** A cycle in jog mode, with any jog bits, halt, disable or target. */
  lemma JogStep(s: Servo, e: Event, dtMax: real)
    requires Drivable(s.od.config, dtMax) && JogSafe(s, dtMax) && JogCycle(e, dtMax)
    ensures Step(s, e).od.config == s.od.config && JogSafe(Step(s, e), dtMax)
  {
    hide Safe, ModelUpdate, Clocked, StatuswordOf, Core, Follow, JogTarget, JogCommand, Integrate;
    var s1, c := WriteRx(s, e.pdo), s.od.config;
    CoreIgnoresRx(s, e.pdo);
    UpdateShape(s1, e.dt);
    UpdateKeepsInv(s1, e.dt);
    NoResetShape(s1);
    var t := Clocked(s1);
    SafeStop(c, s.axis.position, s.axis.velocity, UpperLimit(c), dtMax);
    SafeStop(c, -s.axis.position, -s.axis.velocity, -LowerLimit(c), dtMax);
    ModeFrame(t, e.dt);
    if Enabled(t) {
      JogCommandIsLimited(t, Max(c.maxProfileVelocity, NegativeVelocityLimit(c)));
      JogMove(c, t.axis, JogCommand(t), e.dt, dtMax);
      JogFollows(t, e.dt);
    }
  }

  lemma JogFollows(t: Servo, dt: real)
    requires dt > 0.0 && Enabled(t) && t.od.rx.mode == -3
    ensures var v := JogTarget(t.od.config, t.axis.position, JogCommand(t));
            ProcessMode(t, dt).axis == Integrate(t.od.config, t.axis, v, Ramp(t.od.config, v, t.axis.velocity), dt)
  {
    hide JogTarget, JogCommand, Integrate;
  }

  lemma SafeIsInside(c: Config, x: real, v: real, limit: real, dtMax: real)
    requires Drivable(c, dtMax) && Safe(x, v, c, limit, dtMax)
    ensures x <= limit + Overshoot(c, dtMax)
  {
    hide BrakePath, Kv, Weakest, Top, Travel;
    WeakestIsPositive(c, dtMax);
    BrakePathGrows(Kv(c), Weakest(c), 0.0, Max(v, 0.0));
  }

  lemma JogSafeIsInside(s: Servo, dtMax: real)
    requires Drivable(s.od.config, dtMax) && JogSafe(s, dtMax)
    ensures LowerLimit(s.od.config) - Overshoot(s.od.config, dtMax)
            <= s.axis.position
            <= UpperLimit(s.od.config) + Overshoot(s.od.config, dtMax)
  {
    hide Inv, Safe, Overshoot, Drivable;
    var c := s.od.config;
    SafeIsInside(c, s.axis.position, s.axis.velocity, UpperLimit(c), dtMax);
    SafeIsInside(c, -s.axis.position, -s.axis.velocity, -LowerLimit(c), dtMax);
  }

  lemma RestInsideIsSafe(c: Config, x: real, limit: real, dtMax: real)
    requires Drivable(c, dtMax) && x <= limit
    ensures Safe(x, 0.0, c, limit, dtMax)
  {
    WeakestIsPositive(c, dtMax);
    MulPos(Kv(c), Top(c));
    MulPos(Kv(c) * Top(c), dtMax);
    BrakePathGrows(Kv(c), Weakest(c), 0.0, Top(c));
    assert BrakePath(Kv(c), Weakest(c), 0.0) == 0.0;
  }

  lemma {:induction false} JogRunIsSafe(s: Servo, events: seq<Event>, dtMax: real)
    requires Drivable(s.od.config, dtMax) && JogSafe(s, dtMax)
    requires AllValid(events) && forall i :: 0 <= i < |events| ==> JogCycle(events[i], dtMax)
    ensures Run(s, events).od.config == s.od.config && JogSafe(Run(s, events), dtMax)
    decreases |events|
  {
    hide JogSafe, Step, Drivable;
    if events != [] {
      JogStep(s, events[0], dtMax);
      JogRunIsSafe(Step(s, events[0]), events[1..], dtMax);
    }
  }

  lemma RestIsJogSafe(s: Servo, dtMax: real)
    requires Inv(s) && s.axis.velocity == 0.0 && WithinLimits(s.od.config, s.axis.position)
    requires s.od.commands.reset == s.last.reset && Drivable(s.od.config, dtMax)
    ensures JogSafe(s, dtMax)
  {
    hide Inv, Safe, Drivable;
    RestInsideIsSafe(s.od.config, s.axis.position, UpperLimit(s.od.config), dtMax);
    RestInsideIsSafe(s.od.config, -s.axis.position, -LowerLimit(s.od.config), dtMax);
  }

  /** Entered at rest inside the software limits, jogging never passes a limit by more
      than one cycle at full speed plus a braking path. */
  lemma JogOvershootIsBounded(s: Servo, events: seq<Event>, dtMax: real)
    requires Inv(s) && s.axis.velocity == 0.0 && WithinLimits(s.od.config, s.axis.position)
    requires s.od.commands.reset == s.last.reset && Drivable(s.od.config, dtMax)
    requires AllValid(events) && forall i :: 0 <= i < |events| ==> JogCycle(events[i], dtMax)
    ensures LowerLimit(s.od.config) - Overshoot(s.od.config, dtMax)
            <= Run(s, events).axis.position
            <= UpperLimit(s.od.config) + Overshoot(s.od.config, dtMax)
  {
    hide Inv, JogSafe, Overshoot, Drivable, UpperLimit, LowerLimit, Run, JogCycle;
    RestIsJogSafe(s, dtMax);
    JogRunIsSafe(s, events, dtMax);
    JogSafeIsInside(Run(s, events), dtMax);
  }
}
