/** Which way and how fast the axis moves in one undisturbed cycle of each velocity-driven
    mode, in terms of the command and the feedback alone. */
module Motion {
  import opened Reals
  import opened Words
  import opened StateMachine
  import opened ServoSpec
  import opened ServoInvariants
  import opened Kinematics

  // ---- Undisturbed cycles ----

  /** Enabled, with no device reset waiting. */
  predicate Running(s: Servo) {
    && Inv(s) && Enabled(s) && s.od.config.Valid() && s.gain > 0.0
    && s.od.commands.reset == s.last.reset
  }

  /** A cycle that keeps the drive enabled in its mode and brings no target that the drive
      refuses or undoes. */
  predicate Continues(s: Servo, e: Event) {
    && e.Valid() && e.Cycle? && Next(OperationEnabled, e.pdo.controlword) == OperationEnabled
    && e.pdo.mode == s.last.mode
    && (e.pdo.target == s.last.target
        || (WithinLimits(s.od.config, e.pdo.target) && (s.homing.referenced || !Positioning(e.pdo.mode))))
  }

  predicate Halts(e: Event) {
    e.Cycle? && Bit(e.pdo.controlword, 0x0100)
  }

  /** What the dictionary commands leave of such a cycle: everything but the record of the
      new target. */
  predicate TakesOver(s: Servo, t: Servo) {
    && t.axis == s.axis && t.pp == s.pp && t.homing == s.homing && t.state == s.state && t.gain == s.gain
    && t.od.config == s.od.config && t.od.rx == s.od.rx && t.previousControlword == s.previousControlword
    && t.last.mode == s.last.mode && t.last.target == s.od.rx.target
    && t.od.commands.reset == t.last.reset
    && t.window == (if s.od.rx.target == s.last.target then s.window else Window(false, 0))
  }

  lemma AcceptedTargetTakesOver(s: Servo, target: real)
    requires s.od.commands.reset == s.last.reset && s.od.rx.target == target != s.last.target
    requires WithinLimits(s.od.config, target) && !NeedsReference(s)
    ensures TakesOver(s, SetTarget(s, target, s.last.target))
  {
    hide WithinLimits, NeedsReference, StopAtCurrentPosition;
  }

  lemma TargetTakesOver(s: Servo)
    requires s.od.commands.reset == s.last.reset && s.od.rx.mode == s.last.mode
    requires s.od.rx.target == s.last.target || (WithinLimits(s.od.config, s.od.rx.target) && !NeedsReference(s))
    ensures TakesOver(s, ApplyCommands(s))
  {
    hide WithinLimits, SetTarget, SetMode;
    var s1 := SaveStep(ResetStep(s));
    assert TakesOver(s.(last := s.last.(target := s.od.rx.target)), s1.(last := s1.last.(target := s1.od.rx.target)))
           && s1.od.rx == s.od.rx && s1.last.target == s.last.target;
    if s1.od.rx.target != s1.last.target {
      AcceptedTargetTakesOver(s1, s1.od.rx.target);
    }
  }

  /** The active mode works on the axis as it was, with the whole command of the cycle. */
  lemma CycleTakesOver(s: Servo, e: Event)
    requires Running(s) && Continues(s, e)
    ensures var t := Clocked(WriteRx(s, e.pdo));
            && TakesOver(WriteRx(s, e.pdo), t) && t.halt == Halts(e)
            && Step(s, e) == Report(ProcessMode(t, e.dt), e.pdo.controlword)
  {
    hide ModelUpdate, Core, Next, ProcessMode, StatuswordOf, WithinLimits, ApplyCommands, Bit;
    var s1 := WriteRx(s, e.pdo);
    CoreIgnoresRx(s, e.pdo);
    UpdateShape(s1, e.dt);
    TargetTakesOver(s1);
  }

  /** An undisturbed cycle leaves the drive running with the same configuration. */
  lemma CycleKeepsRunning(s: Servo, e: Event)
    requires Running(s) && Continues(s, e)
    ensures var t := Step(s, e);
            && Running(t) && t.od.config == s.od.config && t.gain == s.gain && t.last.mode == s.last.mode
            && t.last.target == e.pdo.target && t.previousControlword == e.pdo.controlword
            && (s.last.mode != 6 ==> t.homing == s.homing)
  {
    hide ModelUpdate, Core, Next, ProcessMode, StatuswordOf, WithinLimits, Clocked, StatusShown;
    var s1 := WriteRx(s, e.pdo);
    CoreIgnoresRx(s, e.pdo);
    CycleTakesOver(s, e);
    UpdateKeepsInv(s1, e.dt);
    UpdateShape(s1, e.dt);
    ModeFrame(Clocked(s1), e.dt);
    ModeKeepsHoming(Clocked(s1), e.dt);
  }

  lemma ModeKeepsHoming(s: Servo, dt: real)
    requires dt > 0.0 || !ModeTimed(s)
    ensures s.od.rx.mode != 6 ==> ProcessMode(s, dt).homing == s.homing
  {
    hide VelocityDelta, VelocityRate, Integrate, PpMove, CspMove, RequiredCount, InPosition, PvTarget, JogTarget,
         JogCommand, Ramp, ProcessHoming;
  }

  // ---- Cyclic synchronous position ----

  /** The speed allowed towards a target: the profile velocity, capped by the limit of that
      direction if one is configured; the negative direction falls back to the positive. */
  function SideBound(c: Config, profileVelocity: real, backward: bool): real {
    if backward && c.negativeVelocityLimit != 0.0 then Min(profileVelocity, 1000.0 * Abs(c.negativeVelocityLimit))
    else if c.maxProfileVelocity > 0.0 then Min(profileVelocity, c.maxProfileVelocity)
    else profileVelocity
  }

  /** The speed at which the gain would close a distance. */
  function LoopSpeed(c: Config, gain: real, distance: real): real {
    Units(c);
    gain * distance / Kv(c)
  }

  /** The velocity CSP is after: towards the target, at the smaller of the allowed speed and
      the loop speed. */
  function Wanted(c: Config, gain: real, position: real, pdo: RxPdo): real {
    var error := pdo.target - position;
    var speed := Min(SideBound(c, pdo.profileVelocity, error < 0.0), LoopSpeed(c, gain, Abs(error)));
    if error >= 0.0 then speed else -speed
  }

  /** What a ramp can change in a cycle: accelerating while the speed has to grow,
      decelerating otherwise. */
  function Reach(c: Config, from: real, to: real, dt: real): real {
    (if Abs(to) > Abs(from) then c.acceleration else c.deceleration) * Ka(c) * dt
  }

  /** The velocity follows a wanted one: it never leaves the way there, it gets there when
      the ramp reaches that far, and otherwise goes as far as the ramp. */
  predicate Pursues(from: real, to: real, reach: real, result: real) {
    && (from <= to ==> result == Min(to, from + reach))
    && (from >= to ==> result == Max(to, from - reach))
  }

  /** The loop's demand points where the target is. */
  function SignedLoop(c: Config, gain: real, error: real): real {
    if error >= 0.0 then LoopSpeed(c, gain, Abs(error)) else -LoopSpeed(c, gain, Abs(error))
  }

  lemma DemandIsLoop(c: Config, gain: real, error: real)
    requires gain > 0.0
    ensures LoopSpeed(c, gain, Abs(error)) >= 0.0 && RateVelocity(c, gain * error) == SignedLoop(c, gain, error)
  {
    hide Kv, RateVelocity;
    Units(c);
    RateOfGain(c, gain * error);
    MulNonNeg(gain, Abs(error));
    DivNonNeg(gain * Abs(error), Kv(c));
    if error < 0.0 {
      assert gain * Abs(error) == -(gain * error);
      NegativeQuotient(gain * error, Kv(c));
    }
  }

  lemma DemandPoints(s: Servo, error: real)
    requires s.gain > 0.0 && error == s.od.rx.target - s.axis.position
    ensures CspDemand(s) == SignedLoop(s.od.config, s.gain, error)
    ensures LoopSpeed(s.od.config, s.gain, Abs(error)) >= 0.0
  {
    hide SignedLoop, LoopSpeed, UnitScale, Kv;
    DemandIsLoop(s.od.config, s.gain, error);
  }

  lemma WantedByClamp(c: Config, gain: real, position: real, pdo: RxPdo, error: real)
    requires c.Valid() && pdo.profileVelocity >= 0.0 && error == pdo.target - position
    requires LoopSpeed(c, gain, Abs(error)) >= 0.0
    ensures Clamp(SignedLoop(c, gain, error), SideVelocity(c, pdo.profileVelocity, pdo.target, position))
            == Wanted(c, gain, position, pdo)
  {
    hide SideVelocity, SideBound, LoopSpeed;
    assert (pdo.target < position) == (error < 0.0);
    SideIsBound(c, pdo.profileVelocity, pdo.target, position);
  }

  lemma NegativeQuotient(x: real, y: real)
    requires y > 0.0
    ensures (-x) / y == -(x / y)
  {
    var q := x / y;
    assert q * y == x;
    assert (-q) * y == -x;
  }

  lemma RateOfGain(c: Config, rate: real)
    ensures Kv(c) > 0.0 && RateVelocity(c, rate) == rate / Kv(c)
  {
    hide UnitScale;
    Units(c);
    var p, v := UnitScale(c.positionExponent), UnitScale(c.velocityExponent);
    var r := rate * p / v;
    assert r * v == rate * p;
    assert Kv(c) * p == v;
    assert r * Kv(c) * p == rate * p;
    assert r * Kv(c) == rate;
  }

  lemma SideIsBound(c: Config, profileVelocity: real, target: real, position: real)
    requires c.Valid() && profileVelocity >= 0.0
    ensures SideVelocity(c, profileVelocity, target, position) == SideBound(c, profileVelocity, target < position)
    ensures SideBound(c, profileVelocity, target < position) >= 0.0
  {
  }

  lemma PursuesByClamp(from: real, to: real, reach: real)
    requires reach >= 0.0
    ensures Pursues(from, to, reach, from + Clamp(to - from, reach))
  {
  }

  lemma ReachIsDelta(c: Config, from: real, to: real, dt: real)
    requires c.Valid() && dt > 0.0
    ensures VelocityDelta(c, Ramp(c, to, from), dt) == Reach(c, from, to, dt) >= 0.0
  {
    hide VelocityDelta, Ka;
    VelocityDeltaIsLinear(c, c.acceleration, dt);
    VelocityDeltaIsLinear(c, c.deceleration, dt);
    DeltaNonNegative(c, c.acceleration, dt);
    DeltaNonNegative(c, c.deceleration, dt);
  }

  /** One step after a wanted velocity. */
  lemma MovePursues(c: Config, a: Axis, demand: real, top: real, wanted: real, dt: real)
    requires c.Valid() && dt > 0.0 && Clamp(demand, top) == wanted
    ensures var t := CspMove(c, a, demand, top, dt);
            && Pursues(a.velocity, wanted, Reach(c, a.velocity, wanted, dt), t.velocity)
            && t.position == a.position + Travel(Kv(c), t.velocity, dt)
  {
    hide VelocityDelta, VelocityRate, Kv, Ka, Clamp, Pursues, Reach, Ramp;
    ReachIsDelta(c, a.velocity, wanted, dt);
    PursuesByClamp(a.velocity, wanted, Reach(c, a.velocity, wanted, dt));
    VelocityRateIsLinear(c, CspMove(c, a, demand, top, dt).velocity);
  }

  /** The position loop of an enabled, referenced drive without halt. */
  lemma LoopPursues(s: Servo, dt: real)
    requires Enabled(s) && !s.halt && s.homing.referenced && dt > 0.0
    requires s.od.config.Valid() && s.gain > 0.0 && s.od.rx.profileVelocity >= 0.0
    ensures var a, t, wanted := s.axis, ProcessCsp(s, dt).axis, Wanted(s.od.config, s.gain, s.axis.position, s.od.rx);
            && Pursues(a.velocity, wanted, Reach(s.od.config, a.velocity, wanted, dt), t.velocity)
            && t.position == a.position + Travel(Kv(s.od.config), t.velocity, dt)
  {
    hide InPosition, RequiredCount, SideVelocity, Wanted, CspMove, CspDemand, Reach, Pursues, Kv, SignedLoop;
    var error := s.od.rx.target - s.axis.position;
    DemandPoints(s, error);
    WantedByClamp(s.od.config, s.gain, s.axis.position, s.od.rx, error);
    MovePursues(s.od.config, s.axis, CspDemand(s),
                SideVelocity(s.od.config, s.od.rx.profileVelocity, s.od.rx.target, s.axis.position),
                Wanted(s.od.config, s.gain, s.axis.position, s.od.rx), dt);
  }

  /** One CSP cycle of an enabled, referenced drive without halt: the velocity pursues the
      wanted one and the position follows the velocity. */
  lemma CspCycle(s: Servo, e: Event)
    requires Running(s) && Continues(s, e) && !Halts(e) && s.last.mode == 8 && s.homing.referenced
    ensures var a, t, wanted := s.axis, Step(s, e).axis, Wanted(s.od.config, s.gain, s.axis.position, e.pdo);
            && Pursues(a.velocity, wanted, Reach(s.od.config, a.velocity, wanted, e.dt), t.velocity)
            && t.position == a.position + Travel(Kv(s.od.config), t.velocity, e.dt)
  {
    hide ModelUpdate, Inv, Next, StatuswordOf, WithinLimits, Clocked, ProcessCsp, Wanted, Reach, Pursues, Kv;
    CycleTakesOver(s, e);
    LoopPursues(Clocked(WriteRx(s, e.pdo)), e.dt);
  }

  lemma Trips(c: Config, v: real, dt: real)
    requires dt > 0.0
    ensures v > 0.0 ==> Travel(Kv(c), v, dt) > 0.0
    ensures v < 0.0 ==> Travel(Kv(c), v, dt) < 0.0
    ensures v == 0.0 ==> Travel(Kv(c), v, dt) == 0.0
  {
    hide Kv;
    Units(c);
    MulPos(Kv(c), dt);
    if v > 0.0 {
      MulPos(Kv(c), v);
      MulPos(Kv(c) * v, dt);
    } else if v < 0.0 {
      MulPos(Kv(c), -v);
      MulPos(Kv(c) * -v, dt);
    }
  }

  lemma LoopIsPositive(c: Config, gain: real, distance: real)
    requires gain > 0.0 && distance >= 0.0
    ensures LoopSpeed(c, gain, distance) >= 0.0 && (LoopSpeed(c, gain, distance) > 0.0 <==> distance > 0.0)
  {
    hide Kv;
    Units(c);
    if distance > 0.0 {
      MulPos(gain, distance);
      DivPos(gain * distance, Kv(c));
    }
  }

  lemma RampIsPositive(c: Config, dt: real)
    requires c.acceleration > 0.0 && dt > 0.0
    ensures c.acceleration * Ka(c) * dt > 0.0
  {
    hide Ka;
    Units(c);
    MulPos(c.acceleration, Ka(c));
    MulPos(c.acceleration * Ka(c), dt);
  }

  /** From rest CSP moves towards its target and nowhere else: at the least of the allowed
      speed, the loop speed and what the acceleration gives, and not at all on the target. */
  lemma CspFromRest(s: Servo, e: Event)
    requires Running(s) && Continues(s, e) && !Halts(e) && s.last.mode == 8 && s.homing.referenced
    requires s.axis.velocity == 0.0
    ensures var c, x, t, target := s.od.config, s.axis.position, Step(s, e).axis, e.pdo.target;
            var bound := SideBound(c, e.pdo.profileVelocity, target < x);
            var speed := Min(Min(bound, LoopSpeed(c, s.gain, Abs(target - x))), c.acceleration * Ka(c) * e.dt);
            && (target > x ==> t.velocity == speed && t.position >= x)
            && (target < x ==> t.velocity == -speed && t.position <= x)
            && (target == x ==> t == s.axis)
            && (bound > 0.0 && c.acceleration > 0.0 ==>
                  (target > x ==> t.velocity > 0.0 && t.position > x)
                  && (target < x ==> t.velocity < 0.0 && t.position < x))
  {
    hide Step, Kv, Ka, LoopSpeed, SideBound, Inv, Next, WithinLimits, SideVelocity;
    var c, x, target := s.od.config, s.axis.position, e.pdo.target;
    CspCycle(s, e);
    SideIsBound(c, e.pdo.profileVelocity, target, x);
    LoopIsPositive(c, s.gain, Abs(target - x));
    Trips(c, Step(s, e).axis.velocity, e.dt);
    RestReach(c, Wanted(c, s.gain, x, e.pdo), e.dt);
    if c.acceleration > 0.0 {
      RampIsPositive(c, e.dt);
    }
  }

  lemma RestReach(c: Config, to: real, dt: real)
    requires c.Valid() && dt > 0.0
    ensures Reach(c, 0.0, to, dt) >= 0.0 && c.acceleration * Ka(c) * dt >= 0.0
    ensures to != 0.0 ==> Reach(c, 0.0, to, dt) == c.acceleration * Ka(c) * dt
  {
    hide Ka;
    ReachIsDelta(c, 0.0, to, dt);
    ReachIsDelta(c, 0.0, 1.0, dt);
  }

  /** Whatever its velocity, CSP never changes it away from the wanted one. */
  lemma CspNeverTurnsAway(s: Servo, e: Event)
    requires Running(s) && Continues(s, e) && !Halts(e) && s.last.mode == 8 && s.homing.referenced
    ensures var v, w, wanted := s.axis.velocity, Step(s, e).axis.velocity,
                                Wanted(s.od.config, s.gain, s.axis.position, e.pdo);
            && (v <= wanted ==> v <= w <= wanted) && (v >= wanted ==> wanted <= w <= v)
            && (e.pdo.target >= s.axis.position ==> wanted >= 0.0)
            && (e.pdo.target <= s.axis.position ==> wanted <= 0.0)
  {
    hide Step, Kv, Reach, LoopSpeed, SideBound, Inv, Next, WithinLimits, SideVelocity;
    var c, x := s.od.config, s.axis.position;
    CspCycle(s, e);
    SideIsBound(c, e.pdo.profileVelocity, e.pdo.target, x);
    LoopIsPositive(c, s.gain, Abs(e.pdo.target - x));
    ReachIsDelta(c, s.axis.velocity, Wanted(c, s.gain, x, e.pdo), e.dt);
  }
}
