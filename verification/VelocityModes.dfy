/** Profile velocity, jog and halt: which velocity each of them is after, and that a run of
    undisturbed cycles reaches it. */
module VelocityModes {
  import opened Reals
  import opened Words
  import opened StateMachine
  import opened ServoSpec
  import opened ServoInvariants
  import opened Kinematics
  import opened Motion

  // ---- One cycle ----

  lemma IntegratePursues(c: Config, a: Axis, to: real, dt: real)
    requires c.Valid() && dt > 0.0
    ensures var t := Integrate(c, a, to, Ramp(c, to, a.velocity), dt);
            && Pursues(a.velocity, to, Reach(c, a.velocity, to, dt), t.velocity)
            && t.position == a.position + Travel(Kv(c), t.velocity, dt)
  {
    hide VelocityDelta, VelocityRate, Kv, Ka, Reach, Ramp;
    ReachIsDelta(c, a.velocity, to, dt);
    IntegrateMoves(c, a, to, Ramp(c, to, a.velocity), dt);
  }

  /** The velocity command, capped by the limit of its direction if that is configured. */
  function Commanded(c: Config, command: real): real {
    if command >= 0.0 then (if c.maxProfileVelocity > 0.0 then Min(command, c.maxProfileVelocity) else command)
    else if c.negativeVelocityLimit != 0.0 then Max(command, -1000.0 * Abs(c.negativeVelocityLimit))
    else command
  }

  /** One cycle of the axis after this velocity. */
  predicate GoesAfter(s: Servo, t: Servo, to: real, dt: real) {
    && Pursues(s.axis.velocity, to, Reach(s.od.config, s.axis.velocity, to, dt), t.axis.velocity)
    && t.axis.position == s.axis.position + Travel(Kv(s.od.config), t.axis.velocity, dt)
  }

  /** A profile velocity cycle goes after its capped command and says when it is there. */
  lemma PvCycle(s: Servo, e: Event)
    requires Running(s) && Continues(s, e) && !Halts(e) && s.last.mode == 3
    ensures var t, to := Step(s, e), Commanded(s.od.config, e.pdo.targetVelocity);
            && GoesAfter(s, t, to, e.dt)
            && (t.window.reached <==>
                  Abs(t.axis.velocity - to) <= Max(Reach(s.od.config, s.axis.velocity, to, e.dt), 0.000000001))
  {
    hide ModelUpdate, Inv, Next, StatuswordOf, WithinLimits, Clocked, Integrate, Reach, Pursues, Kv, VelocityDelta,
         Ramp, Travel;
    CycleTakesOver(s, e);
    var to := Commanded(s.od.config, e.pdo.targetVelocity);
    IntegratePursues(s.od.config, s.axis, to, e.dt);
    ReachIsDelta(s.od.config, s.axis.velocity, to, e.dt);
    CommandedIsTarget(Clocked(WriteRx(s, e.pdo)));
  }

  lemma CommandedIsTarget(s: Servo)
    ensures !s.halt ==> PvTarget(s) == Commanded(s.od.config, s.od.rx.targetVelocity)
    ensures s.halt ==> PvTarget(s) == 0.0
  {
  }

  /** The smallest of three limits that is configured; zero without any. */
  predicate IsLeastLimit(least: real, a: real, b: real, c: real) {
    if a <= 0.0 && b <= 0.0 && c <= 0.0 then least == 0.0
    else
      && least > 0.0 && (least == a || least == b || least == c)
      && (a > 0.0 ==> least <= a) && (b > 0.0 ==> least <= b) && (c > 0.0 ==> least <= c)
  }

  lemma LeastIsSmallest(least: real, a: real, b: real, c: real)
    requires IsLeastLimit(least, a, b, c)
    ensures SmallestLimit(a, b, c) == least
  {
  }

  predicate JogLimit(c: Config, pdo: RxPdo, least: real) {
    IsLeastLimit(least, pdo.profileVelocity, c.maxProfileVelocity, 1000.0 * Abs(c.negativeVelocityLimit))
  }

  /** Bit 12 jogs at full speed, bit 11 at a quarter, neither at half. */
  function JogFactor(controlword: bv16): real {
    if controlword & 0x1000 != 0 then 1.0 else if controlword & 0x0800 != 0 then 0.25 else 0.5
  }

  /** What jogging is after, for the least configured limit: bit 4 forwards up to the upper
      limit, bit 5 backwards down to the lower one, and nothing for both or none of them or
      for a speed that is next to nothing. */
  function JogWanted(c: Config, pdo: RxPdo, position: real, least: real): real {
    var forward, backward := pdo.controlword & 0x0010 != 0, pdo.controlword & 0x0020 != 0;
    var speed := JogFactor(pdo.controlword) * least;
    if speed <= 0.000000000001 then 0.0
    else if forward && !backward && position < Max(c.firstPositionLimit, c.secondPositionLimit) then speed
    else if backward && !forward && position > Min(c.firstPositionLimit, c.secondPositionLimit) then -speed
    else 0.0
  }

  lemma JogSpeed(od: Od, least: real)
    requires JogLimit(od.config, od.rx, least)
    ensures JogVelocity(od) == JogFactor(od.rx.controlword) * least >= 0.0
  {
    hide JogFactor, SmallestLimit;
    var c := od.config;
    LeastIsSmallest(least, od.rx.profileVelocity, c.maxProfileVelocity, 1000.0 * Abs(c.negativeVelocityLimit));
    assert NegativeVelocityLimit(c) == 1000.0 * Abs(c.negativeVelocityLimit);
    FactorOfBits(od.rx.controlword);
    MulNonNeg(JogFactor(od.rx.controlword), least);
  }

  lemma JogIsWanted(s: Servo, least: real)
    requires !s.halt && JogLimit(s.od.config, s.od.rx, least)
    ensures JogTarget(s.od.config, s.axis.position, JogCommand(s))
            == JogWanted(s.od.config, s.od.rx, s.axis.position, least)
  {
    hide JogFactor, JogVelocity, JogLimit;
    JogSpeed(s.od, least);
  }

  lemma FactorOfBits(w: bv16)
    ensures JogFactor(w) == (if Bit(w, 0x1000) then 1.0 else if Bit(w, 0x0800) then 0.25 else 0.5)
    ensures 0.25 <= JogFactor(w) <= 1.0
  {
  }

  /** A jog cycle goes after what its bits ask for. */
  lemma JogCycle(s: Servo, e: Event, least: real)
    requires Running(s) && Continues(s, e) && !Halts(e) && s.last.mode == -3
    requires JogLimit(s.od.config, e.pdo, least)
    ensures GoesAfter(s, Step(s, e), JogWanted(s.od.config, e.pdo, s.axis.position, least), e.dt)
    ensures Step(s, e).window.reached <==> Abs(Step(s, e).axis.velocity) <= 0.000000001
  {
    hide ModelUpdate, Inv, Next, StatuswordOf, WithinLimits, Clocked, Integrate, Reach, Pursues, Kv, VelocityDelta,
         Ramp, Travel, JogTarget, JogCommand, JogWanted, IsLeastLimit;
    CycleTakesOver(s, e);
    JogIsWanted(Clocked(WriteRx(s, e.pdo)), least);
    IntegratePursues(s.od.config, s.axis, JogWanted(s.od.config, e.pdo, s.axis.position, least), e.dt);
  }

  /** From rest, with acceleration: the direction bit moves the axis its way, at once, unless
      it stands at the limit on that side. */
  lemma JogMoves(s: Servo, e: Event, least: real)
    requires Running(s) && Continues(s, e) && !Halts(e) && s.last.mode == -3
    requires JogLimit(s.od.config, e.pdo, least) && JogFactor(e.pdo.controlword) * least > 0.000000000001
    requires s.axis.velocity == 0.0 && s.od.config.acceleration > 0.0
    ensures var c, x, t, w := s.od.config, s.axis.position, Step(s, e).axis, e.pdo.controlword;
            var speed := Min(JogFactor(w) * least, c.acceleration * Ka(c) * e.dt);
            && speed > 0.0
            && (w & 0x0010 != 0 && w & 0x0020 == 0 && x < UpperLimit(c) ==> t.velocity == speed && t.position > x)
            && (w & 0x0010 == 0 && w & 0x0020 != 0 && x > LowerLimit(c) ==> t.velocity == -speed && t.position < x)
            && ((w & 0x0010 != 0) == (w & 0x0020 != 0) ==> t == s.axis)
            && (w & 0x0010 != 0 && x >= UpperLimit(c) ==> t == s.axis)
            && (w & 0x0020 != 0 && x <= LowerLimit(c) ==> t == s.axis)
  {
    hide Step, Kv, Ka, Inv, Next, WithinLimits, JogFactor, IsLeastLimit;
    var c, wanted := s.od.config, JogWanted(s.od.config, e.pdo, s.axis.position, least);
    JogCycle(s, e, least);
    FactorOfBits(e.pdo.controlword);
    RampIsPositive(c, e.dt);
    RestReach(c, wanted, e.dt);
    Trips(c, Step(s, e).axis.velocity, e.dt);
  }

  /** A halted cycle brakes, in every mode that can have a velocity. */
  lemma HaltCycle(s: Servo, e: Event)
    requires Running(s) && Continues(s, e) && Halts(e) && Travelling(s.last.mode)
    ensures GoesAfter(s, Step(s, e), 0.0, e.dt) && !Step(s, e).pp.active
    ensures s.last.mode in {1, 8, -3} ==> (Step(s, e).window.reached <==> Abs(Step(s, e).axis.velocity) <= 0.000000001)
  {
    hide ModelUpdate, Next, StatuswordOf, WithinLimits, Clocked, Integrate, Reach, Pursues, Kv, VelocityDelta, Travel,
         JogCommand, RequiredCount, InPosition, PpMove, CspMove;
    CycleTakesOver(s, e);
    CycleKeepsRunning(s, e);
    IntegratePursues(s.od.config, s.axis, 0.0, e.dt);
    CommandedIsTarget(Clocked(WriteRx(s, e.pdo)));
    JogHalts(Clocked(WriteRx(s, e.pdo)));
  }

  lemma JogHalts(s: Servo)
    requires s.halt
    ensures JogTarget(s.od.config, s.axis.position, JogCommand(s)) == 0.0
  {
    hide UpperLimit, LowerLimit, JogVelocity;
  }

  // ---- Runs ----

  /** Every cycle of the run goes after this velocity and lasts at least dtMin seconds. */
  predicate GoingAfter(s: Servo, events: seq<Event>, to: real, dtMin: real)
    requires AllValid(events)
    decreases |events|
  {
    events == []
    || (&& Running(s) && events[0].Cycle? && Continues(s, events[0]) && events[0].dt >= dtMin > 0.0
        && GoesAfter(s, Step(s, events[0]), to, events[0].dt)
        && GoingAfter(Step(s, events[0]), events[1..], to, dtMin))
  }

  /** The ramp a change towards a velocity can count on. */
  function SureRamp(c: Config, to: real): real {
    (if to == 0.0 then c.deceleration else Min(c.acceleration, c.deceleration)) * Ka(c)
  }

  lemma ReachIsSure(c: Config, from: real, to: real, dt: real, dtMin: real, per: real)
    requires c.Valid() && dt >= dtMin > 0.0 && per == Mul(SureRamp(c, to), dtMin)
    ensures Reach(c, from, to, dt) >= per >= 0.0
  {
    hide Ka;
    Units(c);
    var a := if Abs(to) > Abs(from) then c.acceleration else c.deceleration;
    var b := if to == 0.0 then c.deceleration else Min(c.acceleration, c.deceleration);
    MulMono(b, a, Ka(c));
    MulNonNeg(b, Ka(c));
    MulNonNeg(a, Ka(c));
    MulMono(b * Ka(c), a * Ka(c), dtMin);
    MulMono(dtMin, dt, a * Ka(c));
    MulNonNeg(b * Ka(c), dtMin);
  }

  /** One cycle comes closer by at least the sure ramp. */
  lemma ComesCloser(from: real, to: real, reach: real, result: real)
    requires Pursues(from, to, reach, result) && reach >= 0.0
    ensures Abs(to - result) <= Max(0.0, Abs(to - from) - reach)
  {
  }

  lemma CycleComesCloser(s: Servo, e: Event, to: real, dtMin: real, per: real)
    requires e.Valid() && e.Cycle? && GoesAfter(s, Step(s, e), to, e.dt) && s.od.config.Valid()
    requires e.dt >= dtMin > 0.0 && per == Mul(SureRamp(s.od.config, to), dtMin)
    ensures per >= 0.0 && Abs(to - Step(s, e).axis.velocity) <= Max(0.0, Abs(to - s.axis.velocity) - per)
  {
    hide Step, Reach, Pursues, SureRamp, Mul, Travel, Kv;
    var reach := Reach(s.od.config, s.axis.velocity, to, e.dt);
    ReachIsSure(s.od.config, s.axis.velocity, to, e.dt, dtMin, per);
    ComesCloser(s.axis.velocity, to, reach, Step(s, e).axis.velocity);
  }

  lemma Accumulates(n: nat, per: real, first: real, second: real, last: real)
    requires n > 0 && per >= 0.0 && second <= Max(0.0, first - per)
    requires last <= Max(0.0, second - Mul((n - 1) as real, per))
    ensures last <= Max(0.0, first - Mul(n as real, per))
  {
    MulNonNeg((n - 1) as real, per);
    assert n as real * per == (n - 1) as real * per + per;
  }

  lemma NoTimes(per: real, x: real)
    ensures Abs(x) <= Max(0.0, Abs(x) - Mul(0.0, per))
  {
  }

  /** As many cycles as the sure ramp needs reach the velocity exactly, from whatever
      velocity the run started with. */
  lemma {:induction false} VelocityIsReached(s: Servo, events: seq<Event>, to: real, dtMin: real, per: real)
    requires AllValid(events) && GoingAfter(s, events, to, dtMin) && s.od.config.Valid() && dtMin > 0.0
    requires per == Mul(SureRamp(s.od.config, to), dtMin)
    ensures Abs(to - Run(s, events).axis.velocity)
            <= Max(0.0, Abs(to - s.axis.velocity) - Mul(|events| as real, per))
    decreases |events|
  {
    hide Step, Running, Continues, GoesAfter, SureRamp, Mul, Abs, Max;
    if events == [] {
      NoTimes(per, to - s.axis.velocity);
    } else {
      var t := Step(s, events[0]);
      SameConfig(s, events[0]);
      CycleComesCloser(s, events[0], to, dtMin, per);
      VelocityIsReached(t, events[1..], to, dtMin, per);
      Accumulates(|events|, per, Abs(to - s.axis.velocity), Abs(to - t.axis.velocity),
                  Abs(to - Run(s, events).axis.velocity));
    }
  }

  lemma SameConfig(s: Servo, e: Event)
    requires Running(s) && Continues(s, e)
    ensures Step(s, e).od.config == s.od.config && s.od.config.Valid()
  {
    hide Step, Inv;
    CycleKeepsRunning(s, e);
  }

  /** A run of one command: of profile velocity, or of halt in any travelling mode. */
  predicate CommandHeld(s: Servo, events: seq<Event>, halting: bool, command: real, dtMin: real)
    requires AllValid(events)
    decreases |events|
  {
    events == []
    || (&& events[0].Cycle? && events[0].dt >= dtMin > 0.0 && Continues(s, events[0]) && Halts(events[0]) == halting
        && (!halting ==> s.last.mode == 3 && events[0].pdo.targetVelocity == command)
        && CommandHeld(Step(s, events[0]), events[1..], halting, command, dtMin))
  }

  function Goal(c: Config, halting: bool, command: real): real {
    if halting then 0.0 else Commanded(c, command)
  }

  lemma {:induction false} HeldGoesAfter(s: Servo, events: seq<Event>, halting: bool, command: real, dtMin: real)
    requires AllValid(events) && Running(s) && Travelling(s.last.mode)
    requires CommandHeld(s, events, halting, command, dtMin)
    ensures GoingAfter(s, events, Goal(s.od.config, halting, command), dtMin)
    decreases |events|
  {
    hide Step, Continues, GoesAfter, Commanded, Inv, Config.Valid;
    if events != [] {
      var t := Step(s, events[0]);
      StaysTravelling(s, events[0]);
      if halting {
        HaltCycle(s, events[0]);
      } else {
        PvCycle(s, events[0]);
      }
      HeldGoesAfter(t, events[1..], halting, command, dtMin);
    }
  }

  lemma StaysTravelling(s: Servo, e: Event)
    requires Running(s) && e.Cycle? && Continues(s, e)
    ensures Running(Step(s, e)) && Step(s, e).last.mode == s.last.mode && Step(s, e).od.config == s.od.config
  {
    hide Step, Inv;
    CycleKeepsRunning(s, e);
  }

  /** Profile velocity reaches its capped command exactly and halt brings the axis to rest,
      after no more cycles than the ramps need for the difference. */
  lemma CommandIsReached(s: Servo, events: seq<Event>, halting: bool, command: real, dtMin: real)
    requires AllValid(events) && Running(s) && Travelling(s.last.mode) && dtMin > 0.0
    requires CommandHeld(s, events, halting, command, dtMin)
    requires var goal := Goal(s.od.config, halting, command);
             |events| as real * (SureRamp(s.od.config, goal) * dtMin) >= Abs(goal - s.axis.velocity)
    ensures Run(s, events).axis.velocity == Goal(s.od.config, halting, command)
  {
    hide Step, Running, GoingAfter, SureRamp, CommandHeld, Goal;
    var goal := Goal(s.od.config, halting, command);
    HeldGoesAfter(s, events, halting, command, dtMin);
    RunningIsValid(s);
    var per := Mul(SureRamp(s.od.config, goal), dtMin);
    VelocityIsReached(s, events, goal, dtMin, per);
    assert Mul(|events| as real, per) >= Abs(goal - s.axis.velocity);
    assert Abs(goal - Run(s, events).axis.velocity) <= 0.0;
  }

  lemma RunningIsValid(s: Servo)
    requires Running(s)
    ensures s.od.config.Valid()
  {
  }
}
