/** No run of PDO cycles, SDO writes and device resets makes the axis faster than
    the configured velocity limits. */
module VelocityCap {
  import opened Reals
  import opened ServoSpec
  import opened ServoInvariants
  import opened Kinematics

  /** Both velocity limits are set and none exceeds the bound. */
  predicate Limited(c: Config, bound: real) {
    && c.Valid()
    && 0.0 < c.maxProfileVelocity <= bound
    && 0.0 < NegativeVelocityLimit(c) <= bound
  }

  predicate Capped(s: Servo, bound: real) {
    Abs(s.axis.velocity) <= bound && s.od.rx.profileVelocity >= 0.0
  }

  lemma IntegrateKeepsCap(c: Config, a: Axis, target: real, acceleration: real, dt: real, bound: real)
    requires Abs(a.velocity) <= bound && Abs(target) <= bound
    ensures Abs(Integrate(c, a, target, acceleration, dt).velocity) <= bound
  {
    MoveTowardsIsBetween(a.velocity, target, VelocityDelta(c, acceleration, dt));
  }

  lemma SideVelocityIsLimited(c: Config, profileVelocity: real, target: real, position: real, bound: real)
    requires Limited(c, bound) && profileVelocity >= 0.0
    ensures 0.0 <= SideVelocity(c, profileVelocity, target, position) <= bound
  {
  }

  lemma PpMoveKeepsCap(c: Config, a: Axis, target: real, maxVelocity: real, dt: real, bound: real)
    requires Abs(a.velocity) <= bound && 0.0 <= maxVelocity <= bound
    ensures Abs(PpMove(c, a, target, maxVelocity, dt).axis.velocity) <= bound
  {
    hide VelocityDelta, StoppingDistance, Reaches, Integrate;
    var error := target - a.position;
    var forward := error >= 0.0;
    var braking := Signed(forward, a.velocity) < 0.0
                   || Abs(error) <= StoppingDistance(c, a.velocity, forward);
    IntegrateKeepsCap(c, a, if braking then 0.0 else Signed(forward, maxVelocity),
                      if braking then c.deceleration else c.acceleration, dt, bound);
  }

  lemma CspMoveKeepsCap(c: Config, a: Axis, demand: real, maxVelocity: real, dt: real, bound: real)
    requires c.Valid() && dt > 0.0
    requires Abs(a.velocity) <= bound && 0.0 <= maxVelocity <= bound
    ensures Abs(CspMove(c, a, demand, maxVelocity, dt).velocity) <= bound
  {
    hide VelocityDelta, VelocityRate;
    var desired := Clamp(demand, maxVelocity);
    DeltaNonNegative(c, Ramp(c, desired, a.velocity), dt);
  }

  lemma ModeKeepsCap(s: Servo, dt: real, bound: real)
    requires dt > 0.0 && Limited(s.od.config, bound) && Capped(s, bound)
    ensures Abs(ProcessMode(s, dt).axis.velocity) <= bound
  {
    match s.od.rx.mode
    case 1 => PpKeepsCap(s, dt, bound);
    case 3 => FollowKeepsCap(s, PvTarget(s), dt, bound);
    case 8 => CspKeepsCap(s, dt, bound);
    case 6 => HomingKeepsCap(s, dt, bound);
    case -3 =>
      JogCommandIsLimited(s, bound);
      FollowKeepsCap(s, JogTarget(s.od.config, s.axis.position, JogCommand(s)), dt, bound);
    case _ =>
  }

  lemma FollowKeepsCap(s: Servo, v: real, dt: real, bound: real)
    requires Abs(s.axis.velocity) <= bound && Abs(v) <= bound
    ensures Abs(Follow(s, v, dt).axis.velocity) <= bound
  {
    hide Integrate;
    IntegrateKeepsCap(s.od.config, s.axis, v, Ramp(s.od.config, v, s.axis.velocity), dt, bound);
  }

  lemma DecelerateKeepsCap(s: Servo, dt: real, bound: real)
    requires Abs(s.axis.velocity) <= bound
    ensures Abs(Decelerate(s, dt).axis.velocity) <= bound
  {
    IntegrateKeepsCap(s.od.config, s.axis, 0.0, s.od.config.deceleration, dt, bound);
  }

  /** The smallest of the limits, halved or quartered by the jog speed bits. */
  lemma JogCommandIsLimited(s: Servo, bound: real)
    requires Limited(s.od.config, bound) && s.od.rx.profileVelocity >= 0.0
    ensures Abs(JogCommand(s)) <= Min(s.od.config.maxProfileVelocity, NegativeVelocityLimit(s.od.config))
  {
    var smallest := SmallestLimit(s.od.rx.profileVelocity, s.od.config.maxProfileVelocity,
                                  NegativeVelocityLimit(s.od.config));
    assert 0.0 < smallest <= Min(s.od.config.maxProfileVelocity, NegativeVelocityLimit(s.od.config));
  }

  lemma PpKeepsCap(s: Servo, dt: real, bound: real)
    requires dt > 0.0 && Limited(s.od.config, bound) && Capped(s, bound)
    ensures Abs(ProcessPp(s, dt).axis.velocity) <= bound
  {
    hide Decelerate, PpMove, SideVelocity, Limited, InPosition, RequiredCount;
    var off := s.(pp := s.pp.(active := false, ack := false));
    DecelerateKeepsCap(off, dt, bound);
    DecelerateKeepsCap(off.(window := s.window.(reached := false)), dt, bound);
    var s1 := if RisingBit4(s)
              then s.(pp := Pp(true, s.od.rx.target, true), window := Window(false, 0))
              else s.(pp := s.pp.(ack := Words.Bit(s.od.rx.controlword, 0x0010)));
    DecelerateKeepsCap(s1, dt, bound);
    SideVelocityIsLimited(s.od.config, s.od.rx.profileVelocity, s1.pp.target, s.axis.position, bound);
    PpMoveKeepsCap(s.od.config, s.axis, s1.pp.target,
                   SideVelocity(s.od.config, s.od.rx.profileVelocity, s1.pp.target, s.axis.position), dt, bound);
  }

  lemma CspKeepsCap(s: Servo, dt: real, bound: real)
    requires dt > 0.0 && Limited(s.od.config, bound) && Capped(s, bound)
    ensures Abs(ProcessCsp(s, dt).axis.velocity) <= bound
  {
    hide Decelerate, CspMove, SideVelocity, CspDemand, InPosition, RequiredCount;
    DecelerateKeepsCap(s, dt, bound);
    DecelerateKeepsCap(s.(window := s.window.(reached := false)), dt, bound);
    SideVelocityIsLimited(s.od.config, s.od.rx.profileVelocity, s.od.rx.target, s.axis.position, bound);
    CspMoveKeepsCap(s.od.config, s.axis, CspDemand(s),
                    SideVelocity(s.od.config, s.od.rx.profileVelocity, s.od.rx.target, s.axis.position), dt, bound);
  }

  lemma HomingKeepsCap(s: Servo, dt: real, bound: real)
    requires dt > 0.0 && Abs(s.axis.velocity) <= bound
    ensures Abs(ProcessHoming(s, dt).axis.velocity) <= bound
  {
  }

  lemma StepKeepsCap(s: Servo, e: Event, bound: real)
    requires e.Valid() && Inv(s) && Capped(s, bound)
    requires Limited(s.od.config, bound) && Limited(s.preset, bound)
    ensures Capped(Step(s, e), bound)
  {
    hide Core, ModelUpdate, Limited, ProcessMode, Clocked, StatuswordOf;
    if e.Cycle? {
      var s1 := WriteRx(s, e.pdo);
      CoreIgnoresRx(s, e.pdo);
      UpdateShape(s1, e.dt);
      ModeKeepsCap(Clocked(s1), e.dt, bound);
      ModeFrame(Clocked(s1), e.dt);
    }
  }

  /** Every configuration in force along the run keeps both limits within the bound. */
  predicate LimitedAlong(s: Servo, events: seq<Event>, bound: real)
    requires AllValid(events)
    decreases |events|
  {
    Limited(s.od.config, bound)
    && (events == [] || LimitedAlong(Step(s, events[0]), events[1..], bound))
  }

  /** While both limits stay set and within the bound, the speed never exceeds it, through
      any sequence of modes, halts, retargets, disables, homings and resets. */
  lemma {:induction false} SpeedNeverExceedsLimits(s: Servo, events: seq<Event>, bound: real)
    requires AllValid(events) && Inv(s) && Capped(s, bound)
    requires Limited(s.preset, bound) && LimitedAlong(s, events, bound)
    ensures Abs(Run(s, events).axis.velocity) <= bound
    decreases |events|
  {
    hide Step, Inv, Limited;
    if events != [] {
      StepKeepsCap(s, events[0], bound);
      StepKeepsInv(s, events[0]);
      SpeedNeverExceedsLimits(Step(s, events[0]), events[1..], bound);
    }
  }
}
