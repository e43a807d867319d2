/** A positioning move that is left alone: it stays between start and target, and
    it arrives exactly, within a number of cycles known beforehand, if and only if
    the drive has a velocity limit and an acceleration (or is already in the window). */
module PointToPoint {
  import opened Reals
  import opened Words
  import opened StateMachine
  import opened ServoSpec
  import opened ServoInvariants
  import opened Kinematics
  import opened Approach

  /** Enabled and referenced in PP mode with no device reset waiting. */
  predicate InPp(s: Servo) {
    && Inv(s) && Enabled(s) && s.homing.referenced && s.last.mode == 1
    && s.od.config.Valid() && s.od.commands.reset == s.last.reset
  }

  /** A cycle of at least dtMin seconds that keeps the drive enabled and the profile
      velocity fixed, without halt and without a new set-point edge. The commanded
      target may change as long as the drive accepts it. */
  predicate Held(s: Servo, e: Event, profileVelocity: real, dtMin: real) {
    && e.Cycle? && 0.0 < dtMin <= e.dt
    && Next(OperationEnabled, e.pdo.controlword) == OperationEnabled
    && !Bit(e.pdo.controlword, 0x0100)
    && !(Bit(e.pdo.controlword, 0x0010) && !Bit(s.previousControlword, 0x0010))
    && e.pdo.mode == 1 && e.pdo.profileVelocity == profileVelocity >= 0.0
    && (e.pdo.target == s.last.target || WithinLimits(s.od.config, e.pdo.target))
  }

  /** The velocity limit of the move. */
  function Top(s: Servo, profileVelocity: real): real {
    SideVelocity(s.od.config, profileVelocity, s.pp.target, s.axis.position)
  }

  function MoveProfile(s: Servo, profileVelocity: real): Profile {
    ProfileOf(s.od.config, Top(s, profileVelocity))
  }

  function Distance(s: Servo): real {
    Abs(s.pp.target - s.axis.position)
  }

  function Speed(s: Servo): real {
    Signed(s.pp.target >= s.axis.position, s.axis.velocity)
  }

  // ---- One held cycle ----

  /** What a held cycle must not disturb. */
  predicate Undisturbed(s: Servo, t: Servo) {
    && t.axis == s.axis && t.pp == s.pp && t.homing == s.homing && t.state == s.state
    && t.od.config == s.od.config && t.od.rx.profileVelocity == s.od.rx.profileVelocity
    && t.od.rx.controlword == s.od.rx.controlword && t.od.rx.mode == s.od.rx.mode
    && t.previousControlword == s.previousControlword && t.last.mode == s.last.mode
    && t.od.commands.reset == s.od.commands.reset && t.last.reset == s.last.reset
  }

  lemma AcceptedTarget(s: Servo, target: real, previous: real)
    requires !NeedsReference(s) && WithinLimits(s.od.config, target)
    ensures Undisturbed(s, SetTarget(s, target, previous))
  {
    hide WithinLimits;
  }

  lemma HeldApply(s: Servo)
    requires s.od.commands.reset == s.last.reset && s.od.rx.mode == s.last.mode == 1 && s.homing.referenced
    requires s.od.rx.target == s.last.target || WithinLimits(s.od.config, s.od.rx.target)
    ensures Undisturbed(s, ApplyCommands(s))
  {
    hide WithinLimits, SetTarget;
    var s1 := SaveStep(ResetStep(s));
    assert Undisturbed(s, s1) && s1.od.rx == s.od.rx && s1.last.target == s.last.target;
    if s1.od.rx.target != s1.last.target {
      AcceptedTarget(s1, s1.od.rx.target, s1.last.target);
    }
  }

  /** What the commands and the state machine leave of a held cycle. */
  lemma HeldCommands(s: Servo, e: Event, profileVelocity: real, dtMin: real)
    requires InPp(s) && Held(s, e, profileVelocity, dtMin)
    ensures var t := Clocked(WriteRx(s, e.pdo));
            && t.axis == s.axis && t.pp == s.pp && t.homing == s.homing && t.state == s.state
            && t.od.config == s.od.config && t.od.rx.profileVelocity == profileVelocity
            && t.od.rx.controlword == e.pdo.controlword && t.od.rx.mode == 1
            && t.previousControlword == s.previousControlword && !t.halt
            && t.od.commands.reset == t.last.reset
  {
    hide WithinLimits, StopAtCurrentPosition, ApplyCommands, Inv;
    HeldApply(WriteRx(s, e.pdo));
  }

  lemma HeldPp(t: Servo, dt: real)
    requires dt > 0.0 && Enabled(t) && !t.halt && t.homing.referenced && !RisingBit4(t)
    ensures var u := ProcessPp(t, dt);
            && u.pp.target == t.pp.target && u.homing == t.homing
            && (t.pp.active ==>
                  var m := PpMove(t.od.config, t.axis, t.pp.target, Top(t, t.od.rx.profileVelocity), dt);
                  u.axis == m.axis && u.pp.active == m.active)
            && (!t.pp.active && t.axis.velocity == 0.0 ==> u.axis == t.axis && !u.pp.active)
  {
    hide PpMove, Decelerate, RequiredCount, InPosition, SideVelocity;
    DecelerateKeepsRest(t.(pp := t.pp.(ack := Bit(t.od.rx.controlword, 0x0010))), dt);
  }

  lemma HeldCycle(s: Servo, e: Event, profileVelocity: real, dtMin: real)
    requires InPp(s) && Held(s, e, profileVelocity, dtMin)
    ensures var t := Step(s, e);
            && InPp(t) && t.od.config == s.od.config && t.pp.target == s.pp.target
            && (s.pp.active ==>
                  var m := PpMove(s.od.config, s.axis, s.pp.target, Top(s, profileVelocity), e.dt);
                  t.axis == m.axis && t.pp.active == m.active)
            && (!s.pp.active && s.axis.velocity == 0.0 ==> t.axis == s.axis && !t.pp.active)
  {
    hide ModelUpdate, Clocked, ProcessPp, PpMove, StatuswordOf, Next, SideVelocity;
    var s1 := WriteRx(s, e.pdo);
    CoreIgnoresRx(s, e.pdo);
    UpdateShape(s1, e.dt);
    UpdateKeepsInv(s1, e.dt);
    HeldCommands(s, e, profileVelocity, dtMin);
    HeldPp(Clocked(s1), e.dt);
    ModeFrame(Clocked(s1), e.dt);
  }

  // ---- The move ----

  /** A move at a speed towards its target, or one that has arrived. */
  predicate Closing(s: Servo, profileVelocity: real) {
    && InPp(s)
    && (if s.pp.active then 0.0 <= Speed(s) <= Top(s, profileVelocity)
        else s.axis == Axis(s.pp.target, 0.0))
  }

  /** The position lies between another one and the target. */
  predicate Between(start: real, position: real, target: real) {
    start <= position <= target || target <= position <= start
  }

  lemma TopIsNonNegative(s: Servo, profileVelocity: real)
    requires s.od.config.Valid() && profileVelocity >= 0.0
    ensures Top(s, profileVelocity) >= 0.0
  {
  }

  /** One held cycle keeps the move inside its envelope and, when the drive can
      accelerate, brings it closer to its end. */
  lemma ClosingStep(s: Servo, e: Event, profileVelocity: real, dtMin: real)
    requires Closing(s, profileVelocity) && Held(s, e, profileVelocity, dtMin)
    ensures var t := Step(s, e);
            && Closing(t, profileVelocity) && t.pp.target == s.pp.target
            && t.od.config == s.od.config
            && Between(s.axis.position, t.axis.position, s.pp.target)
            && (t.pp.active ==> s.pp.active && MoveProfile(t, profileVelocity) == MoveProfile(s, profileVelocity))
            && (t.pp.active && Top(s, profileVelocity) > 0.0 && s.od.config.acceleration > 0.0 ==>
                  Rank(MoveProfile(t, profileVelocity), Distance(t), Speed(t), dtMin)
                  < Rank(MoveProfile(s, profileVelocity), Distance(s), Speed(s), dtMin))
  {
    hide InPp, Held, Step, Rank, ApproachStep, PpMove, Kv, Ka;
    HeldCycle(s, e, profileVelocity, dtMin);
    HeldFacts(s, e, profileVelocity, dtMin);
    if s.pp.active {
      var p := MoveProfile(s, profileVelocity);
      SignedStepIsApproach(s.od.config, s.axis, s.pp.target, p.top, e.dt);
      ProfileIsValid(s.od.config, p.top);
      ApproachStaysInside(p, Distance(s), Speed(s), e.dt);
      if p.top > 0.0 && s.od.config.acceleration > 0.0 {
        Units(s.od.config);
        MulPos(s.od.config.acceleration, Ka(s.od.config));
        RankDrops(p, Distance(s), Speed(s), e.dt, dtMin);
      }
    }
  }

  lemma HeldFacts(s: Servo, e: Event, profileVelocity: real, dtMin: real)
    requires Closing(s, profileVelocity) && Held(s, e, profileVelocity, dtMin)
    ensures s.od.config.Valid() && Top(s, profileVelocity) >= 0.0
    ensures e.Cycle? && 0.0 < dtMin <= e.dt && e.Valid()
  {
    TopIsNonNegative(s, profileVelocity);
  }

  // ---- The start of a move ----

  /** A cycle that keeps the drive enabled in PP mode and brings a new set-point edge with
      a target inside the limits that the drive has not just refused. */
  predicate NewSetPoint(s: Servo, e: Event, profileVelocity: real) {
    && e.Cycle? && e.dt > 0.0
    && Next(OperationEnabled, e.pdo.controlword) == OperationEnabled
    && !Bit(e.pdo.controlword, 0x0100)
    && Bit(e.pdo.controlword, 0x0010) && !Bit(s.previousControlword, 0x0010)
    && e.pdo.mode == 1 && e.pdo.profileVelocity == profileVelocity >= 0.0
    && WithinLimits(s.od.config, e.pdo.target)
    && (e.pdo.target == s.last.target ==> !s.limits.rejected)
  }

  lemma SetPointApply(s: Servo)
    requires s.od.commands.reset == s.last.reset && s.od.rx.mode == s.last.mode == 1 && s.homing.referenced
    requires WithinLimits(s.od.config, s.od.rx.target)
    requires s.od.rx.target == s.last.target ==> !s.limits.rejected
    ensures var t := ApplyCommands(s);
            Undisturbed(s, t) && t.od.rx.target == s.od.rx.target && !t.limits.rejected
  {
    hide WithinLimits, StopAtCurrentPosition;
    HeldApply(s);
  }

  lemma SetPointClocked(s: Servo, e: Event, profileVelocity: real)
    requires InPp(s) && NewSetPoint(s, e, profileVelocity)
    ensures var t := Clocked(WriteRx(s, e.pdo));
            && t.axis == s.axis && t.homing == s.homing && t.state == s.state && t.od.config == s.od.config
            && t.od.rx.profileVelocity == profileVelocity && t.od.rx.mode == 1 && t.od.rx.target == e.pdo.target
            && !t.halt && !t.limits.rejected && RisingBit4(t) && t.od.commands.reset == t.last.reset
  {
    hide WithinLimits, StopAtCurrentPosition, ApplyCommands, Inv;
    SetPointApply(WriteRx(s, e.pdo));
  }

  lemma SetPointPp(t: Servo, dt: real)
    requires dt > 0.0 && Enabled(t) && !t.halt && t.homing.referenced && RisingBit4(t) && !t.limits.rejected
    ensures var u := ProcessPp(t, dt);
            var m := PpMove(t.od.config, t.axis, t.od.rx.target,
                            SideVelocity(t.od.config, t.od.rx.profileVelocity, t.od.rx.target, t.axis.position), dt);
            u.pp.target == t.od.rx.target && u.homing == t.homing && u.axis == m.axis && u.pp.active == m.active
  {
    hide PpMove, Decelerate, RequiredCount, InPosition, SideVelocity;
  }

  /** A new set-point on a resting axis starts a move as the theorems below need it: its
      first cycle already stays between start and target. */
  lemma SetPointStartsMove(s: Servo, e: Event, profileVelocity: real)
    requires InPp(s) && Rest(s) && NewSetPoint(s, e, profileVelocity)
    ensures var t := Step(s, e);
            && Closing(t, profileVelocity) && t.pp.target == e.pdo.target && t.od.config == s.od.config
            && Between(s.axis.position, t.axis.position, e.pdo.target)
  {
    hide ModelUpdate, Clocked, ProcessPp, PpMove, StatuswordOf, Next, ApproachStep, Kv, Ka, WithinLimits, Core;
    var s1 := WriteRx(s, e.pdo);
    CoreIgnoresRx(s, e.pdo);
    UpdateShape(s1, e.dt);
    UpdateKeepsInv(s1, e.dt);
    SetPointClocked(s, e, profileVelocity);
    SetPointPp(Clocked(s1), e.dt);
    ModeFrame(Clocked(s1), e.dt);
    var top := SideVelocity(s.od.config, profileVelocity, e.pdo.target, s.axis.position);
    SignedStepIsApproach(s.od.config, s.axis, e.pdo.target, top, e.dt);
    ProfileIsValid(s.od.config, top);
    TopIsNonNegative(s.(pp := s.pp.(target := e.pdo.target)), profileVelocity);
    ApproachStaysInside(ProfileOf(s.od.config, top), Abs(e.pdo.target - s.axis.position), 0.0, e.dt);
  }

  /** Every cycle of the run is held. */
  predicate HeldAlong(s: Servo, events: seq<Event>, profileVelocity: real, dtMin: real)
    requires AllValid(events)
    decreases |events|
  {
    events == []
    || (Held(s, events[0], profileVelocity, dtMin)
        && HeldAlong(Step(s, events[0]), events[1..], profileVelocity, dtMin))
  }

  /** During a move the position stays between start and target and the speed
      towards the target between zero and the limit; the target is never crossed. */
  lemma {:induction false} MoveStaysInEnvelope(s: Servo, events: seq<Event>, profileVelocity: real, dtMin: real)
    requires Closing(s, profileVelocity) && AllValid(events)
    requires HeldAlong(s, events, profileVelocity, dtMin)
    ensures var t := Run(s, events);
            && Closing(t, profileVelocity) && t.pp.target == s.pp.target
            && Between(s.axis.position, t.axis.position, s.pp.target)
            && t.od.config == s.od.config
    decreases |events|
  {
    hide Closing, Held, Step;
    if events != [] {
      ClosingStep(s, events[0], profileVelocity, dtMin);
      MoveStaysInEnvelope(Step(s, events[0]), events[1..], profileVelocity, dtMin);
    }
  }

  /** Cycles after which the move has certainly arrived. */
  function CycleBound(s: Servo, profileVelocity: real, dtMin: real): nat {
    if s.pp.active then Rank(MoveProfile(s, profileVelocity), Distance(s), Speed(s), dtMin) + 1 else 0
  }

  /** With a velocity limit and an acceleration the move arrives exactly at its
      target within the bound, and stays there. */
  lemma {:induction false} MoveArrives(s: Servo, events: seq<Event>, profileVelocity: real, dtMin: real)
    requires Closing(s, profileVelocity) && AllValid(events)
    requires HeldAlong(s, events, profileVelocity, dtMin)
    requires Top(s, profileVelocity) > 0.0 && s.od.config.acceleration > 0.0
    requires |events| >= CycleBound(s, profileVelocity, dtMin)
    ensures Run(s, events).axis == Axis(s.pp.target, 0.0) && !Run(s, events).pp.active
    decreases |events|
  {
    hide Held, Step, Rank, InPp;
    if !s.pp.active {
      ArrivedStays(s, events, profileVelocity, dtMin);
    } else {
      ClosingStep(s, events[0], profileVelocity, dtMin);
      var t := Step(s, events[0]);
      if t.pp.active {
        MoveArrives(t, events[1..], profileVelocity, dtMin);
      } else {
        ArrivedStays(t, events[1..], profileVelocity, dtMin);
      }
    }
  }

  lemma {:induction false} ArrivedStays(s: Servo, events: seq<Event>, profileVelocity: real, dtMin: real)
    requires Closing(s, profileVelocity) && AllValid(events) && !s.pp.active
    requires HeldAlong(s, events, profileVelocity, dtMin)
    ensures Run(s, events).axis == s.axis && !Run(s, events).pp.active
    decreases |events|
  {
    hide Held, Step, InPp;
    if events != [] {
      ClosingStep(s, events[0], profileVelocity, dtMin);
      ArrivedStays(Step(s, events[0]), events[1..], profileVelocity, dtMin);
    }
  }

  /** Without a velocity limit or without acceleration a move that starts at rest
      outside the window never takes a step, however long the run. */
  lemma {:induction false} MoveStuck(s: Servo, events: seq<Event>, profileVelocity: real, dtMin: real)
    requires Closing(s, profileVelocity) && AllValid(events)
    requires HeldAlong(s, events, profileVelocity, dtMin)
    requires s.pp.active && s.axis.velocity == 0.0 && Distance(s) > s.od.config.window
    requires Top(s, profileVelocity) == 0.0 || s.od.config.acceleration == 0.0
    ensures Run(s, events).axis == s.axis && Run(s, events).pp.active
    decreases |events|
  {
    hide Held, Step, InPp, PpMove, ApproachStep, Kv, Ka, SideVelocity;
    if events != [] {
      var e, p := events[0], MoveProfile(s, profileVelocity);
      HeldCycle(s, e, profileVelocity, dtMin);
      HeldFacts(s, e, profileVelocity, dtMin);
      ProfileIsValid(s.od.config, p.top);
      SignedStepIsApproach(s.od.config, s.axis, s.pp.target, p.top, e.dt);
      NoAcceleration(s.od.config);
      StuckWithoutDrive(p, Distance(s), e.dt);
      MoveStuck(Step(s, e), events[1..], profileVelocity, dtMin);
    }
  }

  lemma NoAcceleration(c: Config)
    ensures c.acceleration == 0.0 ==> Mul(c.acceleration, Ka(c)) == 0.0
  {
  }

  /** From rest, and given enough cycles, a move arrives if and only if its target is
      within the window already or the drive has both a velocity limit and an
      acceleration. A deceleration is not needed. */
  lemma MoveArrivesExactlyWhenDriven(s: Servo, events: seq<Event>, profileVelocity: real, dtMin: real)
    requires Closing(s, profileVelocity) && AllValid(events)
    requires HeldAlong(s, events, profileVelocity, dtMin)
    requires s.pp.active && s.axis.velocity == 0.0
    requires |events| >= CycleBound(s, profileVelocity, dtMin)
    ensures Run(s, events).axis == Axis(s.pp.target, 0.0) && !Run(s, events).pp.active
            <==> Distance(s) <= s.od.config.window
                 || (Top(s, profileVelocity) > 0.0 && s.od.config.acceleration > 0.0)
  {
    hide Held, Step, Rank, InPp;
    HeldFacts(s, events[0], profileVelocity, dtMin);
    if Top(s, profileVelocity) > 0.0 && s.od.config.acceleration > 0.0 {
      MoveArrives(s, events, profileVelocity, dtMin);
    } else if Distance(s) <= s.od.config.window {
      ArrivesFromWindow(s, events, profileVelocity, dtMin);
    } else {
      MoveStuck(s, events, profileVelocity, dtMin);
    }
  }

  lemma ArrivesFromWindow(s: Servo, events: seq<Event>, profileVelocity: real, dtMin: real)
    requires Closing(s, profileVelocity) && AllValid(events) && |events| > 0
    requires HeldAlong(s, events, profileVelocity, dtMin)
    requires s.pp.active && s.axis.velocity == 0.0 && Distance(s) <= s.od.config.window
    ensures Run(s, events).axis == Axis(s.pp.target, 0.0) && !Run(s, events).pp.active
  {
    hide Held, Step, InPp, VelocityDelta, Integrate;
    HeldCycle(s, events[0], profileVelocity, dtMin);
    ClosingStep(s, events[0], profileVelocity, dtMin);
    ArrivedStays(Step(s, events[0]), events[1..], profileVelocity, dtMin);
  }

  /** The velocity limit of a move is positive exactly when the profile velocity is. */
  lemma TopFollowsProfile(s: Servo, profileVelocity: real)
    requires s.od.config.Valid() && profileVelocity >= 0.0
    ensures Top(s, profileVelocity) > 0.0 <==> profileVelocity > 0.0
  {
  }

  /** A whole move: from the set-point edge on a resting axis, with a positive profile
      velocity and acceleration, the drive arrives exactly at the commanded target and the
      move is over. */
  lemma SetPointArrives(s: Servo, start: Event, events: seq<Event>, profileVelocity: real, dtMin: real)
    requires InPp(s) && Rest(s) && NewSetPoint(s, start, profileVelocity) && AllValid(events)
    requires profileVelocity > 0.0 && s.od.config.acceleration > 0.0
    requires HeldAlong(Step(s, start), events, profileVelocity, dtMin)
    requires |events| >= CycleBound(Step(s, start), profileVelocity, dtMin)
    ensures Run(Step(s, start), events).axis == Axis(start.pdo.target, 0.0)
    ensures !Run(Step(s, start), events).pp.active
  {
    hide Step, Rank, InPp, HeldAlong, Run;
    SetPointStartsMove(s, start, profileVelocity);
    ClosingIsValid(Step(s, start), profileVelocity);
    TopFollowsProfile(Step(s, start), profileVelocity);
    MoveArrives(Step(s, start), events, profileVelocity, dtMin);
  }

  lemma ClosingIsValid(s: Servo, profileVelocity: real)
    requires Closing(s, profileVelocity)
    ensures s.od.config.Valid()
  {
  }
}
