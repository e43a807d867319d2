/** What holds of the servo in every reachable state, whatever PDO cycles, SDO
    writes and device resets arrive: rest, reference gating, honest feedback and
    the velocity cap. */
module ServoInvariants {
  import opened Words
  import opened StateMachine
  import opened ServoSpec

  predicate Rest(s: Servo) {
    s.axis.velocity == 0.0 && !s.pp.active
  }

  /** Modes whose motion needs a homing reference. */
  predicate Positioning(mode: int) {
    mode == 1 || mode == 8
  }

  /** Modes in which the axis can have a velocity. */
  predicate Travelling(mode: int) {
    Positioning(mode) || mode == 3 || mode == -3
  }

  predicate Feedback(s: Servo) {
    s.od.tx.position == s.axis.position && s.od.tx.velocity == s.axis.velocity
  }

  /** The part of the invariant that mode processing keeps. */
  predicate Core(s: Servo) {
    && Feedback(s)
    && (!Enabled(s) ==> Rest(s))
    && (s.pp.active ==> s.homing.referenced && s.last.mode == 1)
    && (Positioning(s.last.mode) && !s.homing.referenced ==> Rest(s))
    && (!Travelling(s.last.mode) ==> Rest(s))
    && !s.homing.error
    && (s.homing.active ==> s.homing.counter >= 1)
    && ModeShown(s)
  }

  /** The mode display shows the mode in effect. */
  predicate ModeShown(s: Servo) {
    s.od.tx.modeDisplay == s.last.mode
  }

  /** The statusword in the object dictionary shows the state machine. */
  predicate StatusShown(s: Servo) {
    s.od.tx.statusword & 0x006f == Statusword(s.state) & 0x006f
  }

  predicate Inv(s: Servo) {
    Core(s) && StatusShown(s)
  }

  /** Between the object dictionary commands and the state machine: a device reset
      has zeroed the controlword, so an enabled drive is about to be stopped. */
  predicate Pending(s: Servo) {
    && s.od.rx.mode == s.last.mode
    && s.od.tx.position == s.axis.position && ModeShown(s)
    && !s.homing.error
    && (s.homing.active ==> s.homing.counter >= 1)
    && (Core(s) || (Enabled(s) && s.od.rx.controlword == 0))
  }

  // ---- Preservation, piece by piece ----

  lemma InitialInv(preset: Config)
    ensures Inv(Initial(preset))
  {
  }

  /** What the object dictionary commands never touch. */
  predicate SameAxis(s: Servo, t: Servo) {
    && t.axis.position == s.axis.position && t.state == s.state && t.preset == s.preset
    && t.homing.referenced == s.homing.referenced
    && (t.od.rx.controlword == s.od.rx.controlword || t.od.rx.controlword == 0)
    && (t.od.config == s.od.config || t.od.config == s.preset)
    && (t.axis.velocity == s.axis.velocity || t.axis.velocity == 0.0)
    && (t.od.rx.profileVelocity == s.od.rx.profileVelocity || t.od.rx.profileVelocity == 0.0)
  }

  /** Stopping establishes rest, wherever the command came from. */
  lemma StopIsRest(s: Servo)
    ensures Rest(StopAtCurrentPosition(s)) && Feedback(StopAtCurrentPosition(s))
    ensures StopAtCurrentPosition(s).axis.position == s.axis.position
  {
  }

  /** A state whose dictionary commands are dealt with by a device reset. */
  predicate JustReset(s: Servo) {
    Pending(s) && s.od.rx.target == s.last.target && s.od.rx.mode == 8 && s.od.rx.controlword == 0
  }

  lemma ResetLeadsToPending(s: Servo)
    requires Core(s)
    ensures var t := ResetStep(s);
            SameAxis(s, t) && (JustReset(t) || (Core(t) && t.od.rx.mode == s.od.rx.mode))
  {
  }

  lemma SaveIsHarmless(s: Servo)
    ensures SameAxis(s, SaveStep(s)) && SaveStep(s).od.rx == s.od.rx
    ensures SaveStep(s).last == s.last.(save := SaveStep(s).last.save)
    ensures Core(SaveStep(s)) == Core(s) && Pending(SaveStep(s)) == Pending(s)
  {
  }

  lemma SetModeKeepsCore(s: Servo)
    requires Core(s)
    ensures var mode := s.od.rx.mode;
            var t := if mode == s.last.mode then s else SetMode(s, mode, s.last.mode);
            Core(t) && t.od.rx.mode == t.last.mode == mode && SameAxis(s, t)
  {
  }

  lemma SetTargetKeepsCore(s: Servo, target: real)
    requires Core(s)
    ensures var t := SetTarget(s, target, s.last.target);
            Core(t) && t.od.rx.mode == s.od.rx.mode && t.last.mode == s.last.mode && SameAxis(s, t)
  {
    StopIsRest(s.(limits := Limits(true, true)));
  }

  lemma CommandsLeadToPending(s: Servo)
    requires Core(s)
    ensures Pending(ApplyCommands(s)) && SameAxis(s, ApplyCommands(s))
    ensures ApplyCommands(s).od.rx.mode == s.od.rx.mode
            || (ApplyCommands(s).od.rx.mode == 8 && ApplyCommands(s).od.rx.controlword == 0)
  {
    hide ResetStep, SaveStep, SetMode, SetTarget;
    ResetLeadsToPending(s);
    SaveIsHarmless(ResetStep(s));
    var s1 := SaveStep(ResetStep(s));
    if Core(s1) {
      SetModeKeepsCore(s1);
      var mode, target := s1.od.rx.mode, s1.od.rx.target;
      var s2 := if mode == s1.last.mode then s1 else SetMode(s1, mode, s1.last.mode);
      SetTargetKeepsCore(s2, target);
    }
  }

  lemma ClockEndsPending(s: Servo)
    requires Pending(s)
    ensures Core(ClockState(s))
    ensures ClockState(s).od.rx.mode == ClockState(s).last.mode == s.last.mode
    ensures ClockState(s).axis.position == s.axis.position
    ensures SameAxis(s.(state := Next(s.state, s.od.rx.controlword)), ClockState(s))
    ensures ClockState(s).homing == s.homing && ClockState(s).od.config == s.od.config
  {
    StopIsRest(s.(halt := Bit(s.od.rx.controlword, 0x0100), state := Next(s.state, s.od.rx.controlword)));
  }

  lemma RestIntegrates(c: Config, x: real, acceleration: real, dt: real)
    ensures Integrate(c, Axis(x, 0.0), 0.0, acceleration, dt) == Axis(x, 0.0)
  {
    assert VelocityRate(c, 0.0) == 0.0;
  }

  lemma DecelerateKeepsRest(s: Servo, dt: real)
    ensures Feedback(Decelerate(s, dt))
    ensures s.axis.velocity == 0.0 ==> Decelerate(s, dt).axis == s.axis
    ensures Decelerate(s, dt) == s.(axis := Decelerate(s, dt).axis, od := Decelerate(s, dt).od)
    ensures Decelerate(s, dt).od.tx.modeDisplay == s.od.tx.modeDisplay
  {
    RestIntegrates(s.od.config, s.axis.position, s.od.config.deceleration, dt);
  }

  lemma PpKeepsCore(s: Servo, dt: real)
    requires (dt > 0.0 || !PpTimed(s)) && Core(s) && s.last.mode == 1
    ensures Core(ProcessPp(s, dt))
    ensures Rest(s) && (!s.homing.referenced || !RisingBit4(s)) ==>
              ProcessPp(s, dt).axis == s.axis && Rest(ProcessPp(s, dt))
  {
    hide VelocityDelta, VelocityRate, Integrate, PpMove, Decelerate;
    DecelerateKeepsRest(s, dt);
    var off := s.(pp := s.pp.(active := false, ack := false));
    DecelerateKeepsRest(off, dt);
    DecelerateKeepsRest(off.(window := s.window.(reached := false)), dt);
    DecelerateKeepsRest(s.(pp := s.pp.(ack := Bit(s.od.rx.controlword, 0x0010))), dt);
  }

  lemma CspKeepsCore(s: Servo, dt: real)
    requires (dt > 0.0 || !CspTimed(s)) && Core(s) && s.last.mode == 8
    ensures Core(ProcessCsp(s, dt))
    ensures !s.homing.referenced ==> ProcessCsp(s, dt).axis == s.axis
  {
    hide VelocityDelta, VelocityRate, Integrate, CspMove, Decelerate;
    DecelerateKeepsRest(s, dt);
    DecelerateKeepsRest(s.(window := s.window.(reached := false)), dt);
  }

  /** What no operating mode touches. */
  predicate SameFrame(s: Servo, t: Servo) {
    && t.preset == s.preset && t.state == s.state && t.last == s.last && t.limits == s.limits
    && t.halt == s.halt && t.previousControlword == s.previousControlword && t.gain == s.gain
    && t.od.config == s.od.config && t.od.commands == s.od.commands
    && t.od.rx == s.od.rx.(target := t.od.rx.target)
  }

  lemma PpFrame(s: Servo, dt: real)
    requires dt > 0.0 || !PpTimed(s)
    ensures SameFrame(s, ProcessPp(s, dt))
  {
    hide VelocityDelta, VelocityRate, Integrate, PpMove, RequiredCount, InPosition;
  }

  lemma CspFrame(s: Servo, dt: real)
    requires dt > 0.0 || !CspTimed(s)
    ensures SameFrame(s, ProcessCsp(s, dt))
  {
    hide VelocityDelta, VelocityRate, Integrate, CspMove, RequiredCount, InPosition;
  }

  lemma VelocityFrame(s: Servo, dt: real)
    ensures SameFrame(s, ProcessPv(s, dt)) && SameFrame(s, ProcessJog(s, dt))
  {
    hide VelocityDelta, VelocityRate, Integrate, PvTarget, JogTarget, JogCommand, Ramp;
  }

  lemma HomingFrame(s: Servo, dt: real)
    requires dt > 0.0 || !HomingTimed(s)
    ensures SameFrame(s, ProcessHoming(s, dt))
  {
    hide HomingCycles;
  }

  lemma ModeFrame(s: Servo, dt: real)
    requires dt > 0.0 || !ModeTimed(s)
    ensures SameFrame(s, ProcessMode(s, dt))
    ensures !Enabled(s) ==> ProcessMode(s, dt) == s
  {
    hide ProcessPp, ProcessCsp, ProcessPv, ProcessJog, ProcessHoming, PpTimed, CspTimed, HomingTimed;
    VelocityFrame(s, dt);
    match s.od.rx.mode {
      case 1 => PpFrame(s, dt);
      case 8 => CspFrame(s, dt);
      case 6 => HomingFrame(s, dt);
      case _ =>
    }
    if !Enabled(s) {
      DisabledStays(s, dt);
    }
  }

  lemma DisabledStays(s: Servo, dt: real)
    requires (dt > 0.0 || !ModeTimed(s)) && !Enabled(s)
    ensures ProcessMode(s, dt) == s
  {
  }

  lemma HomingKeepsCore(s: Servo, dt: real)
    requires (dt > 0.0 || !HomingTimed(s)) && Core(s) && s.last.mode == 6
    ensures Core(ProcessHoming(s, dt))
  {
  }

  lemma FollowKeepsCore(s: Servo, v: real, dt: real)
    requires Core(s) && Enabled(s) && s.last.mode in {3, -3}
    ensures Core(Follow(s, v, dt))
    ensures Follow(s, v, dt) == s.(axis := Follow(s, v, dt).axis, od := Follow(s, v, dt).od)
  {
  }

  lemma ModeKeepsCore(s: Servo, dt: real)
    requires (dt > 0.0 || !ModeTimed(s)) && Core(s) && s.od.rx.mode == s.last.mode
    ensures Core(ProcessMode(s, dt))
  {
    hide VelocityDelta, Follow, PvTarget, JogTarget, JogCommand, ProcessPp, ProcessCsp, ProcessHoming;
    if s.last.mode == 1 {
      PpKeepsCore(s, dt);
    } else if s.last.mode == 8 {
      CspKeepsCore(s, dt);
    } else if s.last.mode == 6 {
      HomingKeepsCore(s, dt);
    } else if Enabled(s) && s.last.mode == 3 {
      FollowKeepsCore(s, PvTarget(s), dt);
    } else if Enabled(s) && s.last.mode == -3 {
      FollowKeepsCore(s, JogTarget(s.od.config, s.axis.position, JogCommand(s)), dt);
    }
  }

  // ---- Whole updates ----

  /** The state on which the active mode runs. */
  function Clocked(s: Servo): Servo {
    ClockState(ApplyCommands(s))
  }

  /** Each bit shown besides the state's own is outside the mask 0x006f. */
  lemma StatusIsShown(s: Servo, controlword: bv16)
    requires !s.homing.error
    ensures StatusShown(Report(s, controlword))
  {
    hide Statusword, Moving, LimitActive;
    FlagsOutsideMask(Statusword(s.state), s.window.reached, s.pp.ack, Moving(s), LimitActive(s),
                     s.homing.referenced);
  }

  lemma FlagsOutsideMask(w: bv16, a: bool, b: bool, c: bool, d: bool, e: bool)
    ensures SetIf(SetIf(SetIf(SetIf(SetIf(SetIf(w, a, 0x0400), b, 0x1000), c, 0x0100), d, 0x0080), d, 0x0800),
                  e, 0x8000) & 0x006f == w & 0x006f
  {
    FlagOutside(w, a, 0x0400);
    var w1 := SetIf(w, a, 0x0400);
    FlagOutside(w1, b, 0x1000);
    var w2 := SetIf(w1, b, 0x1000);
    FlagOutside(w2, c, 0x0100);
    var w3 := SetIf(w2, c, 0x0100);
    FlagOutside(w3, d, 0x0080);
    var w4 := SetIf(w3, d, 0x0080);
    FlagOutside(w4, d, 0x0800);
    var w5 := SetIf(w4, d, 0x0800);
    FlagOutside(w5, e, 0x8000);
  }

  lemma FlagOutside(w: bv16, b: bool, mask: bv16)
    requires mask & 0x006f == 0
    ensures SetIf(w, b, mask) & 0x006f == w & 0x006f
  {
  }

  /** What the statusword tells besides the state: each flag on its own bit, and the fault
      bit only for a Fault state or a homing error. */
  lemma StatusTells(s: Servo)
    ensures var w := StatuswordOf(s);
            && Bit(w, 0x0400) == s.window.reached && Bit(w, 0x1000) == s.pp.ack
            && Bit(w, 0x0100) == Moving(s) && Bit(w, 0x8000) == s.homing.referenced
            && Bit(w, 0x0080) == LimitActive(s) && Bit(w, 0x0800) == LimitActive(s)
            && Bit(w, 0x0008) == (s.state == Fault || (s.od.rx.mode == 6 && s.homing.error))
  {
    hide Moving, LimitActive, SetIf, Bit;
    StateBits(s.state);
    FlagsOnBits(Statusword(s.state), s.window.reached, s.pp.ack, Moving(s), LimitActive(s), s.homing.referenced,
                s.od.rx.mode == 6 && s.homing.error);
  }

  lemma StateBits(state: State)
    ensures Statusword(state) & 0x9d80 == 0 && Bit(Statusword(state), 0x0008) == (state == Fault)
  {
  }

  lemma FlagsOnBits(w: bv16, a: bool, b: bool, c: bool, d: bool, e: bool, f: bool)
    requires w & 0x9d80 == 0
    ensures var u := SetIf(SetIf(SetIf(SetIf(SetIf(SetIf(SetIf(w, a, 0x0400), b, 0x1000), c, 0x0100), d, 0x0080), d,
                                       0x0800), e, 0x8000), f, 0x0008);
            && Bit(u, 0x0400) == a && Bit(u, 0x1000) == b && Bit(u, 0x0100) == c && Bit(u, 0x8000) == e
            && Bit(u, 0x0080) == d && Bit(u, 0x0800) == d && Bit(u, 0x0008) == (f || Bit(w, 0x0008))
  {
    hide SetIf, Flag, Bit;
    var w1 := SetIf(w, a, 0x0400);
    var w2 := SetIf(w1, b, 0x1000);
    var w3 := SetIf(w2, c, 0x0100);
    var w4 := SetIf(w3, d, 0x0080);
    var w5 := SetIf(w4, d, 0x0800);
    var w6 := SetIf(w5, e, 0x8000);
    OneFlag(w, a, 0x0400);
    OneFlag(w1, b, 0x1000);
    OneFlag(w2, c, 0x0100);
    OneFlag(w3, d, 0x0080);
    OneFlag(w4, d, 0x0800);
    OneFlag(w5, e, 0x8000);
    OneFlag(w6, f, 0x0008);
    FlagChain(w, w1, w2, w3, w4, w5, w6, SetIf(w6, f, 0x0008), a, b, c, d, e, f);
  }

  function Flag(b: bool, mask: bv16): bv16 {
    if b then mask else 0
  }

  lemma OneFlag(w: bv16, b: bool, mask: bv16)
    ensures SetIf(w, b, mask) == w | Flag(b, mask)
  {
    if b {
      FlagSet(mask);
    } else {
      FlagClear(mask);
      OrZero(w);
      calc {
        SetIf(w, b, mask);
        w;
        w | 0;
        w | Flag(b, mask);
      }
    }
  }

  lemma FlagSet(mask: bv16)
    ensures Flag(true, mask) == mask
  {
  }

  lemma FlagClear(mask: bv16)
    ensures Flag(false, mask) == 0
  {
  }

  lemma OrZero(w: bv16)
    ensures w | 0 == w
  {
  }

  lemma FlagChain(w: bv16, w1: bv16, w2: bv16, w3: bv16, w4: bv16, w5: bv16, w6: bv16, w7: bv16,
                  a: bool, b: bool, c: bool, d: bool, e: bool, f: bool)
    requires w & 0x9d80 == 0
    requires w1 == w | Flag(a, 0x0400) && w2 == w1 | Flag(b, 0x1000) && w3 == w2 | Flag(c, 0x0100)
    requires w4 == w3 | Flag(d, 0x0080) && w5 == w4 | Flag(d, 0x0800) && w6 == w5 | Flag(e, 0x8000)
    requires w7 == w6 | Flag(f, 0x0008)
    ensures Bit(w7, 0x0400) == a && Bit(w7, 0x1000) == b && Bit(w7, 0x0100) == c && Bit(w7, 0x8000) == e
    ensures Bit(w7, 0x0080) == d && Bit(w7, 0x0800) == d && Bit(w7, 0x0008) == (f || Bit(w, 0x0008))
  {
  }

  /** An update runs the active mode on a state in Core, at the old position. */
  lemma UpdateShape(s: Servo, dt: real)
    requires (dt > 0.0 || !UpdateTimed(s)) && Core(s)
    ensures Core(Clocked(s)) && Clocked(s).od.rx.mode == Clocked(s).last.mode
    ensures Clocked(s).od.rx.mode == s.od.rx.mode
            || (Clocked(s).od.rx.mode == 8 && Clocked(s).od.rx.controlword == 0)
    ensures Clocked(s).axis.position == s.axis.position && Clocked(s).preset == s.preset
    ensures Clocked(s).homing.referenced == s.homing.referenced
    ensures Clocked(s).od.config == s.od.config || Clocked(s).od.config == s.preset
    ensures Clocked(s).od.rx.controlword == s.od.rx.controlword || Clocked(s).od.rx.controlword == 0
    ensures Clocked(s).axis.velocity == s.axis.velocity || Clocked(s).axis.velocity == 0.0
    ensures Clocked(s).od.rx.profileVelocity == s.od.rx.profileVelocity
            || Clocked(s).od.rx.profileVelocity == 0.0
    ensures Clocked(s).state == Next(s.state, Clocked(s).od.rx.controlword)
    ensures ModelUpdate(s, dt) == Report(ProcessMode(Clocked(s), dt), Clocked(s).od.rx.controlword)
  {
    hide ApplyCommands, ProcessMode, Next, StatuswordOf;
    CommandsLeadToPending(s);
    ClockEndsPending(ApplyCommands(s));
  }

  /** What commands other than a device reset never touch. */
  predicate SameCommands(s: Servo, t: Servo) {
    && t.od.config == s.od.config && t.od.commands.reset == s.od.commands.reset
    && t.last.reset == s.last.reset && t.previousControlword == s.previousControlword
    && t.od.rx == s.od.rx.(mode := t.od.rx.mode, target := t.od.rx.target)
  }

  lemma SetModeFrame(s: Servo, mode: int, previous: int)
    ensures SameCommands(s, SetMode(s, mode, previous)) && SetMode(s, mode, previous).od.rx.mode == mode
    ensures mode == 6 ==> SetMode(s, mode, previous).homing == s.homing
  {
  }

  lemma SetTargetFrame(s: Servo, target: real, previous: real)
    ensures var t := SetTarget(s, target, previous);
            SameCommands(s, t) && t.od.rx.mode == s.od.rx.mode && t.homing == s.homing
  {
    hide WithinLimits, NeedsReference;
  }

  lemma SaveFrame(s: Servo)
    requires s.od.commands.reset == s.last.reset
    ensures var t := SaveStep(ResetStep(s));
            SameCommands(s, t) && t.od.rx == s.od.rx && t.homing == s.homing
  {
  }

  lemma ClockFrame(s: Servo)
    ensures var t := ClockState(s);
            SameCommands(s, t) && t.od.rx.mode == s.od.rx.mode && t.homing == s.homing
  {
    hide Next;
  }

  /** Without a new device reset command the requested mode and the configuration stand. */
  lemma NoResetShape(s: Servo)
    requires s.od.commands.reset == s.last.reset
    ensures SameCommands(s, Clocked(s)) && Clocked(s).od.rx.mode == s.od.rx.mode
    ensures Clocked(s).od.commands.reset == Clocked(s).last.reset
    ensures s.od.rx.mode == 6 ==> Clocked(s).homing == s.homing
  {
    hide ResetStep, SaveStep, SetMode, SetTarget, ClockState;
    SaveFrame(s);
    var s1 := SaveStep(ResetStep(s));
    var mode, target := s1.od.rx.mode, s1.od.rx.target;
    SetModeFrame(s1, mode, s1.last.mode);
    var s2 := if mode == s1.last.mode then s1 else SetMode(s1, mode, s1.last.mode);
    SetTargetFrame(s2, target, s2.last.target);
    ClockFrame(ApplyCommands(s));
  }

  lemma UpdateKeepsInv(s: Servo, dt: real)
    requires (dt > 0.0 || !UpdateTimed(s)) && Core(s)
    ensures Inv(ModelUpdate(s, dt))
    ensures ModelUpdate(s, dt).preset == s.preset
    ensures ModelUpdate(s, dt).state == Clocked(s).state
    ensures ModelUpdate(s, dt).last.mode in {s.od.rx.mode, 8}
  {
    hide ApplyCommands, ClockState, ProcessMode, StatuswordOf, ModelUpdate;
    UpdateShape(s, dt);
    ModeKeepsCore(Clocked(s), dt);
    ModeFrame(Clocked(s), dt);
    StatusIsShown(ProcessMode(Clocked(s), dt), Clocked(s).od.rx.controlword);
  }

  lemma WriteKeepsInv(s: Servo, w: SdoWrite)
    requires Inv(s)
    ensures Inv(WriteSdo(s, w)) && WriteSdo(s, w).axis == s.axis
    ensures WriteSdo(s, w).homing == s.homing && WriteSdo(s, w).state == s.state
    ensures WriteSdo(s, w).pp == s.pp && WriteSdo(s, w).preset == s.preset
  {
  }

  lemma StepKeepsInv(s: Servo, e: Event)
    requires e.Valid() && Inv(s)
    ensures Inv(Step(s, e)) && Step(s, e).preset == s.preset
  {
    hide ModelUpdate, WriteSdo, Core;
    match e
    case Cycle(pdo, dt) =>
      CoreIgnoresRx(s, pdo);
      UpdateKeepsInv(WriteRx(s, pdo), dt);
    case Sdo(w) =>
      WriteKeepsInv(s, w);
  }

  lemma CoreIgnoresRx(s: Servo, pdo: RxPdo)
    ensures Core(WriteRx(s, pdo)) == Core(s)
  {
  }

  /** Every reachable state is at rest unless Operation Enabled, gated by its homing
      reference, and reports its own position, velocity and state truthfully. */
  lemma {:induction false} ReachableInv(preset: Config, events: seq<Event>)
    requires AllValid(events)
    ensures Inv(Run(Initial(preset), events))
  {
    InitialInv(preset);
    RunKeepsInv(Initial(preset), events);
  }

  lemma {:induction false} RunKeepsInv(s: Servo, events: seq<Event>)
    requires AllValid(events) && Inv(s)
    ensures Inv(Run(s, events)) && Run(s, events).preset == s.preset
    decreases |events|
  {
    hide Step, Inv;
    if events != [] {
      StepKeepsInv(s, events[0]);
      RunKeepsInv(Step(s, events[0]), events[1..]);
    }
  }

  // ---- When the axis cannot move ----

  /** A drive that is not enabled after an update has not moved in it. */
  lemma NotEnabledHoldsPosition(s: Servo, dt: real)
    requires (dt > 0.0 || !UpdateTimed(s)) && Core(s) && !Enabled(ModelUpdate(s, dt))
    ensures ModelUpdate(s, dt).axis.position == s.axis.position
    ensures Rest(ModelUpdate(s, dt))
  {
    hide ApplyCommands, ClockState, ProcessMode, StatuswordOf, ModelUpdate;
    UpdateShape(s, dt);
    UpdateKeepsInv(s, dt);
    ModeFrame(Clocked(s), dt);
  }

  lemma RestSurvivesCommands(s: Servo)
    requires Core(s) && Rest(s)
    ensures Rest(Clocked(s))
  {
    hide Next;
    RestSurvivesTarget(s);
    CommandsLeadToPending(s);
    StopIsRest(ApplyCommands(s).(halt := Bit(ApplyCommands(s).od.rx.controlword, 0x0100),
                                 state := Next(s.state, ApplyCommands(s).od.rx.controlword)));
  }

  lemma RestSurvivesTarget(s: Servo)
    requires Rest(s)
    ensures Rest(ApplyCommands(s))
  {
    hide WithinLimits, NeedsReference, ResetStep, SaveStep, SetMode, SetTarget;
    RestSurvivesReset(s);
    var s1 := SaveStep(ResetStep(s));
    var mode, target := s1.od.rx.mode, s1.od.rx.target;
    RestSurvivesSet(s1, mode, target);
    var s2 := if mode == s1.last.mode then s1 else SetMode(s1, mode, s1.last.mode);
    RestSurvivesSet(s2, mode, target);
  }

  lemma RestSurvivesReset(s: Servo)
    requires Rest(s)
    ensures Rest(SaveStep(ResetStep(s)))
  {
  }

  lemma RestSurvivesSet(s: Servo, mode: int, target: real)
    requires Rest(s)
    ensures Rest(SetMode(s, mode, s.last.mode)) && Rest(SetTarget(s, target, s.last.target))
  {
    hide WithinLimits, NeedsReference;
  }

  /** The update that enables a drive in PP mode with bit 4 low leaves it at rest
      where it was. */
  lemma EnablingHoldsPosition(s: Servo, dt: real)
    requires (dt > 0.0 || !UpdateTimed(s)) && Core(s) && !Enabled(s)
    requires s.od.rx.mode == 1 && !Bit(s.od.rx.controlword, 0x0010)
    ensures ModelUpdate(s, dt).axis.position == s.axis.position
    ensures Rest(ModelUpdate(s, dt))
  {
    hide ApplyCommands, ClockState, ProcessPp, ProcessCsp, StatuswordOf, ModelUpdate;
    UpdateShape(s, dt);
    RestSurvivesCommands(s);
    var t := Clocked(s);
    if t.last.mode == 1 {
      PpKeepsCore(t, dt);
    } else {
      ResetDisables(s, dt);
    }
  }

  /** An update that leaves the requested mode was a device reset and switches off. */
  lemma ResetDisables(s: Servo, dt: real)
    requires (dt > 0.0 || !UpdateTimed(s)) && Core(s) && Clocked(s).last.mode != s.od.rx.mode
    ensures Clocked(s).state == SwitchOnDisabled
    ensures ModelUpdate(s, dt).axis.position == s.axis.position && Rest(ModelUpdate(s, dt))
  {
    hide StatuswordOf, ProcessMode, ApplyCommands, ClockState, ModelUpdate;
    UpdateShape(s, dt);
    ModeFrame(Clocked(s), dt);
  }

  /** An unreferenced axis does not move under position commands. */
  lemma UnreferencedHoldsPosition(s: Servo, pdo: RxPdo, dt: real)
    requires dt > 0.0 && Inv(s) && !s.homing.referenced && Positioning(pdo.mode)
    ensures var t := ModelUpdate(WriteRx(s, pdo), dt);
            t.axis.position == s.axis.position && !t.homing.referenced
  {
    hide ApplyCommands, ClockState, ProcessPp, ProcessCsp, StatuswordOf, ModelUpdate;
    var s1 := WriteRx(s, pdo);
    UpdateShape(s1, dt);
    var t := Clocked(s1);
    if t.last.mode == 1 {
      PpKeepsCore(t, dt);
      PpKeepsReference(t, dt);
    } else {
      CspKeepsCore(t, dt);
      CspKeepsReference(t, dt);
    }
  }

  lemma PpKeepsReference(s: Servo, dt: real)
    requires dt > 0.0
    ensures ProcessPp(s, dt).homing == s.homing
  {
    hide VelocityDelta, VelocityRate, Integrate, PpMove, RequiredCount, InPosition;
  }

  lemma CspKeepsReference(s: Servo, dt: real)
    requires dt > 0.0
    ensures ProcessCsp(s, dt).homing == s.homing
  {
    hide VelocityDelta, VelocityRate, Integrate, CspMove, RequiredCount, InPosition;
  }

  predicate OnlyPositioning(events: seq<Event>) {
    forall i :: 0 <= i < |events| && events[i].Cycle? ==> Positioning(events[i].pdo.mode)
  }

  /** Until a homing run is commanded, no PP or CSP command, no SDO write and no device
      reset moves an unreferenced axis. */
  lemma {:induction false} UnreferencedAxisStaysPut(s: Servo, events: seq<Event>)
    requires AllValid(events) && Inv(s) && !s.homing.referenced && OnlyPositioning(events)
    ensures Run(s, events).axis.position == s.axis.position
    ensures !Run(s, events).homing.referenced
    decreases |events|
  {
    hide Inv, WriteSdo, ModelUpdate;
    if events != [] {
      var e := events[0];
      StepKeepsInv(s, e);
      if e.Cycle? {
        UnreferencedHoldsPosition(s, e.pdo, e.dt);
      } else {
        WriteKeepsInv(s, e.write);
      }
      UnreferencedAxisStaysPut(Step(s, e), events[1..]);
    }
  }
}
