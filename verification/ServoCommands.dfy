/** What the commands in the object dictionary achieve: a device reset, a refused target, a
    new mode, and the target-reached flag. */
module ServoCommands {
  import opened Words
  import opened StateMachine
  import opened ServoSpec
  import opened ServoInvariants
  import opened Motion

  // ---- Device reset and save ----

  /** A device reset command that was not there before. */
  predicate ResetEdge(s: Servo) {
    s.od.commands.reset == 1 && s.last.reset != 1
  }

  lemma ResetApplies(s: Servo)
    requires Core(s) && ResetEdge(s)
    ensures var t := ApplyCommands(s);
            && t.od.config == s.preset && t.od.rx == RxPdo(0, 8, s.axis.position, 0.0, 0.0)
            && t.last.mode == 8 && t.last.target == s.axis.position && t.last.reset == 1
            && t.axis == s.axis && t.state == s.state && t.pp == s.pp && t.homing == s.homing
  {
  }

  /** A new device reset command restores the preset configuration, switches the drive off
      and leaves the axis at rest where it was, referenced if it was; it acts once. */
  lemma ResetTakesEffect(s: Servo, dt: real)
    requires (dt > 0.0 || !UpdateTimed(s)) && Inv(s) && ResetEdge(s)
    ensures var t := ModelUpdate(s, dt);
            && t.od.config == s.preset && t.state == SwitchOnDisabled && t.od.tx.modeDisplay == 8
            && t.axis == Axis(s.axis.position, 0.0) && !t.pp.active && t.homing.referenced == s.homing.referenced
            && t.od.rx == RxPdo(0, 8, s.axis.position, 0.0, 0.0) && t.od.tx.position == s.axis.position
            && !ResetEdge(t)
  {
    hide StatuswordOf, ApplyCommands, ProcessMode, ModelUpdate, UpdateTimed;
    ResetApplies(s);
    UpdateShape(s, dt);
    UpdateKeepsInv(s, dt);
    ModeFrame(Clocked(s), dt);
    ZeroSwitchesOff(s.state);
    NotEnabledHoldsPosition(s, dt);
  }

  lemma ZeroSwitchesOff(state: State)
    ensures Next(state, 0) == SwitchOnDisabled
  {
  }

  /** A new save command reports success in the object of the command. */
  lemma SaveReports(s: Servo)
    requires s.od.commands.save == 1 && s.last.save != 1
    ensures var t := SaveStep(ResetStep(s));
            t.od.commands == s.od.commands.(saveStatus := 0, saveReturnCode := 0, saveReturnValue := 1) && t.last.save == 1
  {
  }

  // ---- Targets ----

  /** A positioning cycle that would continue but for its new target. */
  predicate BringsTarget(s: Servo, e: Event) {
    && e.Valid() && e.Cycle? && Next(OperationEnabled, e.pdo.controlword) == OperationEnabled
    && e.pdo.mode == s.last.mode && Positioning(s.last.mode) && e.pdo.target != s.last.target
  }

  /** The drive stands still at its present position, which is its target. */
  predicate Stopped(s: Servo, t: Servo) {
    && t.axis == Axis(s.axis.position, 0.0) && t.pp.active == false && t.homing == s.homing
    && t.od.rx.target == s.axis.position && t.last.target == s.axis.position
  }

  /** What a refusal leaves for the state machine. */
  predicate Refused(s: Servo, t: Servo) {
    && Stopped(s, t) && t.limits == Limits(true, true) && t.state == s.state && t.od.config == s.od.config
    && t.od.rx == s.od.rx.(target := s.axis.position) && t.gain == s.gain && t.last.mode == s.last.mode
    && t.previousControlword == s.previousControlword
  }

  lemma SetTargetRefuses(s: Servo, target: real, previous: real)
    requires !NeedsReference(s) && !WithinLimits(s.od.config, target)
    ensures Refused(s, SetTarget(s, target, previous))
  {
    hide WithinLimits, NeedsReference;
  }

  lemma RefusalApplies(s: Servo)
    requires s.od.commands.reset == s.last.reset && s.od.rx.mode == s.last.mode && s.homing.referenced
    requires s.od.rx.target != s.last.target && !WithinLimits(s.od.config, s.od.rx.target)
    ensures Refused(s, ApplyCommands(s))
  {
    hide WithinLimits, SetTarget, SetMode;
    var s1 := SaveStep(ResetStep(s));
    assert s1 == s.(od := s.od.(commands := s1.od.commands), last := s.last.(save := s1.last.save));
    SetTargetRefuses(s1, s1.od.rx.target, s1.last.target);
  }

  /** Positioning at rest with the target at the present position stays there. */
  lemma StandsOnTarget(s: Servo, dt: real)
    requires dt > 0.0 && Enabled(s) && s.axis.velocity == 0.0 && !s.pp.active && s.od.config.Valid()
    requires s.od.rx.target == s.axis.position && s.limits.rejected && s.gain > 0.0 && s.od.rx.profileVelocity >= 0.0
    ensures ProcessPp(s, dt).axis == s.axis && !ProcessPp(s, dt).pp.active && ProcessPp(s, dt).limits == s.limits
    ensures ProcessCsp(s, dt).axis == s.axis && !ProcessCsp(s, dt).pp.active && ProcessCsp(s, dt).limits == s.limits
  {
    hide VelocityDelta, Decelerate, CspMove, InPosition, RequiredCount, SideVelocity, CspDemand;
    DecelerateKeepsRest(s, dt);
    var off := s.(pp := s.pp.(active := false, ack := false));
    DecelerateKeepsRest(off, dt);
    DecelerateKeepsRest(off.(window := s.window.(reached := false)), dt);
    DecelerateKeepsRest(s.(window := s.window.(reached := false)), dt);
    DecelerateKeepsRest(s.(pp := s.pp.(ack := Bit(s.od.rx.controlword, 0x0010))), dt);
    RestingDemand(s, dt);
  }

  lemma RestingDemand(s: Servo, dt: real)
    requires dt > 0.0 && s.od.rx.target == s.axis.position && s.axis.velocity == 0.0
    requires s.od.config.Valid() && s.gain > 0.0 && s.od.rx.profileVelocity >= 0.0
    ensures CspMove(s.od.config, s.axis, CspDemand(s),
                    SideVelocity(s.od.config, s.od.rx.profileVelocity, s.od.rx.target, s.axis.position), dt) == s.axis
  {
    hide SideVelocity, LoopSpeed, Kv, VelocityRate;
    var c, a := s.od.config, s.axis;
    var top := SideVelocity(c, s.od.rx.profileVelocity, s.od.rx.target, a.position);
    SideIsBound(c, s.od.rx.profileVelocity, s.od.rx.target, a.position);
    DemandPoints(s, 0.0);
    LoopIsPositive(c, s.gain, 0.0);
    MovePursues(c, a, CspDemand(s), top, 0.0, dt);
    Trips(c, 0.0, dt);
    ReachIsDelta(c, 0.0, 0.0, dt);
  }

  /** A target outside the software limits is refused: the axis stops at once where it is,
      its target becomes its position, and the statusword shows the limit on both bits. */
  lemma TargetIsRefused(s: Servo, e: Event)
    requires Running(s) && BringsTarget(s, e) && s.homing.referenced && !WithinLimits(s.od.config, e.pdo.target)
    ensures var t := Step(s, e);
            && Stopped(s, t) && t.limits == Limits(true, true) && t.od.tx.position == s.axis.position
            && Bit(t.od.tx.statusword, 0x0080) && Bit(t.od.tx.statusword, 0x0800)
  {
    hide ModelUpdate, Core, Next, ProcessMode, ProcessPp, ProcessCsp, WithinLimits, ApplyCommands, Bit, StatuswordOf,
         StatusShown;
    var s1 := WriteRx(s, e.pdo);
    CoreIgnoresRx(s, e.pdo);
    UpdateShape(s1, e.dt);
    UpdateKeepsInv(s1, e.dt);
    CoreReports(Step(s, e));
    RefusalApplies(s1);
    var t := Clocked(s1);
    StandsOnTarget(t, e.dt);
    ModeFrame(t, e.dt);
    ModeIsPositioning(t, e.dt);
    StatusTells(ProcessMode(t, e.dt));
  }

  lemma CoreReports(s: Servo)
    requires Core(s)
    ensures s.od.tx.position == s.axis.position
  {
  }

  lemma PpKeepsRx(s: Servo, dt: real)
    requires dt > 0.0
    ensures ProcessPp(s, dt).od.rx == s.od.rx && ProcessPp(s, dt).homing == s.homing
  {
    hide Integrate, PpMove, RequiredCount, InPosition, SideVelocity;
  }

  lemma CspKeepsRx(s: Servo, dt: real)
    requires dt > 0.0
    ensures ProcessCsp(s, dt).od.rx == s.od.rx && ProcessCsp(s, dt).homing == s.homing
  {
    hide Integrate, CspMove, RequiredCount, InPosition, SideVelocity;
  }

  lemma ModeIsPositioning(s: Servo, dt: real)
    requires dt > 0.0 && Positioning(s.od.rx.mode)
    ensures ProcessMode(s, dt) == if s.od.rx.mode == 1 then ProcessPp(s, dt) else ProcessCsp(s, dt)
    ensures ProcessMode(s, dt).od.rx == s.od.rx && ProcessMode(s, dt).homing == s.homing
  {
    hide ProcessPp, ProcessCsp;
    PpKeepsRx(s, dt);
    CspKeepsRx(s, dt);
  }

  /** Without reference a new positioning target is taken back and the axis stays. */
  lemma TargetIsUndone(s: Servo, e: Event)
    requires Running(s) && BringsTarget(s, e) && !s.homing.referenced
    ensures var t := Step(s, e);
            t.od.rx.target == s.last.target && t.last.target == s.last.target && t.axis == s.axis
  {
    hide ModelUpdate, Core, Next, ProcessMode, ProcessPp, ProcessCsp, WithinLimits, ApplyCommands, Bit, StatuswordOf,
         StatusShown;
    var s1 := WriteRx(s, e.pdo);
    CoreIgnoresRx(s, e.pdo);
    UpdateShape(s1, e.dt);
    var t := Clocked(s1);
    UndoApplies(s1);
    UnreferencedRests(t);
    if t.last.mode == 1 {
      PpKeepsCore(t, e.dt);
    } else {
      CspKeepsCore(t, e.dt);
    }
    ModeFrame(t, e.dt);
    ModeIsPositioning(t, e.dt);
  }

  /** What is left of a target that is taken back. */
  predicate Undone(s: Servo, t: Servo, previous: real) {
    && t.od.rx == s.od.rx.(target := previous) && t.last.mode == s.last.mode && t.last.target == previous
    && t.axis == s.axis && t.pp == s.pp && t.homing == s.homing && t.state == s.state
  }

  lemma SetTargetUndoes(s: Servo, target: real, previous: real)
    requires NeedsReference(s)
    ensures Undone(s, SetTarget(s, target, previous), previous)
  {
    hide WithinLimits, NeedsReference, StopAtCurrentPosition;
  }

  lemma UndoApplies(s: Servo)
    requires s.od.commands.reset == s.last.reset && s.od.rx.mode == s.last.mode && Positioning(s.last.mode)
    requires s.od.rx.target != s.last.target && !s.homing.referenced
    ensures Undone(s, ApplyCommands(s), s.last.target)
  {
    hide SetTarget, SetMode;
    var s1 := SaveStep(ResetStep(s));
    assert s1 == s.(od := s.od.(commands := s1.od.commands), last := s.last.(save := s1.last.save));
    SetTargetUndoes(s1, s1.od.rx.target, s1.last.target);
  }

  lemma UnreferencedRests(s: Servo)
    requires Core(s) && Positioning(s.last.mode) && !s.homing.referenced
    ensures Rest(s)
  {
  }

  /** The set-point handshake: in profile position mode bit 12 of the statusword follows
      bit 4 of the controlword, unless the drive halts or refuses its target. */
  lemma SetPointIsAcknowledged(s: Servo, e: Event)
    requires Running(s) && Continues(s, e) && s.last.mode == 1 && s.homing.referenced && !s.limits.rejected
    ensures Bit(Step(s, e).od.tx.statusword, 0x1000) == (Bit(e.pdo.controlword, 0x0010) && !Halts(e))
  {
    hide ModelUpdate, Inv, Next, StatuswordOf, WithinLimits, Clocked, ProcessPp, Bit;
    CycleTakesOver(s, e);
    NoRefusal(s, e);
    var t := Clocked(WriteRx(s, e.pdo));
    ModeIsPositioning(t, e.dt);
    AckFollows(t, e.dt);
    StatusTells(ProcessMode(t, e.dt));
  }

  lemma AckFollows(s: Servo, dt: real)
    requires dt > 0.0 && Enabled(s) && s.homing.referenced && !s.limits.rejected
    ensures ProcessPp(s, dt).pp.ack == (Bit(s.od.rx.controlword, 0x0010) && !s.halt)
  {
    hide Integrate, PpMove, RequiredCount, InPosition, SideVelocity;
  }

  /** A cycle that continues is no refusal. */
  lemma NoRefusal(s: Servo, e: Event)
    requires Running(s) && Continues(s, e) && s.homing.referenced && !s.limits.rejected
    ensures !Clocked(WriteRx(s, e.pdo)).limits.rejected
  {
    hide ClockState, SetTarget, SetMode, WithinLimits, Inv;
    var s1 := WriteRx(s, e.pdo);
    var s2 := SaveStep(ResetStep(s1));
    assert s2 == s1.(od := s1.od.(commands := s2.od.commands), last := s1.last.(save := s2.last.save));
    if s2.od.rx.target != s2.last.target {
      AcceptsTarget(s2, s2.od.rx.target, s2.last.target);
    }
    ClockKeepsLimits(ApplyCommands(s1));
  }

  lemma AcceptsTarget(s: Servo, target: real, previous: real)
    requires s.homing.referenced && WithinLimits(s.od.config, target)
    ensures !SetTarget(s, target, previous).limits.rejected
  {
    hide WithinLimits;
  }

  lemma ClockKeepsLimits(s: Servo)
    ensures ClockState(s).limits == s.limits
  {
    hide Next;
  }

  // ---- Modes ----

  lemma StopShape(s: Servo)
    ensures var t := StopAtCurrentPosition(s);
            && t.axis == Axis(s.axis.position, 0.0) && !t.pp.active && t.homing == s.homing && t.state == s.state
  {
  }

  lemma SetModeStops(s: Servo, mode: int)
    requires mode != s.last.mode
    ensures var t := SetMode(s, mode, s.last.mode);
            && t.axis == Axis(s.axis.position, 0.0) && !t.pp.active && t.od.rx.mode == mode
            && (mode != 6 ==> !t.homing.active) && t.state == s.state
  {
    hide StopAtCurrentPosition;
    StopShape(s);
  }

  lemma SetTargetLeavesRest(s: Servo, target: real, previous: real)
    requires s.axis.velocity == 0.0 && !s.pp.active
    ensures var t := SetTarget(s, target, previous);
            t.axis == s.axis && !t.pp.active && t.homing == s.homing && t.state == s.state && t.od.rx.mode == s.od.rx.mode
  {
    hide WithinLimits, NeedsReference;
  }

  lemma ModeChangeApplies(s: Servo)
    requires s.od.commands.reset == s.last.reset && s.od.rx.mode != s.last.mode
    ensures var t := ApplyCommands(s);
            && t.axis == Axis(s.axis.position, 0.0) && !t.pp.active && t.od.rx.mode == s.od.rx.mode
            && (s.od.rx.mode != 6 ==> !t.homing.active)
  {
    hide SetMode, SetTarget;
    var s1 := SaveStep(ResetStep(s));
    assert s1 == s.(od := s.od.(commands := s1.od.commands), last := s.last.(save := s1.last.save));
    SetModeStops(s1, s1.od.rx.mode);
    var s2 := SetMode(s1, s1.od.rx.mode, s1.last.mode);
    SetTargetLeavesRest(s2, s1.od.rx.target, s2.last.target);
  }

  lemma ClockLeavesRest(s: Servo)
    requires s.axis.velocity == 0.0 && !s.pp.active
    ensures ClockState(s).axis == s.axis && !ClockState(s).pp.active && ClockState(s).homing == s.homing
    ensures ClockState(s).od.rx.mode == s.od.rx.mode
  {
    hide Next;
  }

  /** A new mode is shown, and begins with the axis at rest and no move or homing run left
      over from the previous one. */
  lemma ModeChangeStops(s: Servo, e: Event)
    requires Inv(s) && s.od.commands.reset == s.last.reset && e.Valid() && e.Cycle? && e.pdo.mode != s.last.mode
    ensures Step(s, e).od.tx.modeDisplay == e.pdo.mode
    ensures var t := Clocked(WriteRx(s, e.pdo));
            && t.axis == Axis(s.axis.position, 0.0) && !t.pp.active && t.od.rx.mode == e.pdo.mode
            && (e.pdo.mode != 6 ==> !t.homing.active)
  {
    hide ModelUpdate, Core, ApplyCommands, ClockState, ProcessMode, StatuswordOf, StatusShown;
    var s1 := WriteRx(s, e.pdo);
    CoreIgnoresRx(s, e.pdo);
    ModeChangeApplies(s1);
    ClockLeavesRest(ApplyCommands(s1));
    UpdateShape(s1, e.dt);
    UpdateKeepsInv(s1, e.dt);
    ModeFrame(Clocked(s1), e.dt);
    CoreShowsMode(Step(s, e));
  }

  lemma CoreShowsMode(s: Servo)
    requires Core(s)
    ensures s.od.tx.modeDisplay == s.last.mode
  {
  }

  // ---- Controlwords ----

  /** Nothing in the run asks for a device reset. */
  predicate WithoutReset(events: seq<Event>) {
    forall i :: 0 <= i < |events| ==> !(events[i].Sdo? && events[i].write.ResetCommand?)
  }

  /** The controlwords of the cycles of a run. */
  function WordsOf(events: seq<Event>): seq<bv16> {
    if events == [] then []
    else (if events[0].Cycle? then [events[0].pdo.controlword] else []) + WordsOf(events[1..])
  }

  lemma {:induction false} AfterFirst(state: State, word: bv16, words: seq<bv16>)
    ensures After(state, [word] + words) == After(Next(state, word), words)
    decreases |words|
  {
    hide Next;
    var all := [word] + words;
    if words == [] {
      assert all == [word] && [word][..0] == [];
      assert After(state, [word]) == Next(After(state, []), word);
    } else {
      var n := |words| - 1;
      assert all[..|all| - 1] == [word] + words[..n] && all[|all| - 1] == words[n];
      AfterFirst(state, word, words[..n]);
    }
  }

  /** Without a reset command every cycle clocks the state machine with its own word. */
  lemma StepFollowsWord(s: Servo, e: Event)
    requires Inv(s) && s.od.commands.reset == s.last.reset && e.Valid() && WithoutReset([e])
    ensures var t := Step(s, e);
            && t.state == (if e.Cycle? then Next(s.state, e.pdo.controlword) else s.state)
            && t.od.commands.reset == t.last.reset && Inv(t)
  {
    hide ModelUpdate, Core, Clocked, ProcessMode, StatuswordOf, StatusShown, Next;
    StepKeepsInv(s, e);
    if e.Cycle? {
      var s1 := WriteRx(s, e.pdo);
      CoreIgnoresRx(s, e.pdo);
      UpdateShape(s1, e.dt);
      NoResetShape(s1);
      ModeFrame(Clocked(s1), e.dt);
    } else {
      assert [e][0] == e;
    }
  }

  /** Over any run without a reset command the servo stands where the controlwords of its
      cycles, one after another, put the state machine; nothing else moves it. */
  lemma {:induction false} StateFollowsWords(s: Servo, events: seq<Event>)
    requires Inv(s) && s.od.commands.reset == s.last.reset && AllValid(events) && WithoutReset(events)
    ensures Run(s, events).state == After(s.state, WordsOf(events))
    ensures Inv(Run(s, events)) && Run(s, events).od.commands.reset == Run(s, events).last.reset
    decreases |events|
  {
    hide Step, Inv, After, Next;
    if events == [] {
      NoWords(s.state);
    } else {
      var t := Step(s, events[0]);
      StepFollowsWord(s, events[0]);
      StateFollowsWords(t, events[1..]);
      if events[0].Cycle? {
        AfterFirst(s.state, events[0].pdo.controlword, WordsOf(events[1..]));
      } else {
        assert [] + WordsOf(events[1..]) == WordsOf(events[1..]);
      }
    }
  }

  lemma NoWords(state: State)
    ensures After(state, []) == state
  {
  }

  /** Shutdown, Switch On and Enable Operation enable a drive that is switched off, from
      whatever it did before. */
  lemma LadderEnables(words: seq<bv16>)
    requires |words| == 3 && words[0] & 0x87 == 0x06 && words[1] & 0x8f == 0x07 && words[2] & 0x8f == 0x0f
    ensures After(SwitchOnDisabled, words) == OperationEnabled
  {
    hide Next;
    var a, b, c := words[0], words[1], words[2];
    assert words[..2] == [a, b] && [a, b][..1] == [a] && [a][..0] == [];
    assert After(SwitchOnDisabled, [a]) == Next(SwitchOnDisabled, a);
    assert After(SwitchOnDisabled, [a, b]) == Next(After(SwitchOnDisabled, [a]), b);
    LadderWords(a, b, c);
  }

  lemma LadderWords(a: bv16, b: bv16, c: bv16)
    requires a & 0x87 == 0x06 && b & 0x8f == 0x07 && c & 0x8f == 0x0f
    ensures Next(SwitchOnDisabled, a) == ReadyToSwitchOn && Next(ReadyToSwitchOn, b) == SwitchedOn
    ensures Next(SwitchedOn, c) == OperationEnabled
  {
    assert a & 0x80 == 0 && b & 0x80 == 0 && c & 0x80 == 0;
    assert b & 0x87 == 0x07 && c & 0x87 == 0x07;
  }
}
