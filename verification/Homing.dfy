/** A homing run takes a known number of enabled cycles and only its end makes the
    axis referenced. */
module HomingRun {
  import opened Words
  import opened StateMachine
  import opened ServoSpec
  import opened ServoInvariants

  /** A cycle in homing mode. */
  predicate HomingCycle(e: Event) {
    e.Valid() && e.Cycle? && e.pdo.mode == 6
  }

  /** The cycle leaves the drive enabled. */
  predicate EnabledCycle(s: Servo, e: Event) {
    e.Cycle? && Next(s.state, e.pdo.controlword) == OperationEnabled
  }

  /** The cycle starts a homing run. */
  predicate StartEdge(s: Servo, e: Event) {
    EnabledCycle(s, e) && Bit(e.pdo.controlword, 0x0010) && !Bit(s.previousControlword, 0x0010)
  }

  predicate Ready(s: Servo) {
    Inv(s) && s.od.commands.reset == s.last.reset
  }

  /** A homing run with the given number of cycles to go, at a position. */
  predicate Running(s: Servo, left: int, position: real) {
    && Ready(s) && s.homing.active && s.homing.counter == left >= 1
    && !s.homing.referenced && s.axis.position == position
  }

  predicate Referenced(s: Servo) {
    Ready(s) && !s.homing.active && s.homing.referenced && s.axis.position == 0.0 && s.axis.velocity == 0.0
  }

  /** What the commands and the state machine leave of a homing cycle. */
  lemma HomingClocked(s: Servo, e: Event)
    requires Ready(s) && HomingCycle(e)
    ensures var t := Clocked(WriteRx(s, e.pdo));
            && Core(t) && t.od.rx.mode == t.last.mode == 6 && t.homing == s.homing
            && t.axis.position == s.axis.position
            && Enabled(t) == EnabledCycle(s, e) && (Enabled(t) && RisingBit4(t)) == StartEdge(s, e)
            && t.state == Next(s.state, e.pdo.controlword)
            && ModelUpdate(WriteRx(s, e.pdo), e.dt)
               == Report(ProcessHoming(t, e.dt), e.pdo.controlword)
            && t.od.commands.reset == t.last.reset
  {
    hide ModelUpdate, Clocked, Report, Core, Next, ProcessHoming;
    CoreIgnoresRx(s, e.pdo);
    UpdateShape(WriteRx(s, e.pdo), e.dt);
    NoResetShape(WriteRx(s, e.pdo));
  }

  lemma HomingKeepsReady(s: Servo, e: Event)
    requires Ready(s) && HomingCycle(e)
    ensures Ready(Step(s, e)) && Step(s, e).axis.velocity == 0.0
    ensures Step(s, e).previousControlword == e.pdo.controlword
    ensures Step(s, e).state == Next(s.state, e.pdo.controlword)
  {
    hide ModelUpdate, Clocked, Core, Next, ProcessMode, StatuswordOf;
    CoreIgnoresRx(s, e.pdo);
    HomingClocked(s, e);
    var s1 := WriteRx(s, e.pdo);
    UpdateKeepsInv(s1, e.dt);
    ModeFrame(Clocked(s1), e.dt);
    HomingIsAtRest(ModelUpdate(s1, e.dt));
  }

  lemma HomingIsAtRest(s: Servo)
    requires Core(s) && s.last.mode == 6
    ensures s.axis.velocity == 0.0
  {
  }

  /** One homing cycle in terms of what the state machine and the mode see. */
  lemma HomingStep(s: Servo, e: Event)
    requires Ready(s) && HomingCycle(e)
    ensures Ready(Step(s, e))
    ensures StartEdge(s, e) ==>
              var left := HomingCycles(e.dt) - 1;
              if left > 0 then Running(Step(s, e), left, s.axis.position) else Referenced(Step(s, e))
    ensures !StartEdge(s, e) && EnabledCycle(s, e) && s.homing.active ==>
              if s.homing.counter > 1
              then Step(s, e).homing == s.homing.(counter := s.homing.counter - 1)
                   && Step(s, e).axis.position == s.axis.position
              else Referenced(Step(s, e))
    ensures !EnabledCycle(s, e) || (!StartEdge(s, e) && !s.homing.active) ==>
              Step(s, e).homing == s.homing && Step(s, e).axis.position == s.axis.position
  {
    hide ModelUpdate, Clocked, StatuswordOf, Inv, Core, Next, HomingCycles, ProcessHoming, StartEdge, EnabledCycle,
         RisingBit4;
    HomingClocked(s, e);
    HomingKeepsReady(s, e);
    HomingOnly(Clocked(WriteRx(s, e.pdo)), e.dt);
  }

  lemma HomingOnly(t: Servo, dt: real)
    requires dt > 0.0 && Core(t) && t.od.rx.mode == t.last.mode == 6
    ensures var u := ProcessHoming(t, dt);
            && (!Enabled(t) || (!RisingBit4(t) && !t.homing.active) ==> u == t)
            && (Enabled(t) && RisingBit4(t) ==>
                  if HomingCycles(dt) > 1
                  then u.homing == Homing(true, HomingCycles(dt) - 1, false, false)
                       && u.axis.position == t.axis.position
                  else !u.homing.active && u.homing.referenced && u.axis == Axis(0.0, 0.0))
            && (Enabled(t) && !RisingBit4(t) && t.homing.active ==>
                  if t.homing.counter > 1
                  then u.homing == t.homing.(counter := t.homing.counter - 1)
                       && u.axis.position == t.axis.position
                  else !u.homing.active && u.homing.referenced && u.axis == Axis(0.0, 0.0))
  {
    hide HomingCycles;
  }

  /** Only homing cycles without another start edge. */
  predicate Undisturbed(s: Servo, events: seq<Event>)
    requires AllValid(events)
    decreases |events|
  {
    events == []
    || (HomingCycle(events[0]) && !StartEdge(s, events[0])
        && Undisturbed(Step(s, events[0]), events[1..]))
  }

  /** How many of the cycles leave the drive enabled. */
  function EnabledCycles(s: Servo, events: seq<Event>): nat
    requires AllValid(events)
    decreases |events|
  {
    if events == [] then 0
    else (if EnabledCycle(s, events[0]) then 1 else 0) + EnabledCycles(Step(s, events[0]), events[1..])
  }

  lemma {:induction false} RunningCountsDown(s: Servo, events: seq<Event>, left: int, position: real)
    requires AllValid(events) && Running(s, left, position) && Undisturbed(s, events)
    ensures if EnabledCycles(s, events) < left
            then Running(Run(s, events), left - EnabledCycles(s, events), position)
            else Referenced(Run(s, events))
    decreases |events|
  {
    hide Step, Inv, HomingCycle;
    if events != [] {
      HomingStep(s, events[0]);
      var t := Step(s, events[0]);
      if !EnabledCycle(s, events[0]) {
        RunningCountsDown(t, events[1..], left, position);
      } else if left > 1 {
        RunningCountsDown(t, events[1..], left - 1, position);
      } else {
        ReferencedStays(t, events[1..]);
      }
    }
  }

  lemma {:induction false} ReferencedStays(s: Servo, events: seq<Event>)
    requires AllValid(events) && Referenced(s) && Undisturbed(s, events)
    ensures Referenced(Run(s, events))
    decreases |events|
  {
    hide Step, HomingCycle;
    if events != [] {
      HomingStep(s, events[0]);
      HomingKeepsReady(s, events[0]);
      ReferencedStays(Step(s, events[0]), events[1..]);
    }
  }

  /** From its start edge, counting that cycle, a homing run takes exactly
      max(1, floor(0.1 / dt)) enabled cycles: before that the axis is unreferenced at its old
      position, from then on it is referenced at zero. */
  lemma HomingTakesExactly(s: Servo, start: Event, events: seq<Event>)
    requires Ready(s) && HomingCycle(start) && StartEdge(s, start)
    requires AllValid(events) && Undisturbed(Step(s, start), events)
    ensures var t := Run(Step(s, start), events);
            var spent := 1 + EnabledCycles(Step(s, start), events);
            if spent < HomingCycles(start.dt)
            then t.homing.active && !t.homing.referenced && t.axis.position == s.axis.position
            else Referenced(t)
  {
    hide Step, Inv, HomingCycles, StartEdge;
    HomingStep(s, start);
    if HomingCycles(start.dt) > 1 {
      RunningCountsDown(Step(s, start), events, HomingCycles(start.dt) - 1, s.axis.position);
    } else {
      ReferencedStays(Step(s, start), events);
    }
  }
}
