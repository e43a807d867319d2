/** The target-reached flag of the positioning modes: it is set exactly when the axis has
    been inside the window for as many cycles in a row as the window time asks for. */
module TargetWindow {
  import opened Reals
  import opened Words
  import opened StateMachine
  import opened ServoSpec
  import opened ServoInvariants
  import opened Motion
  import opened ServoCommands

  /** As many cycles as fit into a time, and at least one. */
  predicate FitsInto(n: int, dt: real, time: real) {
    n >= 1 && (n == 1 || n as real * dt <= time) && time < (n + 1) as real * dt
  }

  lemma QuotientFits(time: real, dt: real)
    requires dt > 0.0 && time >= 0.0
    ensures var n := Trunc(time / dt); FitsInto(if n < 1 then 1 else n, dt, time)
  {
    var q := time / dt;
    DivNonNeg(time, dt);
    assert q * dt == time;
    var n := Trunc(q);
    MulMono(n as real, q, dt);
    FloorAbove(q, n, dt);
  }

  lemma FloorAbove(q: real, n: int, dt: real)
    requires dt > 0.0 && q >= 0.0 && n == q.Floor
    ensures q * dt < (n + 1) as real * dt && q * dt < ((if n < 1 then 1 else n) + 1) as real * dt
  {
    MulPos((n + 1) as real - q, dt);
    MulMono((n + 1) as real, ((if n < 1 then 1 else n) + 1) as real, dt);
  }

  /** The window time in milliseconds, counted in cycles; homing lasts a tenth of a second. */
  lemma CountsFit(windowTime: real, dt: real)
    requires dt > 0.0 && windowTime >= 0.0
    ensures FitsInto(RequiredCount(windowTime, dt), dt * 1000.0, windowTime)
    ensures FitsInto(HomingCycles(dt), dt, 0.1)
  {
    hide FitsInto;
    QuotientFits(windowTime, dt * 1000.0);
    QuotientFits(0.1, dt);
  }

  predicate Inside(s: Servo, target: real) {
    Abs(target - s.axis.position) <= s.od.config.window
  }

  /** A positioning cycle towards this target, of fixed length, without halt and without a
      new set-point edge. */
  predicate Approaches(s: Servo, e: Event, target: real, dt: real) {
    && Continues(s, e) && !Halts(e) && e.dt == dt && e.pdo.target == target
    && Positioning(s.last.mode) && s.homing.referenced
    && (s.last.mode == 1 ==> !Bit(e.pdo.controlword, 0x0010) || Bit(s.previousControlword, 0x0010))
  }

  /** Such a cycle counts, or starts again. */
  lemma CycleCounts(s: Servo, e: Event, target: real, dt: real)
    requires Running(s) && Approaches(s, e, target, dt)
    ensures var t, before := Step(s, e), if target == s.last.target then s.window else Window(false, 0);
            var counter := if Inside(t, target) then before.counter + 1 else 0;
            && t.window.counter == counter
            && t.window.reached == ((Inside(t, target) && before.reached)
                                    || counter >= RequiredCount(s.od.config.windowTime, dt))
  {
    hide ModelUpdate, Inv, Next, StatuswordOf, WithinLimits, Clocked, RequiredCount, Bit, ProcessPp, ProcessCsp;
    CycleTakesOver(s, e);
    CycleKeepsRunning(s, e);
    var t := Clocked(WriteRx(s, e.pdo));
    ModeIsPositioning(t, dt);
    if s.last.mode == 1 {
      PpCounts(t, dt);
    } else {
      CspCounts(t, dt);
    }
    RunningReports(Step(s, e));
  }

  lemma RunningReports(s: Servo)
    requires Running(s)
    ensures s.od.tx.position == s.axis.position
  {
  }

  /** The flag as the active mode leaves it. */
  predicate Counted(s: Servo, u: Servo, dt: real)
    requires dt > 0.0
  {
    var inside := Abs(s.od.rx.target - u.od.tx.position) <= s.od.config.window;
    var counter := if inside then s.window.counter + 1 else 0;
    && u.window.counter == counter
    && u.window.reached == ((inside && s.window.reached) || counter >= RequiredCount(s.od.config.windowTime, dt))
  }

  lemma PpCounts(s: Servo, dt: real)
    requires dt > 0.0 && Enabled(s) && !s.halt && s.homing.referenced && !RisingBit4(s)
    ensures Counted(s, ProcessPp(s, dt), dt)
  {
    hide PpMove, Integrate, RequiredCount, SideVelocity;
  }

  lemma CspCounts(s: Servo, dt: real)
    requires dt > 0.0 && Enabled(s) && !s.halt && s.homing.referenced
    ensures Counted(s, ProcessCsp(s, dt), dt)
  {
    hide CspMove, RequiredCount, SideVelocity, CspDemand;
  }

  // ---- Runs ----

  predicate ApproachesAlong(s: Servo, events: seq<Event>, target: real, dt: real)
    requires AllValid(events)
    decreases |events|
  {
    events == []
    || (Approaches(s, events[0], target, dt) && ApproachesAlong(Step(s, events[0]), events[1..], target, dt))
  }

  /** Every state that fewer than so many cycles follow is inside the window. */
  predicate InsideAtEnd(s: Servo, events: seq<Event>, target: real, need: int)
    requires AllValid(events)
    decreases |events|
  {
    events == []
    || (&& (|events| <= need ==> Inside(Step(s, events[0]), target))
        && InsideAtEnd(Step(s, events[0]), events[1..], target, need))
  }

  /** The window count is consistent with the flag. */
  predicate Consistent(w: Window, need: int) {
    w.counter >= 0 && (w.reached <==> w.counter >= need)
  }

  /** The window as a cycle towards this target finds it. */
  function Found(s: Servo, target: real): Window {
    if target == s.last.target then s.window else Window(false, 0)
  }

  lemma {:induction false} CountIsStreak(s: Servo, events: seq<Event>, target: real, dt: real, need: int)
    requires AllValid(events) && events != [] && Running(s) && ApproachesAlong(s, events, target, dt)
    requires FitsInto(need, dt * 1000.0, s.od.config.windowTime) && Consistent(Found(s, target), need)
    ensures var t := Run(s, events);
            t.window.reached <==>
              InsideAtEnd(s, events, target, need)
              && (|events| >= need || Found(s, target).counter + |events| >= need)
    decreases |events|
  {
    hide Step, Approaches, Inside, FitsInto, Running, Inv;
    var t := Step(s, events[0]);
    NeedIsCount(s, dt, need, events[0], target);
    CycleCounts(s, events[0], target, dt);
    ApproachKeeps(s, events[0], target, dt);
    if |events| > 1 {
      CountIsStreak(t, events[1..], target, dt, need);
    } else {
      assert events[1..] == [];
    }
  }

  lemma ApproachKeeps(s: Servo, e: Event, target: real, dt: real)
    requires Running(s) && Approaches(s, e, target, dt)
    ensures var t := Step(s, e); Running(t) && t.od.config == s.od.config && t.last.target == target && dt > 0.0
  {
    hide Step, Inv;
    CycleKeepsRunning(s, e);
  }

  lemma NeedIsCount(s: Servo, dt: real, need: int, e: Event, target: real)
    requires Running(s) && Approaches(s, e, target, dt)
    requires FitsInto(need, dt * 1000.0, s.od.config.windowTime)
    ensures dt > 0.0 && need == RequiredCount(s.od.config.windowTime, dt)
  {
    hide RequiredCount, Inv;
    CountsFit(s.od.config.windowTime, dt);
    CountIsUnique(need, RequiredCount(s.od.config.windowTime, dt), dt * 1000.0, s.od.config.windowTime);
  }

  lemma CountIsUnique(n: int, m: int, dt: real, time: real)
    requires FitsInto(n, dt, time) && FitsInto(m, dt, time) && dt > 0.0
    ensures n == m
  {
    if n < m {
      MulMono((n + 1) as real, m as real, dt);
    } else if m < n {
      MulMono((m + 1) as real, n as real, dt);
    }
  }

  /** From the cycle that brings a new target on, the flag is set exactly when the last
      cycles, as many as the window time asks for, all ended inside the window. */
  lemma ReachedExactlyAfterStreak(s: Servo, events: seq<Event>, target: real, dt: real, need: int)
    requires AllValid(events) && events != [] && Running(s) && ApproachesAlong(s, events, target, dt)
    requires s.last.target != target && FitsInto(need, dt * 1000.0, s.od.config.windowTime)
    ensures Run(s, events).window.reached <==> |events| >= need && InsideAtEnd(s, events, target, need)
  {
    hide Step, InsideAtEnd, ApproachesAlong, Running;
    CountIsStreak(s, events, target, dt, need);
  }
}
