/** The fixed-step clock of an FMU-backed axis: host time is cut into sub-steps of two
    milliseconds, the rest is carried over, and a failed native call latches. The native
    calls are an arbitrary oracle. */
module FmuTime {
  import opened Reals

  const STEP_SECONDS: real := 0.002
  const DUST: real := 0.000000000001
  const MAX_DT: real := 0.1
  const SETS: nat := 8
  const GETS: nat := 5

  /** Whether the n-th native call succeeds. */
  type Native = nat -> bool

  datatype Runner = Runner(time: real, failed: bool, initialized: bool, calls: nat)

  /** The object dictionary values a step reads. */
  datatype Inputs = Inputs(
    controlword: int,                  // 0x6040
    mode: int,                         // 0x6060
    target: int,                       // 0x607A
    velocity: int,                     // 0x6081
    acceleration: int,                 // 0x6083
    deceleration: int,                 // 0x6084
    faultInjected: bool)

  datatype Copley = Copley(
    runner: Runner,
    remainder: real,
    steps: nat,                        // history: completed sub-steps
    accepted: nat,                     // history: successful steps
    elapsed: real)                     // history: host time of the successful steps

  /** A step is done, refuses a value, is rejected by the device, or fails in the runner. */
  datatype Verdict = Done | BadValue | DeviceRejected | Failed

  // ---- The runner ----

  predicate Usable(r: Runner) {
    r.initialized && !r.failed
  }

  /** A native call on a usable runner; an exception latches. */
  function Call(native: Native, r: Runner): (r1: Runner)
    ensures r1.time == r.time && r1.initialized == r.initialized
  {
    if Usable(r) then r.(calls := r.calls + 1, failed := !native(r.calls)) else r
  }

  function Calls(native: Native, r: Runner, n: nat): (r1: Runner)
    ensures r1.time == r.time && r1.initialized == r.initialized && (!Usable(r) ==> r1 == r)
  {
    if n == 0 then r else Call(native, Calls(native, r, n - 1))
  }

  function DoStep(native: Native, r: Runner, dt: real): Runner {
    if dt <= 0.0 then r
    else
      var r1 := Call(native, r);
      if Usable(r1) then r1.(time := r.time + dt) else r1
  }

  lemma CallsNone(native: Native, r: Runner)
    ensures Calls(native, r, 0) == r
  {
  }

  lemma CallsStep(native: Native, r: Runner, n: nat)
    ensures Calls(native, r, n + 1) == Call(native, Calls(native, r, n))
  {
  }

  /** Once unusable, further calls change nothing. */
  lemma {:induction false} CallsStop(native: Native, r: Runner, n: nat, m: nat)
    requires n <= m && !Usable(Calls(native, r, n))
    ensures Calls(native, r, m) == Calls(native, r, n)
  {
    if n < m {
      CallsStop(native, r, n, m - 1);
    }
  }

  // ---- Slicing ----

  /** The remainder after one sub-step. */
  function Cut(remainder: real): real {
    Max(0.0, remainder - STEP_SECONDS)
  }

  predicate Due(remainder: real) {
    remainder + DUST >= STEP_SECONDS
  }

  function Rank(remainder: real): int {
    ((remainder + DUST) * 500.0).Floor
  }

  lemma RankDrops(remainder: real)
    requires Due(remainder)
    ensures 0 <= Rank(Cut(remainder)) < Rank(remainder)
    ensures Rank(Cut(remainder)) == Rank(remainder) - 1
  {
    if remainder >= STEP_SECONDS {
      assert (Cut(remainder) + DUST) * 500.0 == (remainder + DUST) * 500.0 - 1.0;
    } else {
      assert 1.0 <= (remainder + DUST) * 500.0 < 2.0;
      assert 0.0 <= DUST * 500.0 < 1.0;
    }
  }

  /** The loop: run sub-steps while one is due and the runner is usable. */
  function SubSteps(native: Native, c: Copley): (d: Copley)
    ensures d.accepted == c.accepted && d.elapsed == c.elapsed
    decreases if Due(c.remainder) then Rank(c.remainder) else 0
  {
    if !Due(c.remainder) then c
    else
      RankDrops(c.remainder);
      var r := DoStep(native, c.runner, STEP_SECONDS);
      if !Usable(r) then c.(runner := r)
      else SubSteps(native, c.(runner := r, remainder := Cut(c.remainder), steps := c.steps + 1))
  }

  // ---- One step of the adapter ----

  predicate Timely(dt: real) {
    0.0 < dt <= MAX_DT
  }

  predicate Resets(controlword: int) {
    controlword / 0x80 % 2 == 1
  }

  predicate Acceptable(inputs: Inputs) {
    && !(inputs.faultInjected && Resets(inputs.controlword))
    && inputs.acceleration == inputs.deceleration
    && inputs.mode in {0, 1} && inputs.velocity > 0 && inputs.acceleration > 0 && inputs.deceleration > 0
  }

  /** The controlword without halt, as it goes to the FMU. */
  function WithoutHalt(controlword: int): int {
    if controlword / 0x100 % 2 == 1 then controlword - 0x100 else controlword
  }

  /** Whether the i-th value fits its FMU variable: a 16-bit controlword, an 8-bit mode, a
      32-bit target; the others are constants or finite floats. */
  predicate Fits(inputs: Inputs, i: nat) {
    match i
    case 0 => 0 <= WithoutHalt(inputs.controlword) < 0x1_0000
    case 1 => -0x80 <= inputs.mode < 0x80
    case 2 => -0x8000_0000 <= inputs.target < 0x8000_0000
    case _ => true
  }

  /** The number of values that are set before the first that does not fit. */
  function Fitting(inputs: Inputs, n: nat): (k: nat)
    ensures k <= n && (forall i :: 0 <= i < k ==> Fits(inputs, i)) && (k < n ==> !Fits(inputs, k))
  {
    if n == 0 then 0
    else
      var k := Fitting(inputs, n - 1);
      if k < n - 1 || !Fits(inputs, n - 1) then k else n
  }

  /** Inputs are set, time is sliced, outputs are read; the first refused value or native
      failure ends it. */
  function Step(native: Native, c: Copley, dt: real, inputs: Inputs): (Copley, Verdict) {
    if !Timely(dt) then (c, BadValue)
    else if !Acceptable(inputs) then (c, DeviceRejected)
    else
      var r := Calls(native, c.runner, Fitting(inputs, SETS));
      if !Usable(r) then (c.(runner := r), Failed)
      else if Fitting(inputs, SETS) < SETS then (c.(runner := r), BadValue)
      else
        var d := SubSteps(native, c.(runner := r, remainder := c.remainder + dt));
        var e := d.(runner := Calls(native, d.runner, GETS));
        if Usable(d.runner) && Usable(e.runner)
        then (e.(accepted := e.accepted + 1, elapsed := e.elapsed + dt), Done)
        else (e, Failed)
  }

  /** Values of the types the object dictionary gives these objects. */
  predicate Typed(inputs: Inputs) {
    0 <= inputs.controlword < 0x1_0000 && -0x8000_0000 <= inputs.target < 0x8000_0000
  }

  /** Typed values always fit: only the elapsed time can then be a bad value. */
  lemma TypedValuesFit(native: Native, c: Copley, dt: real, inputs: Inputs)
    requires Typed(inputs)
    ensures Acceptable(inputs) ==> Fitting(inputs, SETS) == SETS
    ensures Step(native, c, dt, inputs).1 == BadValue <==> !Timely(dt)
  {
    hide Calls, SubSteps;
    if Acceptable(inputs) {
      assert forall i: nat :: Fits(inputs, i);
    }
  }

  function Opened(): Copley {
    Copley(Runner(0.0, false, true, 0), 0.0, 0, 0, 0.0)
  }

  function Run(native: Native, c: Copley, inputs: seq<(real, Inputs)>): Copley
    decreases |inputs|
  {
    if inputs == [] then c
    else
      var n := |inputs| - 1;
      Step(native, Run(native, c, inputs[..n]), inputs[n].0, inputs[n].1).0
  }

  // ---- Slicing is exact up to the dust ----

  function Grid(k: int): real {
    k as real * STEP_SECONDS
  }

  lemma GridAdds(a: int, b: int)
    ensures Grid(a) + Grid(b) == Grid(a + b) && Grid(a) - Grid(b) == Grid(a - b) && Grid(1) == STEP_SECONDS
  {
  }

  /** The invariant of the clock. */
  predicate OnGrid(c: Copley) {
    c.runner.time == Grid(c.steps)
  }

  predicate ShortRest(remainder: real) {
    0.0 <= remainder < STEP_SECONDS - DUST
  }

  /** How far sub-stepped time and rest are ahead of host time. */
  function Drift(c: Copley): real {
    Grid(c.steps) + c.remainder - c.elapsed
  }

  /** As long as no native call fails, the loop runs exactly as many sub-steps as fit, and
      rounds up by at most the dust, whatever the number of sub-steps. */
  lemma {:induction false} SlicesConserve(native: Native, c: Copley)
    requires c.remainder >= 0.0 && OnGrid(c)
    ensures var d := SubSteps(native, c);
            && OnGrid(d) && c.steps <= d.steps
            && (Usable(c.runner) && Usable(d.runner) ==>
                  && ShortRest(d.remainder)
                  && d.steps == c.steps + Rank(c.remainder)
                  && Drift(c) <= Drift(d) <= Drift(c) + DUST
                  && (c.remainder == 0.0 ==> d == c))
    decreases if Due(c.remainder) then Rank(c.remainder) else 0
  {
    hide Grid;
    if !Due(c.remainder) {
      NotDueRank(c.remainder);
    } else {
      RankDrops(c.remainder);
      GridAdds(c.steps, 1);
      var r := DoStep(native, c.runner, STEP_SECONDS);
      if Usable(r) {
        SlicesConserve(native, c.(runner := r, remainder := Cut(c.remainder), steps := c.steps + 1));
      }
    }
  }

  lemma NotDueRank(remainder: real)
    requires remainder >= 0.0 && !Due(remainder)
    ensures Rank(remainder) == 0
  {
    assert 0.0 <= (remainder + DUST) * 500.0 < 1.0;
  }

  lemma RankBound(remainder: real)
    requires 0.0 <= remainder < STEP_SECONDS - DUST + MAX_DT
    ensures 0 <= Rank(remainder) <= 50
  {
    assert 0.0 <= (remainder + DUST) * 500.0 < 51.0;
  }

  /** The clock is consistent: the runner stands on the grid, and unless it failed, the rest
      is short and the drift is at most one dust for each successful step. */
  predicate ClockInv(c: Copley) {
    && OnGrid(c)
    && (Usable(c.runner) ==> ShortRest(c.remainder) && 0.0 <= Drift(c) <= c.accepted as real * DUST)
  }

  /** One step: refused or rejected, it consumes no time; failed, the failure is latched;
      done, the runner advanced by whole sub-steps, at most fifty of them. */
  lemma StepKeepsClock(native: Native, c: Copley, dt: real, inputs: Inputs)
    requires ClockInv(c)
    ensures var (d, verdict) := Step(native, c, dt, inputs);
            && ClockInv(d)
            && (verdict == DeviceRejected <==> Timely(dt) && !Acceptable(inputs))
            && (verdict == DeviceRejected || !Timely(dt) ==> d == c)
            && (verdict == BadValue ==>
                  d == c.(runner := d.runner) && d.runner.time == c.runner.time
                  && (Timely(dt) ==> Usable(d.runner) && Fitting(inputs, SETS) < SETS))
            && (verdict == Failed ==> !Usable(d.runner) && d.elapsed == c.elapsed)
            && (verdict == Done ==>
                  && Timely(dt) && Acceptable(inputs) && Usable(c.runner) && Usable(d.runner)
                  && c.steps <= d.steps <= c.steps + 50
                  && d.runner.time == c.runner.time + Grid(d.steps - c.steps)
                  && d.elapsed == c.elapsed + dt && d.accepted == c.accepted + 1)
  {
    hide Grid, Calls, SubSteps, Acceptable, Fits;
    if Timely(dt) && Acceptable(inputs) {
      var k := Fitting(inputs, SETS);
      var r := Calls(native, c.runner, k);
      if Usable(r) {
        CallsOnUsable(native, c.runner, k);
        if k == SETS {
          var c1 := c.(runner := r, remainder := c.remainder + dt);
          SlicesConserve(native, c1);
          RankBound(c1.remainder);
          GridAdds(SubSteps(native, c1).steps, c.steps);
        }
      }
    }
  }

  lemma CallsOnUsable(native: Native, r: Runner, n: nat)
    ensures Usable(Calls(native, r, n)) ==> Usable(r)
  {
  }

  /** Over any sequence of steps, rejected ones included: with k sub-steps run in n
      successful steps, 0 <= k * 0.002 + remainder - sum(dt) <= n * 1e-12, and the
      runner's time is k * 0.002. */
  lemma {:induction false} TimeIsConserved(native: Native, inputs: seq<(real, Inputs)>)
    ensures ClockInv(Run(native, Opened(), inputs))
    decreases |inputs|
  {
    hide Step;
    if inputs != [] {
      var n := |inputs| - 1;
      TimeIsConserved(native, inputs[..n]);
      StepKeepsClock(native, Run(native, Opened(), inputs[..n]), inputs[n].0, inputs[n].1);
    }
  }

  lemma FailedStep(native: Native, c: Copley, dt: real, inputs: Inputs)
    requires !Usable(c.runner)
    ensures Step(native, c, dt, inputs).0 == c && Step(native, c, dt, inputs).1 != Done
  {
  }

  /** A failed runner never advances again, and no native call is made. */
  lemma {:induction false} FailureIsLatched(native: Native, c: Copley, inputs: seq<(real, Inputs)>)
    requires !Usable(c.runner)
    ensures Run(native, c, inputs) == c
    decreases |inputs|
  {
    hide Step;
    if inputs != [] {
      var n := |inputs| - 1;
      FailureIsLatched(native, c, inputs[..n]);
      FailedStep(native, c, inputs[n].0, inputs[n].1);
    }
  }

  // ---- A healthy FMU ----

  ghost predicate Healthy(native: Native) {
    forall n :: native(n)
  }

  /** What the drive takes: no fault reset while a fault is injected, mode 0 or 1, a positive
      velocity and one positive acceleration for both ramps. */
  predicate Commandable(inputs: Inputs) {
    && (inputs.faultInjected ==> inputs.controlword / 128 % 2 == 0)
    && (inputs.mode == 0 || inputs.mode == 1) && inputs.velocity > 0
    && inputs.acceleration > 0 && inputs.deceleration == inputs.acceleration
  }

  lemma {:induction false} HealthyCalls(native: Native, r: Runner, n: nat)
    requires Healthy(native) && Usable(r)
    ensures Calls(native, r, n) == r.(calls := r.calls + n)
  {
    if n > 0 {
      HealthyCalls(native, r, n - 1);
    }
  }

  lemma {:induction false} HealthySubSteps(native: Native, c: Copley)
    requires Healthy(native) && Usable(c.runner)
    ensures Usable(SubSteps(native, c).runner)
    decreases if Due(c.remainder) then Rank(c.remainder) else 0
  {
    if Due(c.remainder) {
      RankDrops(c.remainder);
      var r := DoStep(native, c.runner, STEP_SECONDS);
      HealthySubSteps(native, c.(runner := r, remainder := Cut(c.remainder), steps := c.steps + 1));
    }
  }

  lemma RankFits(remainder: real)
    requires remainder >= 0.0
    ensures var n := Rank(remainder); n as real * 0.002 <= remainder + DUST < (n + 1) as real * 0.002
  {
    var x := (remainder + DUST) * 500.0;
    assert x.Floor as real <= x < (x.Floor + 1) as real;
  }

  /** As long as no native call fails, a step succeeds exactly in time and with a command the
      drive takes, and then runs exactly as many sub-steps as fit into the rest and the
      elapsed time together; otherwise nothing happens. */
  lemma HealthyStep(native: Native, c: Copley, dt: real, inputs: Inputs)
    requires Healthy(native) && ClockInv(c) && Usable(c.runner) && Typed(inputs)
    ensures var (d, verdict) := Step(native, c, dt, inputs);
            && verdict == (if !(0.0 < dt <= 0.1) then BadValue else if Commandable(inputs) then Done else DeviceRejected)
            && Usable(d.runner) && ClockInv(d)
            && (verdict != Done ==> d == c)
            && (verdict == Done ==>
                  var n := d.steps - c.steps;
                  && n as real * 0.002 <= c.remainder + dt + DUST < (n + 1) as real * 0.002
                  && d.runner.time == c.runner.time + n as real * 0.002
                  && d.elapsed == c.elapsed + dt && d.accepted == c.accepted + 1)
  {
    hide SubSteps, Calls, Fits;
    StepKeepsClock(native, c, dt, inputs);
    TypedValuesFit(native, c, dt, inputs);
    if Timely(dt) && Acceptable(inputs) {
      HealthyCalls(native, c.runner, SETS);
      var c1 := c.(runner := c.runner.(calls := c.runner.calls + SETS), remainder := c.remainder + dt);
      HealthySubSteps(native, c1);
      SlicesConserve(native, c1);
      HealthyCalls(native, SubSteps(native, c1).runner, GETS);
      RankFits(c1.remainder);
    }
  }

  /** The host time of the steps that the drive takes. */
  function HostTime(inputs: seq<(real, Inputs)>): real {
    if inputs == [] then 0.0
    else
      var last := inputs[|inputs| - 1];
      HostTime(inputs[..|inputs| - 1]) + (if 0.0 < last.0 <= 0.1 && Commandable(last.1) then last.0 else 0.0)
  }

  predicate AllTyped(inputs: seq<(real, Inputs)>) {
    forall i :: 0 <= i < |inputs| ==> Typed(inputs[i].1)
  }

  /** The time of a healthy FMU follows the host: behind by less than one sub-step, and ahead
      by at most the dust of each step, however many steps there were. */
  lemma {:induction false} FmuFollowsHost(native: Native, inputs: seq<(real, Inputs)>)
    requires Healthy(native) && AllTyped(inputs)
    ensures var c := Run(native, Opened(), inputs);
            && Usable(c.runner) && ClockInv(c) && c.elapsed == HostTime(inputs) && c.accepted <= |inputs|
            && HostTime(inputs) - 0.002 < c.runner.time <= HostTime(inputs) + |inputs| as real * DUST
    decreases |inputs|
  {
    hide Step, Healthy, Commandable, Typed;
    if inputs != [] {
      var n := |inputs| - 1;
      FmuFollowsHost(native, inputs[..n]);
      HealthyStep(native, Run(native, Opened(), inputs[..n]), inputs[n].0, inputs[n].1);
    }
    TimeIsConserved(native, inputs);
  }

  // ---- Runner and adapter as objects ----

  class Fmi3Runner {
    const native: Native
    var time: real
    var failed: bool
    var initialized: bool
    var calls: nat

    constructor (native: Native)
      ensures this.native == native && View() == Runner(0.0, false, true, 0)
    {
      this.native := native;
      time, failed, initialized, calls := 0.0, false, true, 0;
    }

    ghost function View(): Runner
      reads this
    {
      Runner(time, failed, initialized, calls)
    }

    /** A set of a value: refused when it does not fit, without a native call. */
    method SetValue(fits: bool) returns (verdict: Verdict)
      modifies this
      ensures var r := old(View());
              if !Usable(r) then View() == r && verdict == Failed
              else if !fits then View() == r && verdict == BadValue
              else View() == Call(native, r) && verdict == if Usable(View()) then Done else Failed
    {
      if !initialized || failed {
        return Failed;
      }
      if !fits {
        return BadValue;
      }
      var ok := Access();
      return if ok then Done else Failed;
    }

    /** A set or get: false when the runner is unusable or the native call throws. */
    method Access() returns (ok: bool)
      modifies this
      ensures View() == Call(native, old(View())) && ok == Usable(View())
    {
      if !initialized || failed {
        return false;
      }
      ok := native(calls);
      calls := calls + 1;
      if !ok {
        failed := true;
      }
    }

    method StepBy(dt: real) returns (ok: bool)
      requires dt > 0.0
      modifies this
      ensures View() == DoStep(native, old(View()), dt) && ok == Usable(View())
    {
      ok := Access();
      if ok {
        time := time + dt;
      }
    }

    method AccessAll(n: nat) returns (ok: bool)
      requires Usable(View())
      modifies this
      ensures View() == Calls(native, old(View()), n) && ok == Usable(View())
    {
      ok := true;
      for i := 0 to n
        invariant View() == Calls(native, old(View()), i) && ok == Usable(View())
      {
        ok := Access();
      }
    }
  }

  class CopleyAdapter {
    const runner: Fmi3Runner
    var remainder: real
    ghost var steps: nat
    ghost var accepted: nat
    ghost var elapsed: real

    constructor (runner: Fmi3Runner)
      requires runner.View() == Runner(0.0, false, true, 0)
      ensures this.runner == runner && View() == Opened()
    {
      this.runner := runner;
      remainder, steps, accepted, elapsed := 0.0, 0, 0, 0.0;
    }

    ghost function View(): Copley
      reads this, runner
    {
      Copley(runner.View(), remainder, steps, accepted, elapsed)
    }

    method StepModel(dt: real, inputs: Inputs) returns (verdict: Verdict)
      modifies this, runner
      ensures (View(), verdict) == Step(runner.native, old(View()), dt, inputs)
    {
      hide SubSteps, Calls, Acceptable, Fits;
      if !Timely(dt) {
        return BadValue;
      }
      if !Acceptable(inputs) {
        return DeviceRejected;
      }
      verdict := SetInputs(inputs);
      if verdict != Done {
        return;
      }
      remainder := remainder + dt;
      var ok := Advance();
      if !ok {
        return Failed;
      }
      ok := runner.AccessAll(GETS);
      if !ok {
        return Failed;
      }
      accepted, elapsed := accepted + 1, elapsed + dt;
      return Done;
    }

    /** Set the values one after another, up to the first that is refused or fails. */
    method SetInputs(inputs: Inputs) returns (verdict: Verdict)
      modifies runner
      ensures runner.View() == Calls(runner.native, old(runner.View()), Fitting(inputs, SETS))
      ensures verdict == if !Usable(runner.View()) then Failed
                         else if Fitting(inputs, SETS) < SETS then BadValue else Done
    {
      hide Fits, Calls;
      ghost var k := Fitting(inputs, SETS);
      ghost var r := runner.View();
      CallsNone(runner.native, r);
      for i := 0 to SETS
        invariant i <= k
        invariant runner.View() == Calls(runner.native, r, i)
        invariant i > 0 ==> Usable(runner.View())
      {
        CallsStep(runner.native, r, i);
        verdict := runner.SetValue(Fits(inputs, i));
        if verdict == BadValue {
          assert i == k;
          return;
        }
        if verdict == Failed {
          CallsStop(runner.native, r, if Usable(Calls(runner.native, r, i)) && i < k then i + 1 else i, k);
          return;
        }
      }
      return Done;
    }

    method Advance() returns (ok: bool)
      requires Usable(runner.View())
      modifies this, runner
      ensures View() == SubSteps(runner.native, old(View())) && ok == Usable(runner.View())
    {
      ok := true;
      while remainder + DUST >= STEP_SECONDS
        invariant ok && Usable(runner.View())
        invariant SubSteps(runner.native, View()) == SubSteps(runner.native, old(View()))
        decreases if Due(remainder) then Rank(remainder) else 0
      {
        RankDrops(remainder);
        ok := runner.StepBy(STEP_SECONDS);
        if !ok {
          return;
        }
        remainder := Max(0.0, remainder - STEP_SECONDS);
        steps := steps + 1;
      }
    }
  }
}
