/** The runtime of one axis: every request passes the fault interlock, and what the
    adapter answers or throws becomes a process image or a latched fault. The
    adapter is arbitrary: any state type and any total behaviour. */
module AxisRuntime {
  import opened Words
  import opened Wrappers
  import opened FaultGuard

  const RX_SIZE: nat := 24
  const TX_SIZE: nat := 14
  const MAX_GAP: real := 0.1
  const FIRST_STEP: real := 0.01
  const DISABLE_STEP: real := 0.002

  /** An adapter call returns, is rejected by the device model, or throws. */
  datatype Outcome<+P> = Done(plant: P) | Rejected(plant: P) | Crashed(plant: P)

  datatype Reading<+P> = Image(plant: P, data: Octets) | ReadRejected(plant: P) | ReadCrashed(plant: P)

  /** A refusal (device rejection, unknown object, bad value) is not a fault. */
  datatype Access<+P> = Data(plant: P, data: Octets) | Refused(plant: P) | StorageError(plant: P) | Broken(plant: P)

  datatype Sdo = ReadObject(index: nat, subindex: nat) | WriteObject(index: nat, subindex: nat, data: Octets)

  datatype Adapter<!P> = Adapter(
    apply: (P, Octets) -> Outcome<P>,
    step: (P, real) -> Outcome<P>,
    read: P -> Reading<P>,
    access: (P, Sdo) -> Access<P>)

  /** Calls that reach the adapter. */
  datatype Call = ApplyOutputs(payload: Octets) | StepModel(dt: real) | ReadInputs | AccessObject(sdo: Sdo)

  /** A cycle's payload is None when its text is not hexadecimal. */
  datatype Request = Cycle(payload: Option<Octets>, now: real) | Idle | Object(sdo: Sdo)

  datatype Reply =
    | Published(data: Octets)
    | Guarded(data: Octets, fault: Option<Diagnostic>, restartRequired: bool, feedbackValid: bool)
    | ObjectData(data: Octets)
    | ObjectDone
    | Abort(code: nat)
    | Raised

  datatype Axis<+P> = Axis(guard: Guard, plant: P, lastCycle: Option<real>, cycles: nat)

  datatype Result<+P> = Result(axis: Axis<P>, reply: Reply, calls: seq<Call>)

  const ABORT_RESTART: nat := 0x08000022
  const ABORT_FAILED: nat := 0x08000000

  predicate Ready<P>(x: Axis<P>) {
    |x.guard.last| >= 2
  }

  function GuardedReply(g: Guard): Reply
    requires |g.last| >= 2
  {
    Guarded(ImageOf(g), g.fault, g.restartRequired, g.feedbackValid)
  }

  /** The response after a cycle or idle request that did not fail. */
  function Respond<P>(x: Axis<P>, data: Octets, calls: seq<Call>): Result<P>
    requires Ready(x)
  {
    Result(x, if x.guard.phase == Normal && x.guard.fault.None? then Published(data)
              else GuardedReply(x.guard), calls)
  }

  /** A failure becomes a pending fault and the fault response. */
  function Fail<P>(x: Axis<P>, code: Code, restart: bool, calls: seq<Call>): Result<P>
    requires Ready(x)
  {
    var y := x.(guard := Detect(x.guard, code, restart), lastCycle := None);
    Result(y, GuardedReply(y.guard), calls)
  }

  function Rejection<P>(x: Axis<P>, plant: P, calls: seq<Call>): Result<P>
    requires Ready(x)
  {
    Fail(x.(plant := plant), AdapterFault, false, calls)
  }

  function Crash<P>(x: Axis<P>, plant: P, calls: seq<Call>): Result<P>
    requires Ready(x)
  {
    Fail(x.(plant := plant), ExecutionFailed, true, calls)
  }

  /** Read the inputs and let the interlock accept or refuse them. */
  function Finish<P>(a: Adapter<P>, x: Axis<P>, counted: bool, resetting: bool, calls: seq<Call>): Result<P>
    requires Ready(x)
  {
    var calls1 := calls + [ReadInputs];
    match a.read(x.plant)
    case ReadRejected(p) => Rejection(x, p, calls1)
    case ReadCrashed(p) => Crash(x, p, calls1)
    case Image(p, data) =>
      var y := x.(plant := p, cycles := if counted then x.cycles + 1 else x.cycles);
      if |data| != |y.guard.last| then Fail(y, OutputInvalid, true, calls1)
      else Respond(y.(guard := Accept(y.guard, data, resetting)), data, calls1)
  }

  /** Applying outputs and stepping either moves the plant or ends the cycle. */
  datatype Driven<+P> = Moved(axis: Axis<P>, calls: seq<Call>) | Ended(result: Result<P>)

  function Drive<P>(a: Adapter<P>, x: Axis<P>, payload: Octets, dt: real, calls: seq<Call>): Driven<P>
    requires Ready(x)
  {
    var calls1 := calls + [ApplyOutputs(payload)];
    match a.apply(x.plant, payload)
    case Rejected(p) => Ended(Rejection(x, p, calls1))
    case Crashed(p) => Ended(Crash(x, p, calls1))
    case Done(p) =>
      var calls2 := calls1 + [StepModel(dt)];
      match a.step(p, dt)
      case Rejected(q) => Ended(Rejection(x, q, calls2))
      case Crashed(q) => Ended(Crash(x, q, calls2))
      case Done(q) => Moved(x.(plant := q), calls2)
  }

  /** Apply, step and read with the time since the previous cycle. */
  function Exchange<P>(a: Adapter<P>, x: Axis<P>, payload: Octets, resetting: bool, now: real,
                       calls: seq<Call>): Result<P>
    requires Ready(x)
  {
    var dt := if x.lastCycle.None? then FIRST_STEP else now - x.lastCycle.value;
    if dt > MAX_GAP then Crash(x, x.plant, calls)
    else
      match Drive(a, x.(lastCycle := Some(now)), payload, dt, calls)
      case Ended(r) => r
      case Moved(y, made) => Finish(a, y, true, resetting, made)
  }

  /** After a rejected PDO the model may still be enabled: a reset disables it first. */
  function DisableFirst<P>(a: Adapter<P>, x: Axis<P>, payload: Octets, now: real): Result<P>
    requires Ready(x) && |payload| >= 2
  {
    match Drive(a, x, WithWord(0, payload), DISABLE_STEP, [])
    case Ended(r) => r
    case Moved(y, made) => Exchange(a, y, payload, true, now, made)
  }

  function DispatchCycle<P>(a: Adapter<P>, x: Axis<P>, payload: Option<Octets>, now: real): Result<P>
    requires Ready(x)
  {
    match payload
    case None => Fail(x, ExecutionFailed, true, [])
    case Some(data) =>
      if |data| != RX_SIZE then Fail(x, AdapterFault, false, [])
      else
        var (g, verdict) := Prepare(x.guard, data);
        var x1 := x.(guard := g);
        match verdict
        case Block => Result(x1.(lastCycle := None), GuardedReply(g), [])
        case Forward(forwarded, resetting) =>
          var x2 := if resetting then x1.(lastCycle := None) else x1;
          if resetting && g.fault.Some? && g.fault.value.code == AdapterFault
          then DisableFirst(a, x2, forwarded, now)
          else Exchange(a, x2, forwarded, resetting, now, [])
  }

  function DispatchIdle<P>(a: Adapter<P>, x: Axis<P>): Result<P>
    requires Ready(x)
  {
    var x1 := x.(lastCycle := None);
    if x.guard.phase != Normal then Result(x1, GuardedReply(x.guard), [])
    else Finish(a, x1, false, false, [])
  }

  predicate IsStatusword(sdo: Sdo) {
    sdo.ReadObject? && sdo.index == 0x6041 && sdo.subindex == 0
  }

  predicate IsSaveCommand(sdo: Sdo) {
    sdo.WriteObject? && sdo.index == 0x2005 && sdo.subindex == 1
  }

  function DispatchObject<P>(a: Adapter<P>, x: Axis<P>, sdo: Sdo): Result<P>
    requires Ready(x)
  {
    if IsStatusword(sdo) && x.guard.phase != Normal then
      Result(x, ObjectData(ImageOf(x.guard)[..2]), [])
    else if x.guard.restartRequired then Result(x, Abort(ABORT_RESTART), [])
    else
      match a.access(x.plant, sdo)
      case Data(p, data) =>
        Result(x.(plant := p), if sdo.ReadObject? then ObjectData(data) else ObjectDone, [AccessObject(sdo)])
      case Refused(p) => Result(x.(plant := p), Raised, [AccessObject(sdo)])
      case StorageError(p) =>
        if IsSaveCommand(sdo) then Result(x.(plant := p), Raised, [AccessObject(sdo)])
        else AccessFailed(x, p, sdo)
      case Broken(p) => AccessFailed(x, p, sdo)
  }

  function AccessFailed<P>(x: Axis<P>, plant: P, sdo: Sdo): Result<P> {
    Result(x.(plant := plant, guard := Detect(x.guard, ExecutionFailed, true)), Abort(ABORT_FAILED),
           [AccessObject(sdo)])
  }

  function Dispatch<P>(a: Adapter<P>, x: Axis<P>, request: Request): Result<P>
    requires Ready(x)
  {
    match request
    case Cycle(payload, now) => DispatchCycle(a, x, payload, now)
    case Idle => DispatchIdle(a, x)
    case Object(sdo) => DispatchObject(a, x, sdo)
  }

  // ---- The image keeps its length, so a ready axis stays ready ----

  lemma GuardKeepsLength(g: Guard, code: Code, restart: bool, payload: Octets, output: Octets, resetting: bool)
    ensures Detect(g, code, restart).last == g.last
    ensures |payload| > 2 ==> Prepare(g, payload).0.last == g.last
    ensures |payload| > 2 && Prepare(g, payload).1.Forward? ==> |Prepare(g, payload).1.payload| == |payload|
    ensures |output| == |g.last| >= 2 ==> |Accept(g, output, resetting).last| == |g.last|
  {
  }

  lemma FinishKeepsLength<P>(a: Adapter<P>, x: Axis<P>, counted: bool, resetting: bool, calls: seq<Call>)
    requires Ready(x)
    ensures |Finish(a, x, counted, resetting, calls).axis.guard.last| == |x.guard.last|
  {
    hide Detect, Accept, ImageOf;
    GuardKeepsLength(x.guard, AdapterFault, false, [], [], false);
    GuardKeepsLength(x.guard, ExecutionFailed, true, [], [], false);
    GuardKeepsLength(x.guard, OutputInvalid, true, [], [], false);
    if a.read(x.plant).Image? {
      GuardKeepsLength(x.guard, OutputInvalid, true, [], a.read(x.plant).data, resetting);
    }
  }

  lemma DriveKeepsLength<P>(a: Adapter<P>, x: Axis<P>, payload: Octets, dt: real, calls: seq<Call>)
    requires Ready(x)
    ensures match Drive(a, x, payload, dt, calls)
            case Ended(r) => |r.axis.guard.last| == |x.guard.last|
            case Moved(y, _) => y.guard == x.guard
  {
    hide Detect, ImageOf;
    GuardKeepsLength(x.guard, AdapterFault, false, [], [], false);
    GuardKeepsLength(x.guard, ExecutionFailed, true, [], [], false);
  }

  lemma ExchangeKeepsLength<P>(a: Adapter<P>, x: Axis<P>, payload: Octets, resetting: bool, now: real, calls: seq<Call>)
    requires Ready(x)
    ensures |Exchange(a, x, payload, resetting, now, calls).axis.guard.last| == |x.guard.last|
  {
    hide Drive, Finish, Detect, ImageOf;
    GuardKeepsLength(x.guard, ExecutionFailed, true, [], [], false);
    var dt := if x.lastCycle.None? then FIRST_STEP else now - x.lastCycle.value;
    DriveKeepsLength(a, x.(lastCycle := Some(now)), payload, dt, calls);
    match Drive(a, x.(lastCycle := Some(now)), payload, dt, calls)
    case Ended(_) =>
    case Moved(y, made) => FinishKeepsLength(a, y, true, resetting, made);
  }

  lemma DispatchKeepsReady<P>(a: Adapter<P>, x: Axis<P>, request: Request)
    requires Ready(x)
    ensures |Dispatch(a, x, request).axis.guard.last| == |x.guard.last|
  {
    hide Prepare, Detect, Drive, Finish, Exchange, ImageOf;
    GuardKeepsLength(x.guard, AdapterFault, false, [], [], false);
    GuardKeepsLength(x.guard, ExecutionFailed, true, [], [], false);
    match request
    case Object(_) =>
    case Idle => FinishKeepsLength(a, x.(lastCycle := None), false, false, []);
    case Cycle(payload, now) =>
      if payload.Some? && |payload.value| == RX_SIZE {
        GuardKeepsLength(x.guard, AdapterFault, false, payload.value, [], false);
        var (g, verdict) := Prepare(x.guard, payload.value);
        if verdict.Forward? {
          var x2 := x.(guard := g, lastCycle := if verdict.resetting then None else x.lastCycle);
          ExchangeKeepsLength(a, x2, verdict.payload, verdict.resetting, now, []);
          var disable := WithWord(0, verdict.payload);
          DriveKeepsLength(a, x2, disable, DISABLE_STEP, []);
          if Drive(a, x2, disable, DISABLE_STEP, []).Moved? {
            var moved := Drive(a, x2, disable, DISABLE_STEP, []);
            ExchangeKeepsLength(a, moved.axis, verdict.payload, true, now, moved.calls);
          }
        }
      }
  }

  // ---- Runs ----

  function Run<P>(a: Adapter<P>, x: Axis<P>, requests: seq<Request>): (y: Axis<P>)
    requires Ready(x)
    ensures |y.guard.last| == |x.guard.last|
    decreases |requests|
  {
    if requests == [] then x
    else
      var n := |requests| - 1;
      var before := Run(a, x, requests[..n]);
      DispatchKeepsReady(a, before, requests[n]);
      Dispatch(a, before, requests[n]).axis
  }

  /** What the i-th request of a run gives. */
  function ResultAt<P>(a: Adapter<P>, x: Axis<P>, requests: seq<Request>, i: nat): Result<P>
    requires Ready(x) && i < |requests|
  {
    Dispatch(a, Run(a, x, requests[..i]), requests[i])
  }

  /** The object that serves one axis. */
  class Model<P> {
    const adapter: Adapter<P>
    const faultState: AxisFault
    var plant: P
    var lastCycle: Option<real>
    var cycles: nat
    ghost var calls: seq<Call>

    constructor (adapter: Adapter<P>, plant: P, initial: Octets)
      ensures View() == Axis(InitialGuard(initial), plant, None, 0)
      ensures calls == [] && fresh(faultState)
    {
      this.adapter := adapter;
      this.plant := plant;
      faultState := new AxisFault(initial);
      lastCycle := None;
      cycles := 0;
      calls := [];
    }

    ghost function View(): Axis<P>
      reads this, faultState
    {
      Axis(faultState.View(), plant, lastCycle, cycles)
    }

    method Serve(request: Request) returns (reply: Reply)
      requires Ready(View())
      modifies this, faultState
      ensures Ready(old(View())) && var r := Dispatch(adapter, old(View()), request);
              View() == r.axis && reply == r.reply && calls == old(calls) + r.calls
    {
      ghost var before := calls;
      match request
      case Object(sdo) => reply := ServeObject(sdo);
      case Idle => reply := ServeIdle();
      case Cycle(payload, now) => reply := ServeCycle(payload, now);
    }

    method Failed(code: Code, restart: bool) returns (reply: Reply)
      requires Ready(View())
      modifies this`lastCycle, faultState
      ensures Ready(old(View())) && var r := Fail(old(View()), code, restart, []);
              View() == r.axis && reply == r.reply
    {
      faultState.DetectFault(code, restart);
      lastCycle := None;
      reply := GuardResponse();
    }

    method GuardResponse() returns (reply: Reply)
      requires Ready(View())
      ensures reply == GuardedReply(View().guard)
    {
      var data := faultState.ResponseImage();
      reply := Guarded(data, faultState.fault, faultState.restartRequired, faultState.feedbackValid);
    }

    method ServeObject(sdo: Sdo) returns (reply: Reply)
      requires Ready(View())
      modifies this, faultState
      ensures Ready(old(View())) && var r := DispatchObject(adapter, old(View()), sdo);
              View() == r.axis && reply == r.reply && calls == old(calls) + r.calls
    {
      if IsStatusword(sdo) && faultState.phase != Normal {
        var data := faultState.ResponseImage();
        return ObjectData(data[..2]);
      }
      if faultState.restartRequired {
        return Abort(ABORT_RESTART);
      }
      var outcome := adapter.access(plant, sdo);
      calls := calls + [AccessObject(sdo)];
      plant := outcome.plant;
      match outcome
      case Data(_, data) =>
        reply := if sdo.ReadObject? then ObjectData(data) else ObjectDone;
      case Refused(_) =>
        reply := Raised;
      case StorageError(_) =>
        if IsSaveCommand(sdo) {
          reply := Raised;
        } else {
          faultState.DetectFault(ExecutionFailed, true);
          reply := Abort(ABORT_FAILED);
        }
      case Broken(_) =>
        faultState.DetectFault(ExecutionFailed, true);
        reply := Abort(ABORT_FAILED);
    }

    method ServeIdle() returns (reply: Reply)
      requires Ready(View())
      modifies this, faultState
      ensures Ready(old(View())) && var r := DispatchIdle(adapter, old(View()));
              View() == r.axis && reply == r.reply && calls == old(calls) + r.calls
    {
      lastCycle := None;
      if faultState.phase != Normal {
        reply := GuardResponse();
        return;
      }
      reply := ReadAndAccept(false, false);
    }

    method ReadAndAccept(counted: bool, resetting: bool) returns (reply: Reply)
      requires Ready(View())
      modifies this, faultState
      ensures Ready(old(View())) && var r := Finish(adapter, old(View()), counted, resetting, []);
              View() == r.axis && reply == r.reply && calls == old(calls) + r.calls
    {
      var outcome := adapter.read(plant);
      calls := calls + [ReadInputs];
      plant := outcome.plant;
      match outcome
      case ReadRejected(_) => reply := Failed(AdapterFault, false);
      case ReadCrashed(_) => reply := Failed(ExecutionFailed, true);
      case Image(_, data) =>
        if counted {
          cycles := cycles + 1;
        }
        var valid := faultState.AcceptOutput(data, resetting);
        if !valid {
          reply := Failed(OutputInvalid, true);
        } else if faultState.phase == Normal && faultState.fault.None? {
          reply := Published(data);
        } else {
          reply := GuardResponse();
        }
    }

    /** One apply and step; a failure has already been turned into the reply. */
    method DriveModel(payload: Octets, dt: real) returns (failure: Option<Reply>)
      requires Ready(View())
      modifies this, faultState
      ensures Ready(old(View()))
      ensures match Drive(adapter, old(View()), payload, dt, [])
              case Ended(r) => failure == Some(r.reply) && View() == r.axis && calls == old(calls) + r.calls
              case Moved(y, made) => failure.None? && View() == y && calls == old(calls) + made
    {
      hide Detect, ImageOf;
      var applied := adapter.apply(plant, payload);
      calls := calls + [ApplyOutputs(payload)];
      plant := applied.plant;
      var reply: Reply;
      if applied.Rejected? {
        reply := Failed(AdapterFault, false);
        return Some(reply);
      }
      if applied.Crashed? {
        reply := Failed(ExecutionFailed, true);
        return Some(reply);
      }
      var stepped := adapter.step(plant, dt);
      calls := calls + [StepModel(dt)];
      plant := stepped.plant;
      if stepped.Rejected? {
        reply := Failed(AdapterFault, false);
        return Some(reply);
      }
      if stepped.Crashed? {
        reply := Failed(ExecutionFailed, true);
        return Some(reply);
      }
      return None;
    }

    method ServeCycle(payload: Option<Octets>, now: real) returns (reply: Reply)
      requires Ready(View())
      modifies this, faultState
      ensures Ready(old(View())) && var r := DispatchCycle(adapter, old(View()), payload, now);
              View() == r.axis && reply == r.reply && calls == old(calls) + r.calls
    {
      hide Detect, ImageOf, Prepare, Exchange, Drive;
      if payload.None? {
        reply := Failed(ExecutionFailed, true);
        return;
      }
      if |payload.value| != RX_SIZE {
        reply := Failed(AdapterFault, false);
        return;
      }
      ghost var g := faultState.View();
      GuardKeepsLength(g, AdapterFault, false, payload.value, [], false);
      var verdict := faultState.PreparePdo(payload.value);
      assert faultState.View().last == g.last;
      if verdict.Block? {
        lastCycle := None;
        reply := GuardResponse();
        return;
      }
      if verdict.resetting {
        lastCycle := None;
        if faultState.fault.Some? && faultState.fault.value.code == AdapterFault {
          reply := DisableThenExchange(verdict.payload, now);
          return;
        }
      }
      reply := ExchangePdo(verdict.payload, verdict.resetting, now);
    }

    method DisableThenExchange(payload: Octets, now: real) returns (reply: Reply)
      requires Ready(View()) && |payload| >= 2
      modifies this, faultState
      ensures Ready(old(View())) && var r := DisableFirst(adapter, old(View()), payload, now);
              View() == r.axis && reply == r.reply && calls == old(calls) + r.calls
    {
      hide Detect, ImageOf, Drive, Finish, Exchange;
      ghost var x := View();
      DriveKeepsLength(adapter, x, WithWord(0, payload), DISABLE_STEP, []);
      var failure := DriveModel(WithWord(0, payload), DISABLE_STEP);
      if failure.Some? {
        return failure.value;
      }
      ghost var made := Drive(adapter, x, WithWord(0, payload), DISABLE_STEP, []).calls;
      ExchangeAppends(adapter, View(), payload, true, now, made);
      reply := ExchangePdo(payload, true, now);
    }

    method ExchangePdo(payload: Octets, resetting: bool, now: real) returns (reply: Reply)
      requires Ready(View())
      modifies this, faultState
      ensures Ready(old(View())) && var r := Exchange(adapter, old(View()), payload, resetting, now, []);
              View() == r.axis && reply == r.reply && calls == old(calls) + r.calls
    {
      hide Detect, ImageOf, Drive, Finish;
      var dt := if lastCycle.None? then FIRST_STEP else now - lastCycle.value;
      if dt > MAX_GAP {
        reply := Failed(ExecutionFailed, true);
        return;
      }
      lastCycle := Some(now);
      ghost var x := View();
      DriveKeepsLength(adapter, x, payload, dt, []);
      var failure := DriveModel(payload, dt);
      if failure.Some? {
        return failure.value;
      }
      ghost var made := Drive(adapter, x, payload, dt, []).calls;
      FinishAppends(adapter, View(), true, resetting, made);
      reply := ReadAndAccept(true, resetting);
    }
  }

  // ---- The log of calls only grows at its end ----

  lemma FinishAppends<P>(a: Adapter<P>, x: Axis<P>, counted: bool, resetting: bool, calls: seq<Call>)
    requires Ready(x)
    ensures var r, r0 := Finish(a, x, counted, resetting, calls), Finish(a, x, counted, resetting, []);
            r.axis == r0.axis && r.reply == r0.reply && r.calls == calls + r0.calls
  {
    hide Detect, Accept, ImageOf;
  }

  lemma DriveAppends<P>(a: Adapter<P>, x: Axis<P>, payload: Octets, dt: real, calls: seq<Call>)
    requires Ready(x)
    ensures match Drive(a, x, payload, dt, [])
            case Ended(r0) =>
              (match Drive(a, x, payload, dt, calls)
               case Ended(r) => r.axis == r0.axis && r.reply == r0.reply && r.calls == calls + r0.calls
               case Moved(_, _) => false)
            case Moved(y, made) => Drive(a, x, payload, dt, calls) == Moved(y, calls + made)
  {
    hide Detect, ImageOf;
    assert calls + [ApplyOutputs(payload)] + [StepModel(dt)] == calls + ([ApplyOutputs(payload)] + [StepModel(dt)]);
    assert [] + [ApplyOutputs(payload)] == [ApplyOutputs(payload)];
  }

  lemma ExchangeAppends<P>(a: Adapter<P>, x: Axis<P>, payload: Octets, resetting: bool, now: real, calls: seq<Call>)
    requires Ready(x)
    ensures var r, r0 := Exchange(a, x, payload, resetting, now, calls), Exchange(a, x, payload, resetting, now, []);
            r.axis == r0.axis && r.reply == r0.reply && r.calls == calls + r0.calls
  {
    hide Detect, ImageOf, Drive, Finish;
    var dt := if x.lastCycle.None? then FIRST_STEP else now - x.lastCycle.value;
    var y := x.(lastCycle := Some(now));
    DriveKeepsLength(a, y, payload, dt, []);
    DriveAppends(a, y, payload, dt, calls);
    match Drive(a, y, payload, dt, [])
    case Ended(_) =>
    case Moved(z, made) =>
      FinishAppends(a, z, true, resetting, made);
      FinishAppends(a, z, true, resetting, calls + made);
  }
}
