/** What the fault interlock guarantees over whole runs, whatever the adapter does:
    an honest fault bit, a restart latch, and the grammar of recovery. */
module Recovery {
  import opened Words
  import opened Wrappers
  import opened FaultGuard
  import opened AxisRuntime

  /** A fault is pending exactly in the two fault phases; it is resolved only after it was
      acknowledged; without one the last image shows no fault. */
  predicate GuardInv(g: Guard) {
    && |g.last| >= 2
    && (g.fault.Some? <==> g.phase == Faulted || g.phase == VerifyReset)
    && (g.phase == VerifyReset ==> g.fault.value.acknowledged)
    && (g.restartRequired ==> g.phase == Faulted)
    && (g.fault.None? ==> !Bit(Word(g.last), FAULT_BIT))
  }

  // ---- The interlock alone ----

  lemma DetectKeepsInv(g: Guard, code: Code, restart: bool)
    requires |g.last| >= 2
    ensures GuardInv(Detect(g, code, restart))
  {
  }

  lemma PrepareKeepsInv(g: Guard, payload: Octets)
    requires GuardInv(g) && |payload| > 2
    ensures var (h, verdict) := Prepare(g, payload);
            && GuardInv(h) && h.last == g.last && h.restartRequired == g.restartRequired
            && (verdict.Forward? ==>
                  !g.restartRequired && |verdict.payload| == |payload|
                  && (verdict.resetting ==> h.fault.Some? && h.fault.value.acknowledged))
            && (h.phase == g.phase || verdict == Forward(payload, false))
  {
  }

  lemma AcceptKeepsInv(g: Guard, output: Octets, resetting: bool)
    requires GuardInv(g) && |output| == |g.last|
    requires resetting ==> g.fault.Some? && g.fault.value.acknowledged && !g.restartRequired
    ensures var h := Accept(g, output, resetting);
            && GuardInv(h) && h.last == output && h.restartRequired == g.restartRequired
            && (h.fault.Some? || !Bit(Word(output), FAULT_BIT))
  {
  }

  // ---- One request ----

  /** The image of a cycle or idle reply. */
  function ImageIn(reply: Reply): Option<Octets> {
    match reply
    case Published(data) => Some(data)
    case Guarded(data, _, _, _) => Some(data)
    case _ => None
  }

  /** The reply shows the fault bit exactly when a fault is pending. */
  predicate Honest(g: Guard, reply: Reply) {
    match ImageIn(reply)
    case None => true
    case Some(data) => |data| >= 2 && Bit(Word(data), FAULT_BIT) == g.fault.Some?
  }

  lemma GuardedIsHonest(g: Guard)
    requires GuardInv(g)
    ensures Honest(g, GuardedReply(g))
  {
    WithWordReads(Project(Word(g.last)), g.last);
    ProjectedWord(Word(g.last));
    ProjectionShowsFault(Word(g.last));
  }

  lemma ProjectionShowsFault(sw: bv16)
    ensures Bit(Project(sw), FAULT_BIT)
  {
  }

  /** A failed request: pending fault, honest reply. */
  lemma FailIsHonest<P>(x: Axis<P>, code: Code, restart: bool, calls: seq<Call>)
    requires Ready(x)
    ensures var r := Fail(x, code, restart, calls);
            GuardInv(r.axis.guard) && r.axis.guard.phase == Faulted && Honest(r.axis.guard, r.reply)
            && r.calls == calls && r.axis.plant == x.plant && ImageIn(r.reply).Some?
  {
    hide Project, Word, Bit;
    DetectKeepsInv(x.guard, code, restart);
    GuardedIsHonest(Detect(x.guard, code, restart));
  }

  /** Finishing reads exactly once and ends faulted or with an accepted image. */
  lemma FinishShape<P>(a: Adapter<P>, x: Axis<P>, counted: bool, resetting: bool, calls: seq<Call>)
    requires GuardInv(x.guard)
    requires resetting ==> x.guard.fault.Some? && x.guard.fault.value.acknowledged && !x.guard.restartRequired
    ensures var r := Finish(a, x, counted, resetting, calls);
            && GuardInv(r.axis.guard) && Honest(r.axis.guard, r.reply) && ImageIn(r.reply).Some?
            && r.calls == calls + [ReadInputs]
            && (r.axis.guard.phase == Faulted
                || (a.read(x.plant).Image? && r.axis.plant == a.read(x.plant).plant
                    && |a.read(x.plant).data| == |x.guard.last|
                    && r.axis.guard == Accept(x.guard, a.read(x.plant).data, resetting)
                    && !Bit(Word(a.read(x.plant).data), FAULT_BIT)
                    && r.axis.cycles == x.cycles + (if counted then 1 else 0)))
            && r.axis.plant == a.read(x.plant).plant
  {
    hide Detect, Accept, Project, Word, Bit, ImageOf;
    var made := calls + [ReadInputs];
    match a.read(x.plant)
    case ReadRejected(p) => FailIsHonest(x.(plant := p), AdapterFault, false, made);
    case ReadCrashed(p) => FailIsHonest(x.(plant := p), ExecutionFailed, true, made);
    case Image(p, data) =>
      var y := x.(plant := p, cycles := if counted then x.cycles + 1 else x.cycles);
      FailIsHonest(y, OutputInvalid, true, made);
      if |data| == |x.guard.last| {
        AcceptKeepsInv(x.guard, data, resetting);
        var h := Accept(x.guard, data, resetting);
        GuardedIsHonest(h);
        AcceptIsHonest(x.guard, data, resetting);
      }
  }

  /** An accepted image with the fault bit leaves the phase faulted. */
  lemma AcceptIsHonest(g: Guard, output: Octets, resetting: bool)
    requires |output| == |g.last| >= 2
    ensures Bit(Word(output), FAULT_BIT) ==> Accept(g, output, resetting).phase == Faulted
  {
  }

  lemma DriveShape<P>(a: Adapter<P>, x: Axis<P>, payload: Octets, dt: real, calls: seq<Call>)
    requires Ready(x)
    ensures match Drive(a, x, payload, dt, calls)
            case Ended(r) =>
              && GuardInv(r.axis.guard) && Honest(r.axis.guard, r.reply) && ImageIn(r.reply).Some?
              && r.axis.guard.phase == Faulted
              && (r.calls == calls + [ApplyOutputs(payload)]
                  || r.calls == calls + [ApplyOutputs(payload), StepModel(dt)])
            case Moved(y, made) =>
              && y == x.(plant := y.plant) && made == calls + [ApplyOutputs(payload), StepModel(dt)]
              && a.apply(x.plant, payload).Done?
              && a.step(a.apply(x.plant, payload).plant, dt) == Done(y.plant)
  {
    hide Detect, Project, Word, Bit, ImageOf, GuardInv;
    var calls1 := calls + [ApplyOutputs(payload)];
    var calls2 := calls1 + [StepModel(dt)];
    assert calls2 == calls + [ApplyOutputs(payload), StepModel(dt)];
    var p := a.apply(x.plant, payload).plant;
    FailIsHonest(x.(plant := p), AdapterFault, false, calls1);
    FailIsHonest(x.(plant := p), ExecutionFailed, true, calls1);
    var q := a.step(p, dt).plant;
    FailIsHonest(x.(plant := q), AdapterFault, false, calls2);
    FailIsHonest(x.(plant := q), ExecutionFailed, true, calls2);
  }

  /** A payload went through the adapter and came back with a fault-free image. */
  predicate Exchanged<P>(x: Axis<P>, r: Result<P>, payload: Octets) {
    && |r.calls| >= 3
    && r.calls[|r.calls| - 3] == ApplyOutputs(payload)
    && r.calls[|r.calls| - 2].StepModel?
    && r.calls[|r.calls| - 1] == ReadInputs
    && r.axis.cycles == x.cycles + 1
    && |r.axis.guard.last| >= 2 && !Bit(Word(r.axis.guard.last), FAULT_BIT)
  }

  /** Every payload applied is the given one or was applied before. */
  predicate OnlyApplies(calls: seq<Call>, payloads: set<Octets>) {
    forall i :: 0 <= i < |calls| && calls[i].ApplyOutputs? ==> calls[i].payload in payloads
  }

  lemma ExchangeShape<P>(a: Adapter<P>, x: Axis<P>, payload: Octets, resetting: bool, now: real, calls: seq<Call>,
                         payloads: set<Octets>)
    requires GuardInv(x.guard)
    requires resetting ==> x.guard.fault.Some? && x.guard.fault.value.acknowledged && !x.guard.restartRequired
    requires OnlyApplies(calls, payloads) && payload in payloads
    ensures var r := Exchange(a, x, payload, resetting, now, calls);
            && GuardInv(r.axis.guard) && Honest(r.axis.guard, r.reply) && ImageIn(r.reply).Some?
            && OnlyApplies(r.calls, payloads)
            && (r.axis.guard.phase == Faulted
                || (Exchanged(x, r, payload)
                    && |r.axis.guard.last| == |x.guard.last|
                    && r.axis.guard == Accept(x.guard, r.axis.guard.last, resetting)))
  {
    hide Detect, Accept, Word, Bit, GuardInv, Honest, ImageIn, Drive, Finish;
    var dt := if x.lastCycle.None? then FIRST_STEP else now - x.lastCycle.value;
    var y := x.(lastCycle := Some(now));
    InvIsReady(x.guard);
    if dt > MAX_GAP {
      FailIsHonest(x, ExecutionFailed, true, calls);
    } else {
      DriveShape(a, y, payload, dt, calls);
      match Drive(a, y, payload, dt, calls)
      case Ended(_) =>
      case Moved(z, made) =>
        FinishShape(a, z, true, resetting, made);
        if a.read(z.plant).Image? {
          AcceptedImage(x.guard, a.read(z.plant).data, resetting);
        }
    }
  }

  lemma InvIsReady(g: Guard)
    requires GuardInv(g)
    ensures |g.last| >= 2
  {
  }

  lemma AcceptedImage(g: Guard, output: Octets, resetting: bool)
    ensures |output| == |g.last| >= 2 ==> Accept(g, output, resetting).last == output
  {
  }

  /** The payloads a cycle may hand to the adapter, given the verdict. */
  function Forwards(verdict: Verdict): set<Octets> {
    match verdict
    case Block => {}
    case Forward(payload, resetting) =>
      if resetting && |payload| >= 2 then {payload, WithWord(0, payload)} else {payload}
  }

  /** A well-formed cycle either forwards what the interlock decided, or nothing. */
  lemma CycleShape<P>(a: Adapter<P>, x: Axis<P>, data: Octets, now: real)
    requires GuardInv(x.guard) && |data| == RX_SIZE
    ensures var r := DispatchCycle(a, x, Some(data), now);
            var (g, verdict) := Prepare(x.guard, data);
            && GuardInv(r.axis.guard) && Honest(r.axis.guard, r.reply) && ImageIn(r.reply).Some?
            && OnlyApplies(r.calls, Forwards(verdict))
            && (verdict == Block ==> r.calls == [] && r.axis.guard == g && r.axis.plant == x.plant)
            && (verdict.Forward? ==>
                  r.axis.guard.phase == Faulted
                  || (Exchanged(x, r, verdict.payload)
                      && |r.axis.guard.last| == |g.last|
                      && r.axis.guard == Accept(g, r.axis.guard.last, verdict.resetting)))
  {
    hide Detect, Accept, Word, Bit, Prepare, Exchange, Drive, Honest, ImageIn, GuardInv;
    PrepareKeepsInv(x.guard, data);
    InvIsReady(x.guard);
    var (g, verdict) := Prepare(x.guard, data);
    GuardedIsHonest(g);
    match verdict
    case Block =>
      GuardedHasImage(g);
    case Forward(payload, resetting) =>
      var x2 := x.(guard := g, lastCycle := if resetting then None else x.lastCycle);
      if resetting && g.fault.Some? && g.fault.value.code == AdapterFault {
        DisableShape(a, x2, payload, now);
      } else {
        ExchangeShape(a, x2, payload, resetting, now, [], Forwards(verdict));
      }
  }

  lemma GuardedHasImage(g: Guard)
    requires |g.last| >= 2
    ensures ImageIn(GuardedReply(g)).Some?
  {
  }

  lemma DisableShape<P>(a: Adapter<P>, x: Axis<P>, payload: Octets, now: real)
    requires GuardInv(x.guard) && |payload| >= 2
    requires x.guard.fault.Some? && x.guard.fault.value.acknowledged && !x.guard.restartRequired
    ensures var r := DisableFirst(a, x, payload, now);
            && GuardInv(r.axis.guard) && Honest(r.axis.guard, r.reply) && ImageIn(r.reply).Some?
            && OnlyApplies(r.calls, {payload, WithWord(0, payload)})
            && (r.axis.guard.phase == Faulted
                || (Exchanged(x, r, payload)
                    && |r.axis.guard.last| == |x.guard.last|
                    && r.axis.guard == Accept(x.guard, r.axis.guard.last, true)))
  {
    hide Detect, Accept, Word, Bit, Exchange, Drive, Honest, ImageIn, GuardInv;
    InvIsReady(x.guard);
    var disable := WithWord(0, payload);
    DriveShape(a, x, disable, DISABLE_STEP, []);
    match Drive(a, x, disable, DISABLE_STEP, [])
    case Ended(_) =>
    case Moved(y, made) =>
      ExchangeShape(a, y, payload, true, now, made, {payload, disable});
  }

  lemma ObjectKeepsInv<P>(a: Adapter<P>, x: Axis<P>, sdo: Sdo)
    requires GuardInv(x.guard)
    ensures var r := DispatchObject(a, x, sdo);
            && GuardInv(r.axis.guard) && ImageIn(r.reply).None?
            && (r.axis.guard == x.guard || r.axis.guard.phase == Faulted)
            && (x.guard.restartRequired ==> r.calls == [] && r.axis == x)
            && OnlyApplies(r.calls, {})
  {
    hide Detect, Word, Bit, ImageOf;
    DetectKeepsInv(x.guard, ExecutionFailed, true);
    DetectPhase(x.guard, ExecutionFailed, true);
  }

  lemma DetectPhase(g: Guard, code: Code, restart: bool)
    ensures Detect(g, code, restart).phase == Faulted
  {
  }

  /** Every request keeps the interlock consistent and answers honestly: a cycle or idle
      response shows the fault bit exactly when a fault is pending, which is exactly in
      the phases Faulted and VerifyReset. */
  lemma DispatchIsHonest<P>(a: Adapter<P>, x: Axis<P>, request: Request)
    requires GuardInv(x.guard)
    ensures var r := Dispatch(a, x, request);
            && GuardInv(r.axis.guard) && Honest(r.axis.guard, r.reply)
            && (request.Object? <==> ImageIn(r.reply).None?)
  {
    hide Detect, Accept, Word, Bit, Prepare, Exchange, Drive, Finish, GuardInv, DispatchObject;
    InvIsReady(x.guard);
    match request
    case Object(sdo) => ObjectKeepsInv(a, x, sdo);
    case Idle => IdleShape(a, x);
    case Cycle(payload, now) =>
      if payload.Some? && |payload.value| == RX_SIZE {
        CycleShape(a, x, payload.value, now);
      } else {
        FailIsHonest(x, ExecutionFailed, true, []);
        FailIsHonest(x, AdapterFault, false, []);
      }
  }

  lemma IdleShape<P>(a: Adapter<P>, x: Axis<P>)
    requires GuardInv(x.guard)
    ensures var r := DispatchIdle(a, x);
            && GuardInv(r.axis.guard) && Honest(r.axis.guard, r.reply) && ImageIn(r.reply).Some?
            && (x.guard.phase != Normal ==> r.axis.guard == x.guard && r.calls == [] && r.axis.plant == x.plant)
            && OnlyApplies(r.calls, {})
            && r.axis.guard.phase in {x.guard.phase, Faulted}
  {
    hide Detect, Word, Bit, Honest, ImageIn, GuardInv, Finish;
    InvIsReady(x.guard);
    GuardedIsHonest(x.guard);
    GuardedHasImage(x.guard);
    var y := x.(lastCycle := None);
    if x.guard.phase == Normal {
      NormalHasNoFault(x.guard);
      FinishShape(a, y, false, false, []);
      if a.read(x.plant).Image? {
        QuietAccept(x.guard, a.read(x.plant).data);
      }
    }
  }

  lemma NormalHasNoFault(g: Guard)
    requires GuardInv(g) && g.phase == Normal
    ensures g.fault.None?
  {
  }

  /** Accepting an image outside a reset never leaves the phase except into Faulted. */
  lemma QuietAccept(g: Guard, output: Octets)
    ensures |output| == |g.last| >= 2 ==> Accept(g, output, false).phase in {g.phase, Faulted}
  {
  }

  /** From a consistent start, every cycle and idle response of a run is honest. */
  lemma {:induction false} RunIsHonest<P>(a: Adapter<P>, x: Axis<P>, requests: seq<Request>)
    requires GuardInv(x.guard)
    ensures GuardInv(Run(a, x, requests).guard)
    ensures forall i :: 0 <= i < |requests| ==>
              var r := ResultAt(a, x, requests, i);
              Honest(r.axis.guard, r.reply)
    decreases |requests|
  {
    hide Dispatch, GuardInv, Honest;
    InvIsReady(x.guard);
    if requests != [] {
      var n := |requests| - 1;
      RunIsHonest(a, x, requests[..n]);
      DispatchIsHonest(a, Run(a, x, requests[..n]), requests[n]);
      forall i | 0 <= i < |requests|
        ensures var r := ResultAt(a, x, requests, i);
                Honest(r.axis.guard, r.reply)
      {
        if i < n {
          assert requests[..n][..i] == requests[..i];
          assert ResultAt(a, x, requests[..n], i) == ResultAt(a, x, requests, i);
        }
      }
    }
  }

  // ---- Restart latch ----

  /** A fault that needs a restart blocks the adapter for every request. */
  lemma RestartBlocks<P>(a: Adapter<P>, x: Axis<P>, request: Request)
    requires GuardInv(x.guard) && x.guard.restartRequired
    ensures var r := Dispatch(a, x, request);
            && r.calls == [] && r.axis.plant == x.plant
            && GuardInv(r.axis.guard) && r.axis.guard.restartRequired && r.axis.guard.phase == Faulted
  {
    hide Word, Bit, ImageOf, Drive, Finish, Exchange, DisableFirst;
    DispatchIsHonest(a, x, request);
  }

  /** Once latched, no sequence of requests ever reaches the adapter again. */
  lemma {:induction false} RestartIsForever<P>(a: Adapter<P>, x: Axis<P>, requests: seq<Request>)
    requires GuardInv(x.guard) && x.guard.restartRequired
    ensures var y := Run(a, x, requests);
            GuardInv(y.guard) && y.guard.restartRequired && y.guard.phase == Faulted && y.plant == x.plant
    ensures forall i :: 0 <= i < |requests| ==> ResultAt(a, x, requests, i).calls == []
    decreases |requests|
  {
    hide Dispatch;
    if requests != [] {
      var n := |requests| - 1;
      RestartIsForever(a, x, requests[..n]);
      RestartBlocks(a, Run(a, x, requests[..n]), requests[n]);
      forall i | 0 <= i < n
        ensures ResultAt(a, x, requests, i).calls == []
      {
        assert requests[..n][..i] == requests[..i];
        assert ResultAt(a, x, requests[..n], i) == ResultAt(a, x, requests, i);
      }
    }
  }

  // ---- The grammar of recovery ----

  function Rank(phase: Phase): nat {
    match phase
    case Faulted => 0
    case VerifyReset => 1
    case Shutdown => 2
    case SwitchOn => 3
    case Enable => 4
    case Normal => 5
  }

  /** The request that takes recovery from one rank to the next. */
  predicate Climbs<P>(rank: nat, x: Axis<P>, request: Request, r: Result<P>) {
    && request.Cycle? && request.payload.Some? && |request.payload.value| == RX_SIZE
    && var data := request.payload.value;
       var cw := Word(data);
       match rank
       case 0 =>   // a rising reset bit, forwarded alone, answered without fault
         Bit(cw, RESET_BIT) && !Bit(x.guard.previousCw, RESET_BIT) && Exchanged(x, r, WithWord(RESET_BIT, data))
       case 1 =>   // reset released, every bit masked, answered without fault
         !Bit(cw, RESET_BIT) && Exchanged(x, r, WithWord(0, data))
       case 2 => cw & 0x008f == 0x0006 && Exchanged(x, r, data)
       case 3 => cw & 0x008f == 0x0007 && Exchanged(x, r, data)
       case 4 => cw & 0x008f == 0x000f && !Bit(cw, 0x0010) && data[2] == 1 && Exchanged(x, r, data)
       case _ => false
  }

  lemma VerdictClimbs(g: Guard, data: Octets)
    requires GuardInv(g) && |data| == RX_SIZE && g.phase != Normal
    ensures var (h, verdict) := Prepare(g, data);
            && (Rank(g.phase) >= 2 ==>
                  (h.phase == g.phase && verdict == Block)
                  || (Rank(h.phase) == Rank(g.phase) + 1 && verdict == Forward(data, false)
                      && h.fault.None?
                      && match Rank(g.phase)
                         case 2 => Word(data) & 0x008f == 0x0006
                         case 3 => Word(data) & 0x008f == 0x0007
                         case _ => Word(data) & 0x008f == 0x000f && !Bit(Word(data), 0x0010) && data[2] == 1))
            && (Rank(g.phase) < 2 ==> h.phase == g.phase)
            && (Rank(g.phase) == 1 && verdict.Forward? ==>
                  !Bit(Word(data), RESET_BIT) && verdict == Forward(WithWord(0, data), true))
            && (Rank(g.phase) == 0 && verdict.Forward? && verdict.resetting ==>
                  Bit(Word(data), RESET_BIT) && !Bit(g.previousCw, RESET_BIT)
                  && verdict.payload == WithWord(RESET_BIT, data))
  {
    hide Word, Bit, WithWord;
  }

  lemma AcceptClimbs(g: Guard, output: Octets, resetting: bool)
    requires GuardInv(g) && |output| == |g.last|
    ensures var h := Accept(g, output, resetting);
            h.phase == Faulted || h.phase == g.phase
            || (resetting && Rank(h.phase) == Rank(g.phase) + 1 && g.phase in {Faulted, VerifyReset})
  {
    hide Word, Bit;
  }

  /** A request outside normal falls back to Faulted, keeps the rank, or climbs one rank
      with exactly the request that rank asks for. */
  lemma OneRankAtATime<P>(a: Adapter<P>, x: Axis<P>, request: Request)
    requires GuardInv(x.guard) && x.guard.phase != Normal
    ensures var r := Dispatch(a, x, request);
            var before, after := Rank(x.guard.phase), Rank(r.axis.guard.phase);
            after == 0 || after == before || (after == before + 1 && Climbs(before, x, request, r))
  {
    hide Detect, Accept, Word, Bit, Prepare, Exchange, Drive, Finish, GuardInv, DispatchObject, WithWord, Exchanged;
    InvIsReady(x.guard);
    match request
    case Object(sdo) => ObjectKeepsInv(a, x, sdo);
    case Idle => IdleShape(a, x);
    case Cycle(payload, now) =>
      if payload.Some? && |payload.value| == RX_SIZE {
        var data := payload.value;
        CycleShape(a, x, data, now);
        PrepareKeepsInv(x.guard, data);
        VerdictClimbs(x.guard, data);
        var (g, verdict) := Prepare(x.guard, data);
        var r := DispatchCycle(a, x, payload, now);
        if verdict.Forward? && r.axis.guard.phase != Faulted {
          AcceptClimbs(g, r.axis.guard.last, verdict.resetting);
        }
      } else {
        FailIsHonest(x, ExecutionFailed, true, []);
        FailIsHonest(x, AdapterFault, false, []);
      }
  }

  /** The i-th request of the run climbs from the given rank. */
  predicate ClimbedAt<P>(a: Adapter<P>, x: Axis<P>, requests: seq<Request>, rank: nat, i: nat)
    requires Ready(x)
  {
    i < |requests| && Climbs(rank, Run(a, x, requests[..i]), requests[i], ResultAt(a, x, requests, i))
  }

  /** Strictly increasing positions of requests that climb rank after rank. */
  predicate ClimbAt<P>(a: Adapter<P>, x: Axis<P>, requests: seq<Request>, at: seq<nat>)
    requires Ready(x)
  {
    && (forall k :: 0 <= k < |at| ==> ClimbedAt(a, x, requests, k, at[k]))
    && (forall i, k :: 0 <= i < k < |at| ==> at[i] < at[k])
  }

  lemma ClimbedBefore<P>(a: Adapter<P>, x: Axis<P>, requests: seq<Request>, n: nat, rank: nat, i: nat)
    requires Ready(x) && n <= |requests|
    requires ClimbedAt(a, x, requests[..n], rank, i)
    ensures i < n && ClimbedAt(a, x, requests, rank, i)
  {
    hide Climbs, Dispatch;
    assert requests[..n][..i] == requests[..i];
  }

  /** The run has not been back to normal before its end. */
  predicate NotNormalBefore<P>(a: Adapter<P>, x: Axis<P>, requests: seq<Request>)
    requires Ready(x)
  {
    forall i :: 0 <= i < |requests| ==> Run(a, x, requests[..i]).guard.phase != Normal
  }

  /** Recovery over a whole run, for any adapter: a phase of some rank was reached only
      through the requests of all lower ranks, in order. In particular normal operation
      resumes only after a rising reset answered without fault, a released reset answered
      without fault, Shutdown, Switch On, and Enable with bit 4 low in mode 1. */
  lemma {:induction false} RecoveryGrammar<P>(a: Adapter<P>, x: Axis<P>, requests: seq<Request>) returns (at: seq<nat>)
    requires GuardInv(x.guard) && x.guard.phase == Faulted
    requires NotNormalBefore(a, x, requests)
    ensures GuardInv(Run(a, x, requests).guard)
    ensures |at| == Rank(Run(a, x, requests).guard.phase)
    ensures ClimbAt(a, x, requests, at)
    decreases |requests|
  {
    hide Dispatch, GuardInv, Climbs, ClimbedAt;
    InvIsReady(x.guard);
    if requests == [] {
      return [];
    }
    var n := |requests| - 1;
    PrefixNotNormal(a, x, requests, n);
    at := RecoveryGrammar(a, x, requests[..n]);
    ExtendClimb(a, x, requests, at);
    var rank := Rank(Run(a, x, requests).guard.phase);
    at := if rank > |at| then at + [n] else at[..rank];
  }

  lemma PrefixNotNormal<P>(a: Adapter<P>, x: Axis<P>, requests: seq<Request>, n: nat)
    requires Ready(x) && n < |requests| && NotNormalBefore(a, x, requests)
    ensures NotNormalBefore(a, x, requests[..n]) && Run(a, x, requests[..n]).guard.phase != Normal
  {
    hide Dispatch;
    forall i | 0 <= i < n
      ensures Run(a, x, requests[..n][..i]).guard.phase != Normal
    {
      assert requests[..n][..i] == requests[..i];
    }
  }

  /** The last request keeps the climb so far and moves by at most one rank. */
  lemma ExtendClimb<P>(a: Adapter<P>, x: Axis<P>, requests: seq<Request>, at: seq<nat>)
    requires Ready(x) && requests != []
    requires var y := Run(a, x, requests[..|requests| - 1]);
             GuardInv(y.guard) && y.guard.phase != Normal && |at| == Rank(y.guard.phase)
    requires ClimbAt(a, x, requests[..|requests| - 1], at)
    ensures var n, rank := |requests| - 1, Rank(Run(a, x, requests).guard.phase);
            && GuardInv(Run(a, x, requests).guard)
            && (forall k :: 0 <= k < |at| ==> at[k] < n && ClimbedAt(a, x, requests, k, at[k]))
            && (rank <= |at| || (rank == |at| + 1 && ClimbedAt(a, x, requests, |at|, n)))
  {
    hide Dispatch, GuardInv, Climbs;
    var n := |requests| - 1;
    var y := Run(a, x, requests[..n]);
    OneRankAtATime(a, y, requests[n]);
    DispatchIsHonest(a, y, requests[n]);
    forall k | 0 <= k < |at|
      ensures at[k] < n && ClimbedAt(a, x, requests, k, at[k])
    {
      ClimbedBefore(a, x, requests, n, k, at[k]);
    }
  }

  /** Not Enable Operation together with bit 4. */
  predicate Harmless(payload: Octets) {
    |payload| >= 2 && !(Word(payload) & 0x000f == 0x000f && Bit(Word(payload), 0x0010))
  }

  /** A cycle begun outside normal never hands Enable Operation together with bit 4 to
      the adapter. */
  lemma NoEnableWithBit4<P>(a: Adapter<P>, x: Axis<P>, request: Request, i: nat)
    requires GuardInv(x.guard) && x.guard.phase != Normal
    requires var r := Dispatch(a, x, request); i < |r.calls| && r.calls[i].ApplyOutputs?
    ensures Harmless(Dispatch(a, x, request).calls[i].payload)
  {
    hide Detect, Accept, Bit, Exchange, Drive, Finish, DispatchObject, Prepare;
    InvIsReady(x.guard);
    match request
    case Object(sdo) => ObjectKeepsInv(a, x, sdo);
    case Idle => IdleShape(a, x);
    case Cycle(payload, now) =>
      if payload.Some? && |payload.value| == RX_SIZE {
        var data := payload.value;
        CycleShape(a, x, data, now);
        ForwardedIsHarmless(x.guard, data);
      }
  }

  lemma ForwardedIsHarmless(g: Guard, data: Octets)
    requires GuardInv(g) && |data| == RX_SIZE && g.phase != Normal
    ensures forall p :: p in Forwards(Prepare(g, data).1) ==> Harmless(p)
  {
    hide Word, Bit;
    PrepareKeepsInv(g, data);
    VerdictClimbs(g, data);
    MaskedIsHarmless(Word(data));
    WithWordReads(0, data);
    WithWordReads(RESET_BIT, data);
    ConstantsAreHarmless();
    var verdict := Prepare(g, data).1;
    if verdict.Forward? {
      WithWordReads(0, verdict.payload);
      if g.phase == Faulted {
        FaultedForwards(g, data);
      }
    }
  }

  lemma FaultedForwards(g: Guard, data: Octets)
    requires |data| > 2 && g.phase == Faulted && Prepare(g, data).1.Forward?
    ensures Prepare(g, data).1.payload in {WithWord(0, data), WithWord(RESET_BIT, data)}
  {
    hide Word, Bit, WithWord;
  }

  lemma MaskedIsHarmless(cw: bv16)
    ensures cw & 0x008f == 0x0006 || cw & 0x008f == 0x0007 ==> cw & 0x000f != 0x000f
  {
  }

  lemma ConstantsAreHarmless()
    ensures (0 as bv16) & 0x000f != 0x000f && RESET_BIT & 0x000f != 0x000f
  {
  }
}
