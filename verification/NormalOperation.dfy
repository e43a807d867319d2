/** The positive half of the axis: in normal operation the adapter gets the master's own
    outputs, the master gets the adapter's own image, and a run of such cycles drives the
    servo exactly as the decoded process data says. */
module NormalOperation {
  import opened Words
  import opened Wrappers
  import opened FaultGuard
  import opened AxisRuntime
  import opened Recovery
  import opened Codec
  import opened FKrAdapter
  import opened FKrAxis
  import S = ServoSpec
  import I = ServoInvariants
  import P = PointToPoint
  import R = Reals

  // ---- Any adapter ----

  /** The time between two cycles; the first counts as a hundredth of a second. */
  function Gap(last: Option<real>, now: real): real {
    if last.None? then 0.01 else now - last.value
  }

  /** Octet 0 of an image holds the fault bit of its statusword. */
  predicate FaultFree(image: Octets) {
    |image| >= 2 && image[0] & 0x08 == 0
  }

  lemma FaultFreeWord(image: Octets)
    requires |image| >= 2
    ensures FaultFree(image) <==> !Bit(Word(image), FAULT_BIT)
  {
    var low, high := image[0], image[1];
    assert ((low as bv16) | ((high as bv16) << 8)) & 0x0008 == (low as bv16) & 0x0008;
    assert (low as bv16) & 0x0008 == (low & 0x08) as bv16;
  }

  /** Every call of a cycle succeeds and ends with this plant and this image. */
  predicate Works<P(==)>(a: Adapter<P>, p: P, payload: Octets, dt: real, q: P, image: Octets) {
    && a.apply(p, payload).Done?
    && a.step(a.apply(p, payload).plant, dt).Done?
    && a.read(a.step(a.apply(p, payload).plant, dt).plant) == Image(q, image)
  }

  /** The axis after a healthy request, with the image as its last one. */
  predicate Proceeds<P(==)>(x: Axis<P>, y: Axis<P>, q: P, image: Octets, last: Option<real>) {
    && y.plant == q && y.lastCycle == last && y.guard.last == image && y.guard.feedbackValid
    && y.guard.phase == Normal && y.guard.fault == None && !y.guard.restartRequired
  }

  /** A cycle in normal operation that nothing stops hands the adapter the master's own
      octets, steps it once by the elapsed time, reads it once, and publishes its image. */
  lemma NormalCycle<P>(a: Adapter<P>, x: Axis<P>, payload: Octets, now: real, q: P, image: Octets)
    requires GuardInv(x.guard) && x.guard.phase == Normal && |payload| == 24 && Gap(x.lastCycle, now) <= 0.1
    requires Works(a, x.plant, payload, Gap(x.lastCycle, now), q, image)
    requires |image| == |x.guard.last| && FaultFree(image)
    ensures var r := Dispatch(a, x, Cycle(Some(payload), now));
            && r.calls == [ApplyOutputs(payload), StepModel(Gap(x.lastCycle, now)), ReadInputs]
            && r.reply == Published(image)
            && Proceeds(x, r.axis, q, image, Some(now)) && r.axis.cycles == x.cycles + 1
  {
    hide Word, Bit;
    FaultFreeWord(image);
  }

  /** What a pending fault looks like from outside: the guarded image, its cause, and no
      feedback unless the drive reported the fault itself. */
  predicate Faults<P>(r: Result<P>, code: Code, restart: bool, calls: seq<Call>) {
    && r.calls == calls && r.axis.guard.phase == Faulted && r.axis.guard.restartRequired == restart
    && r.axis.guard.fault == Some(Diagnostic(code, false, restart))
    && r.reply.Guarded? && r.reply.fault == r.axis.guard.fault && r.reply.restartRequired == restart
    && r.reply.feedbackValid == (code == DriveFault)
  }

  /** Anything that goes wrong in a cycle of normal operation stops it there: no later call
      is made, and the fault that becomes pending tells what happened. */
  lemma NormalCycleFails<P>(a: Adapter<P>, x: Axis<P>, payload: Option<Octets>, now: real)
    requires GuardInv(x.guard) && x.guard.phase == Normal
    ensures var r, dt := Dispatch(a, x, Cycle(payload, now)), Gap(x.lastCycle, now);
            if payload.None? then Faults(r, ExecutionFailed, true, [])
            else if |payload.value| != 24 then Faults(r, AdapterFault, false, [])
            else if dt > 0.1 then Faults(r, ExecutionFailed, true, [])
            else
              var apply, step := ApplyOutputs(payload.value), StepModel(dt);
              match a.apply(x.plant, payload.value)
              case Rejected(p) => Faults(r, AdapterFault, false, [apply]) && r.axis.plant == p
              case Crashed(p) => Faults(r, ExecutionFailed, true, [apply]) && r.axis.plant == p
              case Done(p) =>
                match a.step(p, dt)
                case Rejected(q) => Faults(r, AdapterFault, false, [apply, step]) && r.axis.plant == q
                case Crashed(q) => Faults(r, ExecutionFailed, true, [apply, step]) && r.axis.plant == q
                case Done(q) =>
                  match a.read(q)
                  case ReadRejected(t) => Faults(r, AdapterFault, false, [apply, step, ReadInputs]) && r.axis.plant == t
                  case ReadCrashed(t) => Faults(r, ExecutionFailed, true, [apply, step, ReadInputs]) && r.axis.plant == t
                  case Image(t, image) =>
                    && r.axis.plant == t
                    && (|image| != |x.guard.last| ==> Faults(r, OutputInvalid, true, [apply, step, ReadInputs]))
                    && (|image| == |x.guard.last| && !FaultFree(image) ==>
                          Faults(r, DriveFault, false, [apply, step, ReadInputs]) && r.axis.guard.last == image)
  {
    hide Word, Bit, ImageOf, Finish, Detect, FaultFree, Faults;
    DetectShows(x, x.plant, []);
    if payload.Some? && |payload.value| == 24 {
      var dt := Gap(x.lastCycle, now);
      if dt <= 0.1 {
        var y := x.(guard := x.guard.(previousCw := Word(payload.value)), lastCycle := Some(now));
        var apply, step := ApplyOutputs(payload.value), StepModel(dt);
        assert [] + [apply] == [apply] && [apply] + [step] == [apply, step];
        assert [apply, step] + [ReadInputs] == [apply, step, ReadInputs];
        var applied := a.apply(x.plant, payload.value);
        DetectShows(y, applied.plant, [apply]);
        if applied.Done? {
          var stepped := a.step(applied.plant, dt);
          DetectShows(y, stepped.plant, [apply, step]);
          if stepped.Done? {
            ReadFails(a, y.(plant := stepped.plant), [apply, step]);
          }
        }
      } else {
        DetectShows(x.(guard := x.guard.(previousCw := Word(payload.value))), x.plant, []);
      }
    }
  }

  /** A failure out of normal operation. */
  lemma DetectShows<P>(x: Axis<P>, p: P, calls: seq<Call>)
    requires |x.guard.last| >= 2 && x.guard.phase == Normal && x.guard.fault.None? && !x.guard.restartRequired
    ensures Faults(Rejection(x, p, calls), AdapterFault, false, calls) && Rejection(x, p, calls).axis.plant == p
    ensures Faults(Crash(x, p, calls), ExecutionFailed, true, calls) && Crash(x, p, calls).axis.plant == p
    ensures Faults(Fail(x, OutputInvalid, true, calls), OutputInvalid, true, calls)
    ensures Faults(Fail(x, AdapterFault, false, calls), AdapterFault, false, calls)
    ensures Faults(Fail(x, ExecutionFailed, true, calls), ExecutionFailed, true, calls)
  {
    hide Word, Bit, ImageOf;
  }

  /** Reading in normal operation fails with the adapter, with an image of the wrong length,
      or with the fault the drive reports. */
  lemma ReadFails<P>(a: Adapter<P>, x: Axis<P>, calls: seq<Call>)
    requires |x.guard.last| >= 2 && x.guard.phase == Normal && x.guard.fault.None? && !x.guard.restartRequired
    ensures var r, made := Finish(a, x, true, false, calls), calls + [ReadInputs];
            match a.read(x.plant)
            case ReadRejected(t) => Faults(r, AdapterFault, false, made) && r.axis.plant == t
            case ReadCrashed(t) => Faults(r, ExecutionFailed, true, made) && r.axis.plant == t
            case Image(t, image) =>
              && r.axis.plant == t
              && (|image| != |x.guard.last| ==> Faults(r, OutputInvalid, true, made))
              && (|image| == |x.guard.last| && !FaultFree(image) ==>
                    Faults(r, DriveFault, false, made) && r.axis.guard.last == image)
  {
    hide Word, Bit, ImageOf, FaultFree;
    if a.read(x.plant).Image? && |a.read(x.plant).data| == |x.guard.last| {
      FaultFreeWord(a.read(x.plant).data);
    }
  }

  /** An idle request in normal operation reads once and publishes; the next cycle counts as
      a first one. */
  lemma NormalIdle<P>(a: Adapter<P>, x: Axis<P>, q: P, image: Octets)
    requires GuardInv(x.guard) && x.guard.phase == Normal && a.read(x.plant) == Image(q, image)
    requires |image| == |x.guard.last| && FaultFree(image)
    ensures var r := Dispatch(a, x, Idle);
            && r.calls == [ReadInputs] && r.reply == Published(image)
            && Proceeds(x, r.axis, q, image, None) && r.axis.cycles == x.cycles
  {
    hide Word, Bit;
    FaultFreeWord(image);
  }

  /** As long as no restart is required every object access but the guarded statusword
      reaches the adapter, once, and its answer the master. */
  lemma ObjectIsServed<P>(a: Adapter<P>, x: Axis<P>, sdo: Sdo)
    requires GuardInv(x.guard) && !x.guard.restartRequired
    requires x.guard.phase == Normal || !sdo.ReadObject? || sdo.index != 0x6041 || sdo.subindex != 0
    ensures var r := Dispatch(a, x, Object(sdo));
            && r.calls == [AccessObject(sdo)] && r.axis.plant == a.access(x.plant, sdo).plant
            && r.axis.lastCycle == x.lastCycle
            && match a.access(x.plant, sdo)
               case Data(_, data) =>
                 r.axis.guard == x.guard && r.reply == (if sdo.ReadObject? then ObjectData(data) else ObjectDone)
               case Refused(_) => r.axis.guard == x.guard && r.reply == Raised
               case StorageError(_) =>
                 if sdo.WriteObject? && sdo.index == 0x2005 && sdo.subindex == 1
                 then r.axis.guard == x.guard && r.reply == Raised
                 else r.axis.guard.restartRequired && r.reply == Abort(0x0800_0000)
               case Broken(_) => r.axis.guard.restartRequired && r.reply == Abort(0x0800_0000)
  {
    hide Word, Bit, ImageOf;
  }

  // ---- Runs of the F-KR axis ----

  /** When the last cycle was, if it counts. */
  function LastCycle(last: Option<real>, requests: seq<Request>): Option<real>
    decreases |requests|
  {
    if requests == [] then last
    else
      match requests[|requests| - 1]
      case Cycle(_, now) => Some(now)
      case Idle => None
      case Object(_) => LastCycle(last, requests[..|requests| - 1])
  }

  /** The request is this event for a servo in state s: a cycle in time with a supported
      mode, after which the process image can be encoded, or an accepted SDO write. */
  predicate Commands(c: Catalog, s: S.Servo, last: Option<real>, request: Request, e: S.Event) {
    e.Valid() &&
    match request
    case Cycle(payload, now) =>
      && payload.Some? && |payload.value| == 24 && Supported(DecodeRx(payload.value).mode)
      && e == S.Cycle(DecodeRx(payload.value), Gap(last, now)) && Gap(last, now) <= 0.1
      && EncodeTx(S.Step(s, e).od.tx).Some?
    case Object(sdo) => sdo.WriteObject? && e.Sdo? && c(s, sdo) == Writes(e.write)
    case Idle => false
  }

  /** Each request of a run is the event at its place. */
  predicate CommandsAlong(c: Catalog, s: S.Servo, last: Option<real>, requests: seq<Request>, events: seq<S.Event>)
    requires S.AllValid(events)
    decreases |events|
  {
    |requests| == |events| &&
    (events != [] ==>
       var n := |events| - 1;
       && CommandsAlong(c, s, last, requests[..n], events[..n])
       && Commands(c, S.Run(s, events[..n]), LastCycle(last, requests[..n]), requests[n], events[n]))
  }

  /** What the master gets for an event that led to this servo. */
  function ReplyTo(e: S.Event, t: S.Servo): Reply {
    if e.Sdo? then ObjectDone
    else if EncodeTx(t.od.tx).Some? then Published(EncodeTx(t.od.tx).value) else Raised
  }

  /** One such request in normal operation is one such event of the servo. */
  lemma CommandIsEvent(c: Catalog, x: Axis<S.Servo>, request: Request, e: S.Event)
    requires Safe(x) && x.guard.phase == Normal && Commands(c, x.plant, x.lastCycle, request, e)
    ensures var r, t := Dispatch(FKr(c), x, request), S.Step(x.plant, e);
            && Safe(r.axis) && r.axis.guard.phase == Normal && r.axis.plant == t
            && r.axis.lastCycle == (if request.Cycle? then Some(request.now) else x.lastCycle)
            && r.reply == ReplyTo(e, t)
  {
    hide EncodeTx, DecodeRx, Value, S.ModelUpdate, S.WriteSdo, I.Inv, Word, Bit, OnlyRejections, FaultFree;
    RequestKeepsSafe(c, x, request);
    match request
    case Object(sdo) => ObjectIsServed(FKr(c), x, sdo);
    case Cycle(payload, now) =>
      var t := S.Step(x.plant, e);
      var image := EncodeTx(t.od.tx).value;
      UpdateFollowsWord(x.plant, payload.value, e.dt);
      StatusHasNoFault(t);
      ImageTellsTx(t.od.tx);
      FaultFreeWord(image);
      ModeIsRead(payload.value);
      NormalCycle(FKr(c), x, payload.value, now, t, image);
  }

  lemma ModeIsRead(payload: Octets)
    requires |payload| == 24
    ensures DecodeRx(payload).mode == Value(INT8, payload[2..3])
  {
  }

  lemma RunLast(s: S.Servo, events: seq<S.Event>)
    requires S.AllValid(events) && events != []
    ensures S.Run(s, events) == S.Step(S.Run(s, events[..|events| - 1]), events[|events| - 1])
    decreases |events|
  {
    hide S.Step;
    if |events| > 1 {
      var rest := events[1..];
      RunLast(S.Step(s, events[0]), rest);
      assert rest[..|rest| - 1] == events[..|events| - 1][1..];
    }
  }

  /** A run of cycles in time and of accepted SDO writes is a run of the servo: it ends in
      normal operation with the servo that the decoded process data gives. */
  lemma {:induction false} NormalRun(c: Catalog, x: Axis<S.Servo>, requests: seq<Request>, events: seq<S.Event>)
    requires Safe(x) && x.guard.phase == Normal && S.AllValid(events)
    requires CommandsAlong(c, x.plant, x.lastCycle, requests, events)
    ensures var y := Run(FKr(c), x, requests);
            && Safe(y) && y.guard.phase == Normal && y.plant == S.Run(x.plant, events)
            && y.lastCycle == LastCycle(x.lastCycle, requests)
    decreases |events|
  {
    hide Dispatch, S.Step, Commands, Safe;
    SafeIsReady(x);
    if events != [] {
      var n := |events| - 1;
      NormalRun(c, x, requests[..n], events[..n]);
      RunLast(x.plant, events);
      CommandIsEvent(c, Run(FKr(c), x, requests[..n]), requests[n], events[n]);
      CommandIsCycle(c, S.Run(x.plant, events[..n]), LastCycle(x.lastCycle, requests[..n]), requests[n], events[n]);
    }
  }

  lemma CommandIsCycle(c: Catalog, s: S.Servo, last: Option<real>, request: Request, e: S.Event)
    requires Commands(c, s, last, request, e)
    ensures !request.Idle?
  {
  }

  lemma {:induction false} CommandsPrefix(c: Catalog, s: S.Servo, last: Option<real>, requests: seq<Request>,
                                          events: seq<S.Event>, n: nat)
    requires S.AllValid(events) && n <= |events| && CommandsAlong(c, s, last, requests, events)
    ensures |requests| == |events| && CommandsAlong(c, s, last, requests[..n], events[..n])
    decreases |events|
  {
    hide Commands;
    if n < |events| {
      var m := |events| - 1;
      CommandsPrefix(c, s, last, requests[..m], events[..m], n);
      assert requests[..m][..n] == requests[..n] && events[..m][..n] == events[..n];
    } else {
      assert requests[..n] == requests && events[..n] == events;
    }
  }

  /** Every reply of such a run: a cycle publishes the image of the servo right after it, an
      SDO write is confirmed. */
  lemma NormalReplies(c: Catalog, x: Axis<S.Servo>, requests: seq<Request>, events: seq<S.Event>, i: nat)
    requires Safe(x) && x.guard.phase == Normal && S.AllValid(events) && i < |requests|
    requires CommandsAlong(c, x.plant, x.lastCycle, requests, events)
    ensures |events| == |requests|
    ensures var t, reply := S.Run(x.plant, events[..i + 1]), ResultAt(FKr(c), x, requests, i).reply;
            if events[i].Sdo? then requests[i].Object? && reply == ObjectDone
            else
              && Commands(c, S.Run(x.plant, events[..i]), LastCycle(x.lastCycle, requests[..i]), requests[i], events[i])
              && EncodeTx(t.od.tx).Some? && reply == Published(EncodeTx(t.od.tx).value)
  {
    hide Dispatch, S.Step, Safe, EncodeTx;
    SafeIsReady(x);
    CommandsPrefix(c, x.plant, x.lastCycle, requests, events, i + 1);
    assert requests[..i + 1][..i] == requests[..i] && events[..i + 1][..i] == events[..i];
    NormalRun(c, x, requests[..i], events[..i]);
    RunLast(x.plant, events[..i + 1]);
    CommandIsEvent(c, Run(FKr(c), x, requests[..i]), requests[i], events[i]);
    CommandEncodes(c, S.Run(x.plant, events[..i]), LastCycle(x.lastCycle, requests[..i]), requests[i], events[i]);
  }

  lemma CommandEncodes(c: Catalog, s: S.Servo, last: Option<real>, request: Request, e: S.Event)
    requires Commands(c, s, last, request, e)
    ensures if e.Sdo? then request.Object? else EncodeTx(S.Step(s, e).od.tx).Some?
  {
  }

  // ---- A positioning move over the wire ----

  /** From the request with the set-point edge to the request with which the move is over. */
  predicate WireMove(s: S.Servo, events: seq<S.Event>, profileVelocity: real, dtMin: real)
    requires S.AllValid(events)
  {
    && events != [] && P.InPp(s) && I.Rest(s) && P.NewSetPoint(s, events[0], profileVelocity)
    && profileVelocity > 0.0 && s.od.config.acceleration > 0.0
    && P.HeldAlong(S.Step(s, events[0]), events[1..], profileVelocity, dtMin)
    && |events| - 1 >= P.CycleBound(S.Step(s, events[0]), profileVelocity, dtMin)
  }

  /** A master that sends a new set-point and then holds its command gets the axis to the
      32-bit target it sent, and reads exactly this target back as the actual position. */
  lemma MoveOverTheWire(c: Catalog, x: Axis<S.Servo>, requests: seq<Request>, events: seq<S.Event>,
                        profileVelocity: real, dtMin: real)
    requires Safe(x) && x.guard.phase == Normal && S.AllValid(events)
    requires CommandsAlong(c, x.plant, x.lastCycle, requests, events)
    requires WireMove(x.plant, events, profileVelocity, dtMin)
    ensures |requests| > 0 && requests[0].Cycle? && requests[0].payload.Some? && |requests[0].payload.value| == 24
    ensures var y, target := Run(FKr(c), x, requests), Decode(INT32, requests[0].payload.value[3..7]);
            var reply := ResultAt(FKr(c), x, requests, |requests| - 1).reply;
            && target.Some? && y.plant.axis == S.Axis(target.value as real, 0.0) && !y.plant.pp.active
            && reply.Published? && |reply.data| >= 3 && Decode(INT32, reply.data[3..]) == target
  {
    hide Dispatch, S.Step, S.Run, Safe, EncodeTx, Decode, P.CycleBound, P.HeldAlong, Commands, CommandsAlong,
         P.InPp, P.NewSetPoint, I.Rest, DecodeRx, ReplyTo, LastCycle;
    var n := |events| - 1;
    SafeIsReady(x);
    SetPointIsCycle(x.plant, events[0], profileVelocity);
    CommandsPrefix(c, x.plant, x.lastCycle, requests, events, 1);
    FirstCommand(c, x.plant, x.lastCycle, requests, events);
    NormalRun(c, x, requests, events);
    P.SetPointArrives(x.plant, events[0], events[1..], profileVelocity, dtMin);
    RunFirst(x.plant, events);
    HeldIsCycle(x.plant, events, profileVelocity, dtMin);
    NormalReplies(c, x, requests, events, n);
    assert events[..n + 1] == events;
    var y := Run(FKr(c), x, requests);
    ImageTellsTx(y.plant.od.tx);
    SafeReports(y);
    TargetIsRead(requests[0].payload.value, events[0].pdo.target);
  }

  lemma FirstCommand(c: Catalog, s: S.Servo, last: Option<real>, requests: seq<Request>, events: seq<S.Event>)
    requires S.AllValid(events) && events != [] && events[0].Cycle? && |requests| == |events|
    requires CommandsAlong(c, s, last, requests[..1], events[..1])
    ensures requests[0].Cycle? && requests[0].payload.Some? && |requests[0].payload.value| == 24
    ensures events[0].pdo == DecodeRx(requests[0].payload.value)
  {
    hide DecodeRx, EncodeTx, S.Step;
    assert requests[..1][0] == requests[0] && events[..1][0] == events[0];
  }

  lemma SetPointIsCycle(s: S.Servo, e: S.Event, profileVelocity: real)
    requires P.NewSetPoint(s, e, profileVelocity)
    ensures e.Cycle?
  {
  }

  lemma RunFirst(s: S.Servo, events: seq<S.Event>)
    requires S.AllValid(events) && events != []
    ensures S.Run(s, events) == S.Run(S.Step(s, events[0]), events[1..])
  {
  }

  lemma SafeReports(x: Axis<S.Servo>)
    requires Safe(x)
    ensures x.plant.od.tx.position == x.plant.axis.position
  {
  }

  lemma TargetIsRead(payload: Octets, target: real)
    requires |payload| == 24 && DecodeRx(payload).target == target
    ensures Decode(INT32, payload[3..7]) == Some(R.Trunc(target)) && R.Trunc(target) as real == target
  {
    hide FromLittleEndian, TwosComplement, Word;
    assert payload[3..7][..4] == payload[3..7];
    IntegersAreKept(Value(INT32, payload[3..7]));
  }

  lemma IntegersAreKept(n: int)
    ensures R.Trunc(n as real) == n
  {
  }

  lemma {:induction false} HeldIsCycle(s: S.Servo, events: seq<S.Event>, profileVelocity: real, dtMin: real)
    requires S.AllValid(events) && events != [] && events[0].Cycle?
    requires P.HeldAlong(S.Step(s, events[0]), events[1..], profileVelocity, dtMin)
    ensures events[|events| - 1].Cycle?
    decreases |events|
  {
    hide S.Step;
    if |events| > 1 {
      HeldIsCycle(S.Step(s, events[0]), events[1..], profileVelocity, dtMin);
    }
  }
}
