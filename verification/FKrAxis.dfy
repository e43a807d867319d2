/** One axis end to end: the F-KR servo behind the fault interlock. During recovery the
    state machine of the servo is never further along than the phase of the interlock,
    so the axis stands still and no response shows Operation Enabled. */
module FKrAxis {
  import opened Words
  import opened Wrappers
  import opened FaultGuard
  import opened AxisRuntime
  import opened Recovery
  import opened Codec
  import opened FKrAdapter
  import S = ServoSpec
  import I = ServoInvariants
  import M = StateMachine

  /** What the dictionary makes of an SDO request: an accepted write, an answer, or one of
      the failures. Any such decoding is allowed. */
  datatype Effect = Writes(write: S.SdoWrite) | Returns(data: Octets) | Refuses | FailsToSave | Breaks

  type Catalog = (S.Servo, Sdo) -> Effect

  function Access(catalog: Catalog, s: S.Servo, sdo: Sdo): AxisRuntime.Access<S.Servo> {
    match catalog(s, sdo)
    case Writes(w) => Data(S.WriteSdo(s, w), [])
    case Returns(data) => Data(s, data)
    case Refuses => Refused(s)
    case FailsToSave => StorageError(s)
    case Breaks => Broken(s)
  }

  function FKr(catalog: Catalog): Adapter<S.Servo> {
    Adapter(Apply, Advance, FKrAdapter.ReadInputs, (s, sdo) => Access(catalog, s, sdo))
  }

  // ---- The invariant of the composition ----

  /** The highest rung the state machine may stand on in each phase. */
  function Bound(phase: Phase): nat {
    match phase
    case Normal => 3
    case Faulted => 3
    case VerifyReset => 0
    case Shutdown => 0
    case SwitchOn => 1
    case Enable => 2
  }

  predicate ShowsEnabled(sw: bv16) {
    sw & 0x006f == 0x0027
  }

  predicate Sound(s: S.Servo) {
    I.Inv(s) && s.state != M.Fault
  }

  /** The servo reports no fault of its own: without a restart, the pending fault came
      from a rejected command. */
  predicate OnlyRejections(g: Guard) {
    g.fault.Some? && !g.restartRequired ==> g.fault.value.code == AdapterFault
  }

  predicate Recovering(phase: Phase) {
    phase == Shutdown || phase == SwitchOn || phase == Enable
  }

  predicate Safe(x: Axis<S.Servo>) {
    && GuardInv(x.guard) && |x.guard.last| == TX_SIZE && OnlyRejections(x.guard)
    && Sound(x.plant)
    && M.Level(x.plant.state) <= Bound(x.guard.phase)
    && (Recovering(x.guard.phase) ==> !ShowsEnabled(Word(x.guard.last)))
  }

  lemma InitialIsSafe(preset: S.Config, image: Octets)
    requires EncodeTx(S.Initial(preset).od.tx) == Some(image)
    ensures Safe(Axis(InitialGuard(image), S.Initial(preset), None, 0))
  {
    hide Word;
    I.InitialInv(preset);
    ImageTellsTx(S.Initial(preset).od.tx);
  }

  // ---- The servo under one forwarded payload ----

  /** Time has elapsed, or the update does not need it. */
  predicate Runs(s: S.Servo, payload: Octets, dt: real)
    requires |payload| == RX_SIZE
  {
    dt > 0.0 || !S.UpdateTimed(S.WriteRx(s, DecodeRx(payload)))
  }

  function Updated(s: S.Servo, payload: Octets, dt: real): S.Servo
    requires |payload| == RX_SIZE && Runs(s, payload, dt)
  {
    S.ModelUpdate(S.WriteRx(s, DecodeRx(payload)), dt)
  }

  /** At rest at the same position. */
  predicate Held(s: S.Servo, t: S.Servo) {
    t.axis.position == s.axis.position && I.Rest(t)
  }

  /** One update follows the payload's controlword, or the zero a device reset put in its
      place; not enabled means not moved. */
  lemma UpdateFollowsWord(s: S.Servo, payload: Octets, dt: real)
    requires Sound(s) && |payload| == RX_SIZE && Runs(s, payload, dt)
    ensures var t := Updated(s, payload, dt);
            && Sound(t)
            && (t.state == M.Next(s.state, Word(payload)) || t.state == M.Next(s.state, 0))
            && (t.state != M.OperationEnabled ==> Held(s, t))
  {
    hide S.ModelUpdate, I.Core, I.Clocked, I.StatusShown, Word, M.Next, Value, S.UpdateTimed;
    var s1 := S.WriteRx(s, DecodeRx(payload));
    I.CoreIgnoresRx(s, DecodeRx(payload));
    I.UpdateShape(s1, dt);
    I.UpdateKeepsInv(s1, dt);
    M.RungByRung(s.state, I.Clocked(s1).od.rx.controlword);
    if !S.Enabled(S.ModelUpdate(s1, dt)) {
      I.NotEnabledHoldsPosition(s1, dt);
    }
  }

  /** The update that enables the drive in mode 1 with bit 4 low does not move it either. */
  lemma EnablingUpdateHolds(s: S.Servo, payload: Octets, dt: real)
    requires Sound(s) && |payload| == RX_SIZE && Runs(s, payload, dt)
    requires s.state != M.OperationEnabled && payload[2] == 1 && !Bit(Word(payload), 0x0010)
    ensures Held(s, Updated(s, payload, dt))
  {
    hide S.ModelUpdate, I.Core, I.StatusShown, Word, Bit, S.UpdateTimed;
    var s1 := S.WriteRx(s, DecodeRx(payload));
    ModeOne(payload);
    I.CoreIgnoresRx(s, DecodeRx(payload));
    I.EnablingHoldsPosition(s1, dt);
  }

  lemma ModeOne(payload: Octets)
    requires |payload| == RX_SIZE && payload[2] == 1
    ensures DecodeRx(payload).mode == 1
  {
    hide Word;
    assert payload[2..3] == [payload[2]];
  }

  // ---- The interlock around the servo ----

  lemma DetectKeepsCode(g: Guard, code: Code, restart: bool)
    requires OnlyRejections(g) && (code == AdapterFault || restart)
    ensures OnlyRejections(Detect(g, code, restart))
  {
  }

  lemma StatusHasNoFault(s: S.Servo)
    requires Sound(s)
    ensures !Bit(s.od.tx.statusword, FAULT_BIT)
    ensures ShowsEnabled(s.od.tx.statusword) ==> s.state == M.OperationEnabled
  {
    NoFaultBit(s.od.tx.statusword, s.state);
  }

  lemma NoFaultBit(sw: bv16, state: M.State)
    requires sw & 0x006f == M.Statusword(state) & 0x006f && state != M.Fault
    ensures !Bit(sw, FAULT_BIT) && (ShowsEnabled(sw) ==> state == M.OperationEnabled)
  {
    assert sw & FAULT_BIT == (sw & 0x006f) & FAULT_BIT;
  }

  /** How the phase moves on an image without fault bit. */
  function Accepted(phase: Phase, resetting: bool, pending: bool): Phase {
    if resetting && pending then (if phase == VerifyReset then Shutdown else VerifyReset) else phase
  }

  /** Reading the inputs does not touch the servo; the image carries its statusword. */
  lemma FinishOnServo(c: Catalog, x: Axis<S.Servo>, counted: bool, resetting: bool, calls: seq<Call>)
    requires |x.guard.last| == TX_SIZE && OnlyRejections(x.guard) && Sound(x.plant)
    ensures var r := Finish(FKr(c), x, counted, resetting, calls);
            && r.axis.plant == x.plant && |r.axis.guard.last| == TX_SIZE && OnlyRejections(r.axis.guard)
            && ((r.axis.guard.phase == Faulted && r.axis.guard.restartRequired)
                || (&& r.axis.guard.phase == Accepted(x.guard.phase, resetting, x.guard.fault.Some?)
                    && r.axis.guard.restartRequired == x.guard.restartRequired
                    && Word(r.axis.guard.last) == x.plant.od.tx.statusword))
  {
    hide EncodeTx, Word, Bit, Sound, ImageOf;
    ImageTellsTx(x.plant.od.tx);
    StatusHasNoFault(x.plant);
  }

  /** The time a cycle hands to the model. */
  function Elapsed(x: Axis<S.Servo>, now: real): real {
    if x.lastCycle.None? then FIRST_STEP else now - x.lastCycle.value
  }

  /** A drive either ends faulted without moving the servo, or updates it. */
  lemma DriveOnServo(c: Catalog, x: Axis<S.Servo>, payload: Octets, dt: real, calls: seq<Call>)
    requires |payload| == RX_SIZE && |x.guard.last| == TX_SIZE && OnlyRejections(x.guard) && Sound(x.plant)
    ensures match Drive(FKr(c), x, payload, dt, calls)
            case Ended(r) =>
              && Untouched(x.plant, r.axis.plant) && r.axis.guard.phase == Faulted
              && OnlyRejections(r.axis.guard) && |r.axis.guard.last| == TX_SIZE
            case Moved(y, _) => Runs(x.plant, payload, dt) && y == x.(plant := Updated(x.plant, payload, dt))
  {
    hide DecodeRx, S.ModelUpdate, Value, Word, I.Inv, ImageOf, S.UpdateTimed;
    WritingKeepsSound(x.plant, DecodeRx(payload));
    DetectKeepsCode(x.guard, AdapterFault, false);
    DetectKeepsCode(x.guard, ExecutionFailed, true);
  }

  predicate Untouched(s: S.Servo, t: S.Servo) {
    Sound(t) && t.axis == s.axis && t.pp == s.pp && t.state == s.state
  }

  lemma WritingKeepsSound(s: S.Servo, pdo: S.RxPdo)
    requires Sound(s)
    ensures Untouched(s, S.WriteRx(s, pdo))
  {
  }

  /** The outcome of an exchange: the servo is as it was and a fault is pending, or it was
      updated once, and the interlock saw the resulting statusword or asks for a restart. */
  predicate ExchangedOnce(x: Axis<S.Servo>, y: Axis<S.Servo>, payload: Octets, resetting: bool, dt: real)
    requires |payload| == RX_SIZE
  {
    && |y.guard.last| == TX_SIZE && OnlyRejections(y.guard)
    && ((Untouched(x.plant, y.plant) && y.guard.phase == Faulted)
        || (&& Runs(x.plant, payload, dt) && y.plant == Updated(x.plant, payload, dt)
            && ((y.guard.phase == Faulted && y.guard.restartRequired)
                || (&& y.guard.phase == Accepted(x.guard.phase, resetting, x.guard.fault.Some?)
                    && |y.guard.last| >= 2 && Word(y.guard.last) == y.plant.od.tx.statusword))))
  }

  lemma ExchangeOnServo(c: Catalog, x: Axis<S.Servo>, payload: Octets, resetting: bool, now: real, calls: seq<Call>)
    requires |payload| == RX_SIZE && |x.guard.last| == TX_SIZE && OnlyRejections(x.guard) && Sound(x.plant)
    ensures var r := Exchange(FKr(c), x, payload, resetting, now, calls);
            ExchangedOnce(x, r.axis, payload, resetting, Elapsed(x, now))
  {
    hide Drive, Finish, Updated, Runs, Word, I.Inv, OnlyRejections, ImageOf;
    DetectKeepsCode(x.guard, ExecutionFailed, true);
    var dt, y := Elapsed(x, now), x.(lastCycle := Some(now));
    if dt <= MAX_GAP {
      DriveOnServo(c, y, payload, dt, calls);
      match Drive(FKr(c), y, payload, dt, calls)
      case Ended(_) =>
      case Moved(z, made) =>
        UpdateFollowsWord(x.plant, payload, dt);
        FinishOnServo(c, z, true, resetting, made);
    }
  }

  // ---- One request during recovery ----

  /** What one request outside normal operation does to the axis. */
  predicate StandsStill(x: Axis<S.Servo>, y: Axis<S.Servo>) {
    && Safe(y) && y.plant.axis.position == x.plant.axis.position
    && (y.guard.phase == Normal ==> I.Rest(y.plant))
  }

  /** Disabling first puts the state machine on the lowest rung, where the reset word
      leaves it. */
  lemma DisabledStandsStill(c: Catalog, x: Axis<S.Servo>, payload: Octets, now: real)
    requires Safe(x) && |payload| == RX_SIZE && Word(payload) in {0, RESET_BIT}
    requires x.guard.phase in {Faulted, VerifyReset} && !x.guard.restartRequired && x.guard.fault.value.acknowledged
    ensures StandsStill(x, DisableFirst(FKr(c), x, payload, now).axis)
  {
    hide Drive, Exchange, Updated, Runs, Word, I.Inv, ImageOf;
    var disable := WithWord(0, payload);
    WithWordReads(0, payload);
    DriveOnServo(c, x, disable, DISABLE_STEP, []);
    DisableShape(FKr(c), x, payload, now);
    match Drive(FKr(c), x, disable, DISABLE_STEP, [])
    case Ended(_) =>
    case Moved(y, made) =>
      UpdateFollowsWord(x.plant, disable, DISABLE_STEP);
      ExchangeOnServo(c, y, payload, true, now, made);
      if Runs(y.plant, payload, Elapsed(y, now)) {
        UpdateFollowsWord(y.plant, payload, Elapsed(y, now));
        StatusHasNoFault(Updated(y.plant, payload, Elapsed(y, now)));
      }
  }

  /** Each recovery word moves the state machine no further than the phase it leads to,
      and the last of them enables without moving. */
  lemma RecoveryWordHolds(s: S.Servo, phase: Phase, payload: Octets, dt: real)
    requires Sound(s) && M.Level(s.state) <= Bound(phase) && Recovering(phase)
    requires |payload| == RX_SIZE && Runs(s, payload, dt)
    requires NextPhase(phase, Word(payload), payload[2]) != phase
    ensures var t, next := Updated(s, payload, dt), NextPhase(phase, Word(payload), payload[2]);
            && Sound(t) && Held(s, t)
            && M.Level(t.state) <= Bound(next)
            && (Recovering(next) ==> t.state != M.OperationEnabled)
  {
    hide Updated, Runs, Word, I.Inv, Held;
    UpdateFollowsWord(s, payload, dt);
    M.RungByRung(s.state, Word(payload));
    M.RungByRung(s.state, 0);
    WordsOfPhases(phase, Word(payload), payload[2]);
    if phase == Enable {
      EnablingUpdateHolds(s, payload, dt);
    }
  }

  lemma WordsOfPhases(phase: Phase, cw: bv16, mode: bv8)
    requires Recovering(phase) && NextPhase(phase, cw, mode) != phase
    ensures Bound(NextPhase(phase, cw, mode)) == Bound(phase) + 1
    ensures NextPhase(phase, cw, mode) in {SwitchOn, Enable, Normal}
    ensures phase == Enable ==> mode == 1 && !Bit(cw, 0x0010)
  {
  }

  lemma CycleStandsStill(c: Catalog, x: Axis<S.Servo>, data: Octets, now: real)
    requires Safe(x) && x.guard.phase != Normal && |data| == RX_SIZE
    ensures StandsStill(x, DispatchCycle(FKr(c), x, Some(data), now).axis)
  {
    hide Exchange, Updated, Runs, Word, Bit, I.Inv, ImageOf, DisableFirst, WithWord, ExchangedOnce;
    CycleShape(FKr(c), x, data, now);
    PrepareKeepsInv(x.guard, data);
    VerdictClimbs(x.guard, data);
    var (g, verdict) := Prepare(x.guard, data);
    WithWordReads(0, data);
    WithWordReads(RESET_BIT, data);
    if verdict.Forward? {
      if Recovering(x.guard.phase) {
        ForwardedStandsStill(c, x, g, data, now);
      } else {
        OnlyResetsForwarded(x.guard, data);
        var x2 := x.(guard := g, lastCycle := None);
        DisabledStandsStill(c, x2, verdict.payload, now);
      }
    }
  }

  /** In the fault phases only a reset is forwarded, with every other bit masked. */
  lemma OnlyResetsForwarded(g: Guard, data: Octets)
    requires GuardInv(g) && OnlyRejections(g) && g.phase in {Faulted, VerifyReset} && |data| == RX_SIZE
    requires Prepare(g, data).1.Forward?
    ensures var (h, verdict) := Prepare(g, data);
            && verdict.resetting && verdict.payload in {WithWord(0, data), WithWord(RESET_BIT, data)}
            && h.fault.Some? && h.fault.value.code == AdapterFault && h.fault.value.acknowledged
            && h.phase == g.phase && !h.restartRequired && h.last == g.last
  {
    hide Word, Bit, WithWord;
  }

  lemma ForwardedStandsStill(c: Catalog, x: Axis<S.Servo>, g: Guard, data: Octets, now: real)
    requires Safe(x) && Recovering(x.guard.phase) && |data| == RX_SIZE
    requires Prepare(x.guard, data) == (g, Forward(data, false))
    requires g.phase == NextPhase(x.guard.phase, Word(data), data[2]) != x.guard.phase
    requires GuardInv(Exchange(FKr(c), x.(guard := g), data, false, now, []).axis.guard)
    ensures StandsStill(x, Exchange(FKr(c), x.(guard := g), data, false, now, []).axis)
  {
    hide Exchange, Updated, Runs, Word, Bit, I.Inv, ImageOf, NextPhase, Prepare;
    PrepareKeepsInv(x.guard, data);
    var y := x.(guard := g);
    WordsOfPhases(x.guard.phase, Word(data), data[2]);
    assert g.fault.None?;
    ExchangeOnServo(c, y, data, false, now, []);
    if Runs(x.plant, data, Elapsed(y, now)) {
      RecoveryWordHolds(x.plant, x.guard.phase, data, Elapsed(y, now));
      StatusHasNoFault(Updated(x.plant, data, Elapsed(y, now)));
    }
  }

  lemma ObjectOnServo(c: Catalog, x: Axis<S.Servo>, sdo: Sdo)
    requires Safe(x)
    ensures var y := DispatchObject(FKr(c), x, sdo).axis;
            && Safe(y) && y.plant.axis == x.plant.axis && y.plant.pp == x.plant.pp
            && (y.guard == x.guard || (y.guard.phase == Faulted && y.guard.restartRequired))
  {
    hide Word, I.Inv, ImageOf;
    ObjectKeepsInv(FKr(c), x, sdo);
    DetectKeepsCode(x.guard, ExecutionFailed, true);
    match c(x.plant, sdo)
    case Writes(w) => I.WriteKeepsInv(x.plant, w);
    case _ =>
  }

  /** Outside normal operation no request moves the axis: not a PDO, an SDO write, an idle
      or a device reset, not even the request that returns to normal, which finds the axis
      at rest with no positioning move active. */
  lemma RequestStandsStill(c: Catalog, x: Axis<S.Servo>, request: Request)
    requires Safe(x) && x.guard.phase != Normal
    ensures StandsStill(x, Dispatch(FKr(c), x, request).axis)
  {
    hide Word, I.Inv, ImageOf, Exchange, DisableFirst;
    match request
    case Object(sdo) => ObjectOnServo(c, x, sdo);
    case Idle =>
    case Cycle(payload, now) =>
      if payload.Some? && |payload.value| == RX_SIZE {
        CycleStandsStill(c, x, payload.value, now);
      } else {
        DetectKeepsCode(x.guard, AdapterFault, false);
        DetectKeepsCode(x.guard, ExecutionFailed, true);
        DetectKeepsInv(x.guard, AdapterFault, false);
        DetectKeepsInv(x.guard, ExecutionFailed, true);
      }
  }

  // ---- One request in normal operation ----

  /** In normal operation the axis stays safe, and a request that raises a fault without
      asking for a restart has not moved it. */
  lemma NormalRequest(c: Catalog, x: Axis<S.Servo>, request: Request)
    requires Safe(x) && x.guard.phase == Normal
    ensures var y := Dispatch(FKr(c), x, request).axis;
            && Safe(y) && y.guard.phase in {Normal, Faulted}
            && (y.guard.phase == Faulted && !y.guard.restartRequired ==> y.plant.axis.position == x.plant.axis.position)
  {
    hide Word, I.Inv, ImageOf, Exchange, DisableFirst, Finish, Updated, Runs;
    DispatchIsHonest(FKr(c), x, request);
    match request
    case Object(sdo) => ObjectOnServo(c, x, sdo);
    case Idle => FinishOnServo(c, x.(lastCycle := None), false, false, []);
    case Cycle(payload, now) =>
      if payload.Some? && |payload.value| == RX_SIZE {
        var (g, verdict) := Prepare(x.guard, payload.value);
        var y := x.(guard := g);
        ExchangeOnServo(c, y, payload.value, false, now, []);
        if Runs(x.plant, payload.value, Elapsed(y, now)) {
          UpdateFollowsWord(x.plant, payload.value, Elapsed(y, now));
        }
      } else {
        DetectKeepsCode(x.guard, AdapterFault, false);
        DetectKeepsCode(x.guard, ExecutionFailed, true);
      }
  }

  // ---- Whole runs ----

  lemma RequestKeepsSafe(c: Catalog, x: Axis<S.Servo>, request: Request)
    requires Safe(x)
    ensures Safe(Dispatch(FKr(c), x, request).axis)
  {
    hide Dispatch, Safe;
    if x.guard.phase == Normal {
      NormalRequest(c, x, request);
    } else {
      RequestStandsStill(c, x, request);
    }
  }

  lemma {:induction false} RunKeepsSafe(c: Catalog, x: Axis<S.Servo>, requests: seq<Request>)
    requires Safe(x)
    ensures Safe(Run(FKr(c), x, requests))
    decreases |requests|
  {
    hide Dispatch;
    if requests != [] {
      var n := |requests| - 1;
      RunKeepsSafe(c, x, requests[..n]);
      RequestKeepsSafe(c, Run(FKr(c), x, requests[..n]), requests[n]);
    }
  }

  /** From any phase but normal: the position is frozen up to and including the request
      that returns to normal. */
  lemma {:induction false} FrozenUntilNormal(c: Catalog, x: Axis<S.Servo>, requests: seq<Request>)
    requires Safe(x) && NotNormalBefore(FKr(c), x, requests)
    ensures Safe(Run(FKr(c), x, requests))
    ensures Run(FKr(c), x, requests).plant.axis.position == x.plant.axis.position
    ensures requests != [] && Run(FKr(c), x, requests).guard.phase == Normal ==>
              I.Rest(Run(FKr(c), x, requests).plant)
    decreases |requests|
  {
    hide Dispatch, Safe, I.Rest;
    SafeIsReady(x);
    if requests != [] {
      var n := |requests| - 1;
      PrefixNotNormal(FKr(c), x, requests, n);
      FrozenUntilNormal(c, x, requests[..n]);
      RequestStandsStill(c, Run(FKr(c), x, requests[..n]), requests[n]);
    }
  }

  lemma SafeIsReady(x: Axis<S.Servo>)
    requires Safe(x)
    ensures Ready(x)
  {
  }

  /** The request is served in normal operation and raises an adapter fault. */
  predicate RaisesAdapterFault(c: Catalog, x: Axis<S.Servo>, request: Request)
    requires Ready(x)
  {
    var g := Dispatch(FKr(c), x, request).axis.guard;
    x.guard.phase == Normal && g.phase == Faulted && !g.restartRequired
  }

  /** An adapter fault is raised exactly by a cycle of the wrong length, or one in time that
      asks for an unsupported mode. */
  lemma RaisesExactlyOnRejection(c: Catalog, x: Axis<S.Servo>, request: Request)
    requires Safe(x) && x.guard.phase == Normal
    ensures RaisesAdapterFault(c, x, request)
            <==> request.Cycle? && request.payload.Some?
                 && (|request.payload.value| != RX_SIZE
                     || (Elapsed(x, request.now) <= MAX_GAP && !Supported(Value(INT8, request.payload.value[2..3]))))
  {
    hide Word, I.Inv, ImageOf, Finish, Updated, Runs, Value, DecodeRx, S.ModelUpdate;
    match request
    case Object(sdo) => ObjectOnServo(c, x, sdo);
    case Idle => FinishOnServo(c, x.(lastCycle := None), false, false, []);
    case Cycle(payload, now) =>
      if payload.Some? && |payload.value| == RX_SIZE {
        var y := x.(guard := Prepare(x.guard, payload.value).0, lastCycle := Some(now));
        if Elapsed(x, now) <= MAX_GAP {
          DriveOnServo(c, y, payload.value, Elapsed(x, now), []);
          match Drive(FKr(c), y, payload.value, Elapsed(x, now), [])
          case Ended(_) =>
          case Moved(z, made) =>
            UpdateFollowsWord(x.plant, payload.value, Elapsed(x, now));
            FinishOnServo(c, z, true, false, made);
        }
      }
  }

  /** Recovery as a whole: from the cycle that raises the adapter fault up to and including
      the cycle that returns to normal, the actual position never changes. */
  lemma FrozenAcrossRecovery(c: Catalog, x: Axis<S.Servo>, raising: Request, requests: seq<Request>)
    requires Safe(x) && RaisesAdapterFault(c, x, raising)
    requires var y := Dispatch(FKr(c), x, raising).axis; Ready(y) && NotNormalBefore(FKr(c), y, requests)
    ensures var y := Dispatch(FKr(c), x, raising).axis;
            var z := Run(FKr(c), y, requests);
            && Safe(z) && z.plant.axis.position == x.plant.axis.position
            && (z.guard.phase == Normal ==> I.Rest(z.plant))
  {
    hide Dispatch, Safe, I.Rest;
    SafeIsReady(x);
    NormalRequest(c, x, raising);
    FrozenUntilNormal(c, Dispatch(FKr(c), x, raising).axis, requests);
  }

  /** The statusword a reply carries, if any. */
  predicate ReplyHidesEnabled(request: Request, x: Axis<S.Servo>, reply: Reply) {
    && (ImageIn(reply).Some? ==> |ImageIn(reply).value| >= 2 && !ShowsEnabled(Word(ImageIn(reply).value)))
    && (request.Object? && IsStatusword(request.sdo) && x.guard.phase != Normal ==>
          reply.ObjectData? && |reply.data| >= 2 && !ShowsEnabled(Word(reply.data)))
  }

  lemma ImageHidesEnabled(g: Guard)
    requires |g.last| >= 2 && (g.fault.Some? || !ShowsEnabled(Word(g.last)))
    ensures !ShowsEnabled(Word(ImageOf(g)))
    ensures |ImageOf(g)[..2]| == 2 && Word(ImageOf(g)[..2]) == Word(ImageOf(g))
  {
    hide Word;
    WithWordReads(Project(Word(g.last)), g.last);
    ProjectionHidesEnabled(Word(g.last));
    FirstWord(ImageOf(g));
  }

  lemma ProjectionHidesEnabled(sw: bv16)
    ensures !ShowsEnabled(Project(sw))
  {
  }

  /** No response shows Operation Enabled unless the phase after it is normal. */
  lemma NoEnabledOutsideNormal(c: Catalog, x: Axis<S.Servo>, request: Request)
    requires Safe(x) && Dispatch(FKr(c), x, request).axis.guard.phase != Normal
    ensures ReplyHidesEnabled(request, x, Dispatch(FKr(c), x, request).reply)
  {
    hide Word, I.Inv, ImageOf, Exchange, DisableFirst, Finish, ShowsEnabled;
    var r := Dispatch(FKr(c), x, request);
    RequestKeepsSafe(c, x, request);
    DispatchIsHonest(FKr(c), x, request);
    ImageHidesEnabled(r.axis.guard);
    RepliesAreGuarded(FKr(c), x, request);
    if request.Object? {
      ObjectKeepsInv(FKr(c), x, request.sdo);
      if x.guard.phase != Normal {
        ImageHidesEnabled(x.guard);
      }
    }
  }

  /** Outside normal, a cycle or idle response is the guarded one. */
  lemma RepliesAreGuarded<P>(a: Adapter<P>, x: Axis<P>, request: Request)
    requires Ready(x) && GuardInv(x.guard)
    ensures var r := Dispatch(a, x, request);
            !request.Object? && r.axis.guard.phase != Normal && Ready(r.axis) ==> r.reply == GuardedReply(r.axis.guard)
  {
    hide Word, Bit, Detect, Accept, Prepare, ImageOf;
    DispatchKeepsReady(a, x, request);
  }

  /** The same for every response of a run. */
  lemma {:induction false} RunHidesEnabled(c: Catalog, x: Axis<S.Servo>, requests: seq<Request>, i: nat)
    requires Safe(x) && i < |requests|
    requires ResultAt(FKr(c), x, requests, i).axis.guard.phase != Normal
    ensures ReplyHidesEnabled(requests[i], Run(FKr(c), x, requests[..i]), ResultAt(FKr(c), x, requests, i).reply)
  {
    hide Dispatch, Safe;
    SafeIsReady(x);
    RunKeepsSafe(c, x, requests[..i]);
    NoEnabledOutsideNormal(c, Run(FKr(c), x, requests[..i]), requests[i]);
  }
}
