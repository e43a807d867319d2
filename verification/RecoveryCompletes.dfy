/** The positive half of recovery: after a rejected command the five controlwords of the
    ladder, sent in order and in time, bring the axis back to normal operation, enabled and
    where it stood. */
module RecoveryCompletes {
  import opened Words
  import opened Wrappers
  import opened FaultGuard
  import opened AxisRuntime
  import opened Recovery
  import opened Codec
  import opened FKrAdapter
  import opened FKrAxis
  import opened NormalOperation
  import S = ServoSpec
  import I = ServoInvariants
  import M = StateMachine
  import R = Reals

  // ---- The servo ----

  /** No device reset command waits for the next update. */
  predicate NoResetWaits(s: S.Servo) {
    s.od.commands.reset == s.last.reset
  }

  predicate FitsImage(s: S.Servo) {
    InRange(INT32, R.Trunc(s.axis.position))
  }

  lemma ResetIsConsumed(s: S.Servo)
    ensures NoResetWaits(S.SaveStep(S.ResetStep(s)))
  {
  }

  /** Every update takes the waiting command with it. */
  lemma UpdateConsumesReset(s: S.Servo, dt: real)
    requires (dt > 0.0 || !S.UpdateTimed(s)) && I.Core(s)
    ensures NoResetWaits(S.ModelUpdate(s, dt))
  {
    hide S.ResetStep, S.SaveStep, S.SetMode, S.SetTarget, S.ClockState, S.ProcessMode, S.StatuswordOf, S.ModelUpdate,
         M.Next, I.Core;
    var s1 := S.SaveStep(S.ResetStep(s));
    ResetIsConsumed(s);
    var mode, target := s1.od.rx.mode, s1.od.rx.target;
    I.SetModeFrame(s1, mode, s1.last.mode);
    var s2 := if mode == s1.last.mode then s1 else S.SetMode(s1, mode, s1.last.mode);
    I.SetTargetFrame(s2, target, s2.last.target);
    I.ClockFrame(S.ApplyCommands(s));
    I.UpdateShape(s, dt);
    I.ModeFrame(I.Clocked(s), dt);
  }

  /** A servo at rest inside the range of its object can be shown in the process image. */
  lemma RestIsShowable(t: S.Servo)
    requires I.Inv(t) && I.Rest(t) && FitsImage(t) && InRange(INT8, t.last.mode)
    ensures EncodeTx(t.od.tx).Some?
  {
    hide InRange, Encode, R.Trunc;
    ImageTellsTx(t.od.tx);
    ZeroFits();
  }

  lemma ZeroFits()
    ensures InRange(INT32, R.Trunc(0.0))
  {
    SpanOfFour();
  }

  lemma ModesFit(mode: int)
    ensures Supported(mode) ==> InRange(INT8, mode)
  {
    assert Span(1) == 256;
  }

  /** An update that leaves the axis where it was can be shown; it consumes a device reset,
      and without one it follows the controlword. */
  lemma HeldUpdate(s: S.Servo, payload: Octets, dt: real)
    requires Sound(s) && |payload| == RX_SIZE && dt > 0.0 && Supported(DecodeRx(payload).mode) && FitsImage(s)
    ensures var t := Updated(s, payload, dt);
            && Sound(t) && NoResetWaits(t)
            && (Held(s, t) ==> EncodeTx(t.od.tx).Some?)
            && (NoResetWaits(s) ==> t.state == M.Next(s.state, Word(payload)))
  {
    hide DecodeRx, Word, Value, S.ModelUpdate, S.UpdateTimed, I.Core, I.Clocked, M.Next, InRange, EncodeTx, R.Trunc;
    var s1 := S.WriteRx(s, DecodeRx(payload));
    I.CoreIgnoresRx(s, DecodeRx(payload));
    UpdateFollowsWord(s, payload, dt);
    UpdateConsumesReset(s1, dt);
    I.UpdateKeepsInv(s1, dt);
    ModesFit(DecodeRx(payload).mode);
    ModesFit(8);
    var t := Updated(s, payload, dt);
    if Held(s, t) {
      RestIsShowable(t);
    }
    if NoResetWaits(s) {
      I.NoResetShape(s1);
      I.UpdateShape(s1, dt);
      WordIsRead(payload);
    }
  }

  lemma WordIsRead(payload: Octets)
    requires |payload| == RX_SIZE
    ensures DecodeRx(payload).controlword == Word(payload)
  {
    hide Word, Value;
  }

  // ---- One forwarded payload ----

  /** A payload that the adapter accepts and the servo survives in view goes all the way. */
  lemma ExchangeGoesThrough(c: Catalog, x: Axis<S.Servo>, payload: Octets, resetting: bool, now: real, calls: seq<Call>)
    requires Sound(x.plant) && |x.guard.last| == TX_SIZE && |payload| == RX_SIZE && Supported(DecodeRx(payload).mode)
    requires 0.0 < Gap(x.lastCycle, now) <= 0.1
    requires EncodeTx(Updated(x.plant, payload, Gap(x.lastCycle, now)).od.tx).Some?
    ensures var r := Exchange(FKr(c), x, payload, resetting, now, calls);
            var t := Updated(x.plant, payload, Gap(x.lastCycle, now));
            var image := EncodeTx(t.od.tx).value;
            && r.axis == Axis(Accept(x.guard, image, resetting), t, Some(now), x.cycles + 1)
            && Word(image) == t.od.tx.statusword && !Bit(Word(image), FAULT_BIT)
  {
    hide DecodeRx, Value, S.ModelUpdate, S.UpdateTimed, EncodeTx, Word, Bit, Accept, I.Inv, ImageOf;
    var t := Updated(x.plant, payload, Gap(x.lastCycle, now));
    UpdateFollowsWord(x.plant, payload, Gap(x.lastCycle, now));
    ImageTellsTx(t.od.tx);
    StatusHasNoFault(t);
    ModeIsRead(payload);
  }

  lemma DriveGoesThrough(c: Catalog, x: Axis<S.Servo>, payload: Octets, dt: real, calls: seq<Call>)
    requires |payload| == RX_SIZE && Supported(DecodeRx(payload).mode) && dt > 0.0 && Ready(x)
    ensures Drive(FKr(c), x, payload, dt, calls)
            == Moved(x.(plant := Updated(x.plant, payload, dt)), calls + [ApplyOutputs(payload)] + [StepModel(dt)])
  {
    hide DecodeRx, Value, S.ModelUpdate, S.UpdateTimed;
    ModeIsRead(payload);
  }

  /** Replacing the controlword leaves the rest of the record alone. */
  lemma WithWordKeepsMode(w: bv16, payload: Octets)
    requires |payload| == RX_SIZE
    ensures DecodeRx(WithWord(w, payload)).mode == DecodeRx(payload).mode
  {
    hide Word, WordOctets;
    assert WithWord(w, payload)[2..3] == payload[2..3];
  }

  // ---- The two cycles of a reset ----

  /** The payload a reset cycle hands to the adapter: the bare reset bit, then zero. */
  function ResetPayload(g: Guard, data: Octets): Octets
    requires |data| == RX_SIZE
  {
    WithWord(if g.phase == Faulted then RESET_BIT else 0, data)
  }

  /** Disabling and resetting leaves the servo switched off where it was. */
  lemma ResetUpdates(s: S.Servo, data: Octets, w: bv16)
    requires Sound(s) && |data| == RX_SIZE && Supported(DecodeRx(data).mode) && FitsImage(s) && w in {0, RESET_BIT}
    ensures var payload := WithWord(w, data);
            var u := Updated(s, WithWord(0, payload), 0.002);
            var v := Updated(u, payload, 0.01);
            && Sound(u) && Sound(v) && Held(s, u) && Held(s, v) && NoResetWaits(v) && EncodeTx(v.od.tx).Some?
            && v.state == M.SwitchOnDisabled
  {
    hide DecodeRx, Updated, I.Inv, Word, EncodeTx, WithWord;
    var payload := WithWord(w, data);
    var disable := WithWord(0, payload);
    WithWordReads(w, data);
    WithWordReads(0, payload);
    WithWordKeepsMode(w, data);
    WithWordKeepsMode(0, payload);
    UpdateFollowsWord(s, disable, 0.002);
    HeldUpdate(s, disable, 0.002);
    var u := Updated(s, disable, 0.002);
    HeldUpdate(u, payload, 0.01);
    UpdateFollowsWord(u, payload, 0.01);
  }

  /** The guard of a reset cycle: a rising edge after a rejected command, or the following
      word without it. */
  predicate Resets(g: Guard, data: Octets)
    requires |data| == RX_SIZE
  {
    || (g.phase == Faulted && Word(data) & 0x80 == 0x80 && g.previousCw & 0x80 == 0)
    || (g.phase == VerifyReset && Word(data) & 0x80 == 0)
  }

  lemma ResetVerdict(g: Guard, data: Octets)
    requires GuardInv(g) && OnlyRejections(g) && !g.restartRequired && |data| == RX_SIZE && Resets(g, data)
    ensures var (h, verdict) := Prepare(g, data);
            && verdict == Forward(ResetPayload(g, data), true)
            && h.phase == g.phase && h.last == g.last && h.previousCw == Word(data) && !h.restartRequired
            && h.fault.Some? && h.fault.value.code == AdapterFault
  {
    hide Word, WithWord;
    assert Bit(Word(data), RESET_BIT) == (Word(data) & 0x80 == 0x80) by {
      BitOrNot(Word(data));
    }
  }

  lemma BitOrNot(w: bv16)
    ensures w & 0x80 == 0x80 || w & 0x80 == 0
  {
  }

  lemma AcceptReset(g: Guard, image: Octets)
    requires |image| == |g.last| >= 2 && !Bit(Word(image), FAULT_BIT) && g.fault.Some? && !g.restartRequired
    ensures var h := Accept(g, image, true);
            && !h.restartRequired && h.previousCw == g.previousCw && |h.last| == |g.last|
            && h.phase == (if g.phase == VerifyReset then Shutdown else VerifyReset)
  {
    hide Word, Bit;
  }

  /** What a step of recovery leaves behind. */
  predicate Stepped(x: Axis<S.Servo>, y: Axis<S.Servo>, cw: bv16, now: real, phase: Phase) {
    && Safe(y) && y.guard.phase == phase && !y.guard.restartRequired && y.guard.previousCw == cw
    && y.plant.axis.position == x.plant.axis.position && NoResetWaits(y.plant) && y.lastCycle == Some(now)
  }

  /** A reset cycle: the drive is disabled, sees the bare reset word, and the fault moves on
      to verification, then away. */
  lemma ResetCycle(c: Catalog, x: Axis<S.Servo>, data: Octets, now: real)
    requires Safe(x) && !x.guard.restartRequired && FitsImage(x.plant)
    requires |data| == RX_SIZE && Supported(DecodeRx(data).mode) && Resets(x.guard, data)
    ensures var y := Dispatch(FKr(c), x, Cycle(Some(data), now)).axis;
            && Stepped(x, y, Word(data), now, if x.guard.phase == Faulted then VerifyReset else Shutdown)
            && M.Level(y.plant.state) == 0
  {
    hide DecodeRx, Value, Updated, EncodeTx, Word, Bit, Accept, Prepare, Exchange, Drive, WithWord, I.Inv, ImageOf, Resets;
    var (g, verdict) := Prepare(x.guard, data);
    ResetVerdict(x.guard, data);
    var w := if x.guard.phase == Faulted then RESET_BIT else 0;
    var payload := WithWord(w, data);
    WithWordKeepsMode(w, data);
    WithWordKeepsMode(0, payload);
    var x2 := x.(guard := g, lastCycle := None);
    ResetUpdates(x.plant, data, w);
    DriveGoesThrough(c, x2, WithWord(0, payload), DISABLE_STEP, []);
    var u := Updated(x.plant, WithWord(0, payload), 0.002);
    var y := x2.(plant := u);
    ExchangeGoesThrough(c, y, payload, true, now, [ApplyOutputs(WithWord(0, payload)), StepModel(0.002)]);
    AcceptReset(g, EncodeTx(Updated(u, payload, 0.01).od.tx).value);
    IsReset(x.guard, data);
    RequestStandsStill(c, x, Cycle(Some(data), now));
    assert [] + [ApplyOutputs(WithWord(0, payload))] + [StepModel(DISABLE_STEP)]
           == [ApplyOutputs(WithWord(0, payload)), StepModel(0.002)];
  }

  lemma IsReset(g: Guard, data: Octets)
    requires |data| == RX_SIZE && Resets(g, data)
    ensures g.phase in {Faulted, VerifyReset}
  {
    hide Word;
  }

  // ---- The three rungs ----

  /** The word of each rung. */
  predicate IsRungWord(phase: Phase, data: Octets)
    requires |data| == RX_SIZE
  {
    match phase
    case Shutdown => Word(data) & 0x8f == 0x06
    case SwitchOn => Word(data) & 0x8f == 0x07
    case Enable => Word(data) & 0x9f == 0x0f && data[2] == 1
    case _ => false
  }

  function Above(phase: Phase): Phase {
    if phase == Shutdown then SwitchOn else if phase == SwitchOn then Enable else Normal
  }

  lemma RungVerdict(g: Guard, data: Octets)
    requires GuardInv(g) && |data| == RX_SIZE && IsRungWord(g.phase, data)
    ensures Prepare(g, data) == (g.(phase := Above(g.phase), previousCw := Word(data)), Forward(data, false))
    ensures Recovering(g.phase) && NextPhase(g.phase, Word(data), data[2]) == Above(g.phase)
  {
    hide Word;
    EnableWord(Word(data));
  }

  lemma EnableWord(w: bv16)
    ensures w & 0x9f == 0x0f ==> w & 0x8f == 0x0f && !Bit(w, 0x10)
  {
  }

  /** On its rung the state machine follows the word of the rung. */
  lemma RungClimbs(state: M.State, phase: Phase, data: Octets)
    requires |data| == RX_SIZE && IsRungWord(phase, data) && state != M.Fault && M.Level(state) == Bound(phase)
    ensures M.Level(M.Next(state, Word(data))) == Bound(phase) + 1 == Bound(Above(phase))
  {
    hide Word;
    EnableWord(Word(data));
    RungWords(Word(data));
  }

  lemma RungWords(w: bv16)
    ensures w & 0x8f == 0x06 ==> w & 0x80 == 0 && w & 0x87 == 0x06
    ensures w & 0x8f == 0x07 ==> w & 0x80 == 0 && w & 0x87 == 0x07
    ensures w & 0x8f == 0x0f ==> w & 0x80 == 0 && w & 0x87 == 0x07
  {
  }

  lemma AcceptQuiet(g: Guard, image: Octets)
    requires |image| == |g.last| >= 2 && !Bit(Word(image), FAULT_BIT) && g.fault.None?
    ensures var h := Accept(g, image, false);
            && h.phase == g.phase && h.fault.None? && h.restartRequired == g.restartRequired
            && h.previousCw == g.previousCw && h.last == image
  {
    hide Word, Bit;
  }

  /** A cycle with the word of its rung climbs it, interlock and state machine together. */
  lemma RungCycle(c: Catalog, x: Axis<S.Servo>, data: Octets, now: real)
    requires Safe(x) && FitsImage(x.plant) && NoResetWaits(x.plant) && M.Level(x.plant.state) == Bound(x.guard.phase)
    requires |data| == RX_SIZE && Supported(DecodeRx(data).mode) && IsRungWord(x.guard.phase, data)
    requires 0.0 < Gap(x.lastCycle, now) <= 0.1
    ensures var r := Dispatch(FKr(c), x, Cycle(Some(data), now));
            && Stepped(x, r.axis, Word(data), now, Above(x.guard.phase))
            && M.Level(r.axis.plant.state) == Bound(Above(x.guard.phase))
            && (r.axis.guard.phase == Normal ==>
                  EncodeTx(r.axis.plant.od.tx).Some? && r.reply == Published(EncodeTx(r.axis.plant.od.tx).value))
  {
    hide DecodeRx, Value, Updated, EncodeTx, Word, Bit, Accept, Prepare, Exchange, I.Inv, ImageOf, IsRungWord, M.Next,
         NextPhase;
    RungVerdict(x.guard, data);
    RungClimbs(x.plant.state, x.guard.phase, data);
    var dt := Gap(x.lastCycle, now);
    HeldUpdate(x.plant, data, dt);
    RecoveryWordHolds(x.plant, x.guard.phase, data, dt);
    var y := x.(guard := Prepare(x.guard, data).0);
    ExchangeGoesThrough(c, y, data, false, now, []);
    var t := Updated(x.plant, data, dt);
    AcceptQuiet(y.guard, EncodeTx(t.od.tx).value);
    RequestStandsStill(c, x, Cycle(Some(data), now));
    if Above(x.guard.phase) == Normal {
      RepliesPublished(c, y, data, now);
    }
  }

  lemma RepliesPublished(c: Catalog, y: Axis<S.Servo>, data: Octets, now: real)
    requires |data| == RX_SIZE && |y.guard.last| == TX_SIZE
    requires var r := Exchange(FKr(c), y, data, false, now, []).axis.guard;
             r.phase == Normal && r.fault.None? && |r.last| == TX_SIZE
    requires EncodeTx(Exchange(FKr(c), y, data, false, now, []).axis.plant.od.tx).Some?
    ensures var r := Exchange(FKr(c), y, data, false, now, []);
            r.reply == Published(EncodeTx(r.axis.plant.od.tx).value)
  {
    hide Apply, Advance, EncodeTx, Word, Bit, ImageOf;
  }

  // ---- The whole of it ----

  /** A cycle with a supported mode and these bits of the controlword. */
  predicate Sends(r: Request, mask: bv16, word: bv16) {
    && r.Cycle? && r.payload.Some? && |r.payload.value| == 24 && Supported(DecodeRx(r.payload.value).mode)
    && Word(r.payload.value) & mask == word
  }

  predicate InTime(before: Request, after: Request)
    requires before.Cycle? && after.Cycle?
  {
    0.0 < after.now - before.now <= 0.1
  }

  /** Fault reset, its release, Shutdown, Switch On, Enable Operation in profile position
      mode with bit 4 low; from the release on without a gap. */
  predicate RecoverySequence(r: seq<Request>) {
    && |r| == 5
    && Sends(r[0], 0x80, 0x80) && Sends(r[1], 0x80, 0)
    && Sends(r[2], 0x8f, 0x06) && Sends(r[3], 0x8f, 0x07) && Sends(r[4], 0x9f, 0x0f) && r[4].payload.value[2] == 1
    && InTime(r[1], r[2]) && InTime(r[2], r[3]) && InTime(r[3], r[4])
  }

  lemma RunLastRequest<P>(a: Adapter<P>, x: Axis<P>, requests: seq<Request>, n: nat)
    requires Ready(x) && n < |requests|
    ensures Ready(Run(a, x, requests[..n]))
    ensures Run(a, x, requests[..n + 1]) == Dispatch(a, Run(a, x, requests[..n]), requests[n]).axis
  {
    hide Dispatch;
    assert requests[..n + 1][..n] == requests[..n];
  }

  /** Interlock and state machine stand on the same rung, the axis where it was. */
  predicate OnRung(x: Axis<S.Servo>, y: Axis<S.Servo>, phase: Phase, now: real) {
    && Safe(y) && y.guard.phase == phase && y.plant.axis.position == x.plant.axis.position
    && NoResetWaits(y.plant) && y.lastCycle == Some(now) && M.Level(y.plant.state) == Bound(phase)
  }

  /** The two reset cycles of the sequence end the fault. */
  lemma ResetPart(c: Catalog, x: Axis<S.Servo>, requests: seq<Request>)
    requires Safe(x) && x.guard.phase == Faulted && !x.guard.restartRequired && x.guard.previousCw & 0x80 == 0
    requires FitsImage(x.plant) && RecoverySequence(requests)
    ensures var y := Run(FKr(c), x, requests[..2]);
            OnRung(x, y, Shutdown, requests[1].now)
  {
    hide Dispatch, DecodeRx, Word, Safe;
    SafeIsReady(x);
    assert requests[..0] == [];
    RunLastRequest(FKr(c), x, requests, 0);
    RunLastRequest(FKr(c), x, requests, 1);
    ResetCycle(c, x, requests[0].payload.value, requests[0].now);
    var y := Run(FKr(c), x, requests[..1]);
    EdgeIsOver(Word(requests[0].payload.value));
    ResetCycle(c, y, requests[1].payload.value, requests[1].now);
  }

  lemma EdgeIsOver(w: bv16)
    requires w & 0x80 == 0x80
    ensures w & 0x80 != 0
  {
  }

  lemma RungPart(c: Catalog, x: Axis<S.Servo>, y: Axis<S.Servo>, r: Request, phase: Phase, before: real)
    requires FitsImage(x.plant) && OnRung(x, y, phase, before)
    requires r.Cycle? && r.payload.Some? && |r.payload.value| == 24 && Supported(DecodeRx(r.payload.value).mode)
    requires IsRungWord(phase, r.payload.value) && 0.0 < r.now - before <= 0.1
    ensures Ready(y) && Ready(Dispatch(FKr(c), y, r).axis)
    ensures OnRung(x, Dispatch(FKr(c), y, r).axis, Above(phase), r.now)
    ensures var z := Dispatch(FKr(c), y, r);
            phase == Enable ==>
              EncodeTx(z.axis.plant.od.tx).Some? && z.reply == Published(EncodeTx(z.axis.plant.od.tx).value)
  {
    hide Dispatch, DecodeRx, Word, EncodeTx, Safe, R.Trunc, InRange, IsRungWord;
    SafeIsReady(y);
    RungCycle(c, y, r.payload.value, r.now);
    SafeIsReady(Dispatch(FKr(c), y, r).axis);
  }

  lemma OnRungIsReady(x: Axis<S.Servo>, y: Axis<S.Servo>, phase: Phase, now: real)
    requires OnRung(x, y, phase, now)
    ensures Ready(y) && Safe(y) && y.guard.phase == phase && M.Level(y.plant.state) == Bound(phase)
    ensures y.plant.axis.position == x.plant.axis.position
  {
  }

  /** The words of the sequence. */
  lemma SequenceWords(r: seq<Request>)
    requires RecoverySequence(r)
    ensures |r| == 5
    ensures forall i :: 1 <= i < 5 ==> r[i].Cycle? && r[i].payload.Some? && |r[i].payload.value| == 24
    ensures forall i :: 1 <= i < 5 ==> Supported(DecodeRx(r[i].payload.value).mode)
    ensures forall i :: 2 <= i < 5 ==> 0.0 < r[i].now - r[i - 1].now <= 0.1
    ensures IsRungWord(Shutdown, r[2].payload.value) && IsRungWord(SwitchOn, r[3].payload.value)
    ensures IsRungWord(Enable, r[4].payload.value)
  {
    hide DecodeRx, Word;
  }

  /** After a rejected command that asks for no restart, the recovery sequence brings the
      axis back: normal operation, no fault, the servo enabled and exactly where it was, and
      the last reply is its process image. */
  lemma RecoverySucceeds(c: Catalog, x: Axis<S.Servo>, requests: seq<Request>)
    requires Safe(x) && x.guard.phase == Faulted && !x.guard.restartRequired && x.guard.previousCw & 0x80 == 0
    requires FitsImage(x.plant) && RecoverySequence(requests)
    ensures var y := Run(FKr(c), x, requests);
            && Safe(y) && y.guard.phase == Normal && y.guard.fault.None?
            && y.plant.state == M.OperationEnabled && y.plant.axis == S.Axis(x.plant.axis.position, 0.0)
            && EncodeTx(y.plant.od.tx).Some?
            && ResultAt(FKr(c), x, requests, 4).reply == Published(EncodeTx(y.plant.od.tx).value)
  {
    hide Dispatch, Run, DecodeRx, Word, EncodeTx, Safe, RecoverySequence, FitsImage, OnRung, IsRungWord;
    SafeIsReady(x);
    SequenceWords(requests);
    ResetPart(c, x, requests);
    RunLastRequest(FKr(c), x, requests, 2);
    RunLastRequest(FKr(c), x, requests, 3);
    RunLastRequest(FKr(c), x, requests, 4);
    var y2, y3, y4 := Run(FKr(c), x, requests[..2]), Run(FKr(c), x, requests[..3]), Run(FKr(c), x, requests[..4]);
    RungPart(c, x, y2, requests[2], Shutdown, requests[1].now);
    RungPart(c, x, y3, requests[3], SwitchOn, requests[2].now);
    RungPart(c, x, y4, requests[4], Enable, requests[3].now);
    assert requests[..5] == requests;
    OnRungIsReady(x, y4, Enable, requests[3].now);
    OnRungIsReady(x, Run(FKr(c), x, requests), Normal, requests[4].now);
    NotNormalRests(c, x, requests);
    NormalIsQuiet(Run(FKr(c), x, requests));
  }

  lemma NormalIsQuiet(y: Axis<S.Servo>)
    requires Safe(y) && y.guard.phase == Normal && M.Level(y.plant.state) == 3
    ensures y.guard.fault.None? && y.plant.state == M.OperationEnabled
  {
  }

  /** The returning cycle finds the axis at rest. */
  lemma NotNormalRests(c: Catalog, x: Axis<S.Servo>, requests: seq<Request>)
    requires Safe(x) && |requests| == 5 && Run(FKr(c), x, requests[..4]).guard.phase == Enable
    requires Safe(Run(FKr(c), x, requests[..4])) && Run(FKr(c), x, requests).guard.phase == Normal
    ensures Run(FKr(c), x, requests).plant.axis.velocity == 0.0
  {
    hide Dispatch, Safe;
    SafeIsReady(x);
    RequestStandsStill(c, Run(FKr(c), x, requests[..4]), requests[4]);
  }
}
