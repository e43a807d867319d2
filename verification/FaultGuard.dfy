/** The per-axis fault interlock: it filters every RxPDO on its way to the adapter
    and projects a pending fault onto the statusword of every response. */
module FaultGuard {
  import opened Words
  import opened Wrappers

  datatype Phase = Normal | Faulted | VerifyReset | Shutdown | SwitchOn | Enable

  datatype Code = DriveFault | AdapterFault | ExecutionFailed | OutputInvalid

  /** One occurrence of a fault. */
  datatype Diagnostic = Diagnostic(code: Code, acknowledged: bool, needsRestart: bool)

  datatype Guard = Guard(
    phase: Phase,
    fault: Option<Diagnostic>,
    restartRequired: bool,
    previousCw: bv16,
    last: Octets,
    warning: bool,
    feedbackValid: bool)

  const FAULT_BIT: bv16 := 0x0008
  const RESET_BIT: bv16 := 0x0080
  const STATE_MASK: bv16 := 0x106f

  function InitialGuard(image: Octets): Guard {
    Guard(Normal, None, false, 0, image, false, true)
  }

  function Detect(g: Guard, code: Code, restart: bool): Guard {
    g.(feedbackValid := g.feedbackValid && code == DriveFault && !restart,
       fault := match g.fault
                case None => Some(Diagnostic(code, false, restart))
                case Some(d) => Some(d.(needsRestart := d.needsRestart || (restart && !g.restartRequired))),
       restartRequired := g.restartRequired || restart,
       phase := Faulted)
  }

  /** What a cycle hands to the adapter, and whether it is part of a reset. */
  datatype Verdict = Forward(payload: Octets, resetting: bool) | Block

  /** The recovery phases accept one masked controlword each. */
  function NextPhase(phase: Phase, cw: bv16, mode: bv8): Phase {
    if phase == Shutdown && cw & 0x008f == 0x0006 then SwitchOn
    else if phase == SwitchOn && cw & 0x008f == 0x0007 then Enable
    else if phase == Enable && cw & 0x008f == 0x000f && !Bit(cw, 0x0010) && mode == 1 then Normal
    else phase
  }

  function Prepare(g: Guard, payload: Octets): (Guard, Verdict)
    requires |payload| > 2
  {
    var cw := Word(payload);
    var reset := Bit(cw, RESET_BIT) && !Bit(g.previousCw, RESET_BIT);
    var g1 := g.(previousCw := cw);
    match g.phase
    case Normal => (g1, Forward(payload, false))
    case VerifyReset =>
      (g1, if Bit(cw, RESET_BIT) then Block else Forward(WithWord(0, payload), true))
    case Faulted =>
      if g.restartRequired then (g1, Block)
      else if reset then
        (g1.(fault := match g1.fault
                      case None => None
                      case Some(d) => Some(d.(acknowledged := true))),
         Forward(WithWord(RESET_BIT, payload), true))
      else if g.fault.Some? && g.fault.value.code == DriveFault then
        (g1, Forward(WithWord(0, payload), false))
      else (g1, Block)
    case _ =>
      var phase := NextPhase(g.phase, cw, payload[2]);
      if phase == g.phase then (g1, Block) else (g1.(phase := phase), Forward(payload, false))
  }

  function Accept(g: Guard, output: Octets, resetting: bool): Guard
    requires |output| == |g.last| >= 2
  {
    var sw := Word(output);
    var g1 := g.(last := output, feedbackValid := true, warning := Bit(sw, 0x0080));
    if Bit(sw, FAULT_BIT) then Detect(g1, DriveFault, false)
    else if resetting && g1.fault.Some? then
      if g1.phase == VerifyReset then g1.(fault := None, phase := Shutdown)
      else g1.(phase := VerifyReset)
    else g1
  }

  /** A statusword with the fault bit set and every other state bit cleared. */
  function Project(sw: bv16): bv16 {
    (sw & !STATE_MASK) | FAULT_BIT
  }

  /** The process image of a response. */
  function ImageOf(g: Guard): (data: Octets)
    requires |g.last| >= 2
    ensures |data| == |g.last| && data[2..] == g.last[2..]
  {
    if g.fault.None? then g.last else WithWord(Project(Word(g.last)), g.last)
  }

  class AxisFault {
    var phase: Phase
    var fault: Option<Diagnostic>
    var restartRequired: bool
    var previousCw: bv16
    var last: Octets
    var warning: bool
    var feedbackValid: bool

    constructor (initial: Octets)
      ensures View() == InitialGuard(initial)
    {
      phase, fault, restartRequired := Normal, None, false;
      previousCw, last, warning, feedbackValid := 0, initial, false, true;
    }

    ghost function View(): Guard
      reads this
    {
      Guard(phase, fault, restartRequired, previousCw, last, warning, feedbackValid)
    }

    method DetectFault(code: Code, restart: bool)
      modifies this
      ensures View() == Detect(old(View()), code, restart)
    {
      if code != DriveFault || restart {
        feedbackValid := false;
      }
      if fault.None? {
        fault := Some(Diagnostic(code, false, restart));
      } else if restart && !restartRequired {
        fault := Some(fault.value.(needsRestart := true));
      }
      restartRequired := restartRequired || restart;
      phase := Faulted;
    }

    method PreparePdo(payload: Octets) returns (verdict: Verdict)
      requires |payload| > 2
      modifies this
      ensures (View(), verdict) == Prepare(old(View()), payload)
      ensures old(phase) == Normal ==> verdict == Forward(payload, false) && phase == Normal && fault == old(fault)
      ensures old(phase) == VerifyReset ==>
                verdict == if Word(payload) & 0x80 != 0 then Block else Forward(WithWord(0x0000, payload), true)
      ensures old(phase) == Faulted && !old(restartRequired)
              && Word(payload) & 0x80 != 0 && old(previousCw) & 0x80 == 0 ==>
                verdict == Forward(WithWord(0x0080, payload), true) && (fault.Some? ==> fault.value.acknowledged)
      ensures old(restartRequired) && old(phase) == Faulted ==> verdict == Block
    {
      var cw := Word(payload);
      var reset := Bit(cw, RESET_BIT) && !Bit(previousCw, RESET_BIT);
      previousCw := cw;
      if phase == Normal {
        return Forward(payload, false);
      }
      if phase == VerifyReset {
        if Bit(cw, RESET_BIT) {
          return Block;
        }
        return Forward(WithWord(0, payload), true);
      }
      if phase == Faulted {
        if restartRequired || !reset {
          if !restartRequired && fault.Some? && fault.value.code == DriveFault {
            return Forward(WithWord(0, payload), false);
          }
          return Block;
        }
        if fault.Some? {
          fault := Some(fault.value.(acknowledged := true));
        }
        return Forward(WithWord(RESET_BIT, payload), true);
      }
      var masked := cw & 0x008f;
      if phase == Shutdown && masked == 6 {
        phase := SwitchOn;
      } else if phase == SwitchOn && masked == 7 {
        phase := Enable;
      } else if phase == Enable && masked == 15 && !Bit(cw, 0x0010) && payload[2] == 1 {
        phase := Normal;
      } else {
        return Block;
      }
      return Forward(payload, false);
    }

    method AcceptOutput(output: Octets, resetting: bool) returns (valid: bool)
      requires |last| >= 2
      modifies this
      ensures valid == (|output| == |old(last)|)
      ensures View() == if valid then Accept(old(View()), output, resetting) else old(View())
    {
      if |output| != |last| {
        return false;
      }
      var sw := Word(output);
      last := output;
      feedbackValid := true;
      warning := Bit(sw, 0x0080);
      if Bit(sw, FAULT_BIT) {
        DetectFault(DriveFault, false);
      } else if resetting && fault.Some? {
        if phase == VerifyReset {
          fault := None;
          phase := Shutdown;
        } else {
          phase := VerifyReset;
        }
      }
      return true;
    }

    method ResponseImage() returns (data: Octets)
      requires |last| >= 2
      ensures data == ImageOf(View())
    {
      data := last;
      if fault.Some? {
        data := WithWord((Word(data) & !STATE_MASK) | FAULT_BIT, data);
      }
    }
  }

  /** A projected statusword shows the fault bit and no state bit. */
  lemma ProjectedWord(sw: bv16)
    ensures Project(sw) & STATE_MASK == FAULT_BIT
  {
  }
}
