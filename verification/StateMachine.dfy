/** The controlword state machine of the virtual drive, a subset of the PDS
    finite state automaton of CiA 402-2. */
module StateMachine {

  datatype State =
    | SwitchOnDisabled
    | ReadyToSwitchOn
    | SwitchedOn
    | OperationEnabled
    | Fault

  /** How far a state is up the enabling ladder. */
  function Level(s: State): nat {
    match s
    case SwitchOnDisabled => 0
    case ReadyToSwitchOn => 1
    case SwitchedOn => 2
    case OperationEnabled => 3
    case Fault => 0
  }

  /** The state after one controlword. */
  function Next(s: State, cw: bv16): State {
    if cw & 0x0080 != 0 then
      if s == Fault then SwitchOnDisabled else s
    else if cw & 0x0087 == 0 then SwitchOnDisabled
    else match s
      case SwitchOnDisabled =>
        if cw & 0x0087 == 0x0006 then ReadyToSwitchOn else s
      case ReadyToSwitchOn =>
        if cw & 0x008F == 0x0007 then SwitchedOn else s
      case SwitchedOn =>
        if cw & 0x008F == 0x000F then OperationEnabled
        else if cw & 0x0087 == 0x0006 then ReadyToSwitchOn
        else s
      case OperationEnabled =>
        if cw & 0x008F == 0x0007 then SwitchedOn
        else if cw & 0x0087 == 0x0006 then ReadyToSwitchOn
        else s
      case Fault => s
  }

  function Statusword(s: State): bv16 {
    match s
    case SwitchOnDisabled => 0x0040
    case ReadyToSwitchOn => 0x0021
    case SwitchedOn => 0x0023
    case OperationEnabled => 0x0027
    case Fault => 0x0008
  }

  class CiA402StateMachine {
    var state: State

    constructor ()
      ensures state == SwitchOnDisabled
    {
      state := SwitchOnDisabled;
    }

    method Process(controlword: bv16)
      modifies this
      ensures state == Next(old(state), controlword)
    {
      if controlword & 0x0080 != 0 {
        if state == Fault {
          state := SwitchOnDisabled;
        }
        return;
      }
      if controlword & 0x0087 == 0x0000 {
        state := SwitchOnDisabled;
        return;
      }
      if state == SwitchOnDisabled {
        if controlword & 0x0087 == 0x0006 {
          state := ReadyToSwitchOn;
        }
      } else if state == ReadyToSwitchOn {
        if controlword & 0x008F == 0x0007 {
          state := SwitchedOn;
        }
      } else if state == SwitchedOn {
        if controlword & 0x008F == 0x000F {
          state := OperationEnabled;
        } else if controlword & 0x0087 == 0x0006 {
          state := ReadyToSwitchOn;
        }
      } else if state == OperationEnabled {
        if controlword & 0x008F == 0x0007 {
          state := SwitchedOn;
        } else if controlword & 0x0087 == 0x0006 {
          state := ReadyToSwitchOn;
        }
      }
    }

    method GetStatusword() returns (sw: bv16)
      ensures sw == Statusword(state)
      ensures sw == 0x0027 <==> state == OperationEnabled
    {
      if state == SwitchOnDisabled {
        return 0x0040;
      } else if state == ReadyToSwitchOn {
        return 0x0021;
      } else if state == SwitchedOn {
        return 0x0023;
      } else if state == OperationEnabled {
        return 0x0027;
      }
      return 0x0008;
    }
  }

  /** The state after a sequence of controlwords. */
  function After(s: State, words: seq<bv16>): State {
    if words == [] then s
    else Next(After(s, words[..|words| - 1]), words[|words| - 1])
  }

  /** One word climbs at most one rung, and each rung has its own word;
      no word leads into Fault. */
  lemma RungByRung(s: State, cw: bv16)
    ensures Level(Next(s, cw)) <= Level(s) + 1
    ensures Level(Next(s, cw)) > Level(s) ==>
              (Level(s) == 0 && cw & 0x0087 == 0x0006)
              || (Level(s) == 1 && cw & 0x008F == 0x0007)
              || (Level(s) == 2 && cw & 0x008F == 0x000F)
    ensures Next(s, cw) == Fault ==> s == Fault
  {
  }

  /** The climbing word of each rung. */
  predicate Climbs(rung: nat, cw: bv16) {
    match rung
    case 0 => cw & 0x0087 == 0x0006
    case 1 => cw & 0x008F == 0x0007
    case 2 => cw & 0x008F == 0x000F
    case _ => false
  }

  /** Strictly increasing positions of words that climb rung after rung. */
  ghost predicate LadderAt(words: seq<bv16>, at: seq<nat>) {
    && (forall i :: 0 <= i < |at| ==> at[i] < |words| && Climbs(i, words[at[i]]))
    && (forall i, j :: 0 <= i < j < |at| ==> at[i] < at[j])
  }

  /** A drive that was switched off stands on rung n only after the climbing words
      of all lower rungs arrived in order: Operation Enabled needs Shutdown, then
      Switch On, then Enable Operation. */
  lemma {:induction false} EnabledOnlyUpTheLadder(words: seq<bv16>) returns (at: seq<nat>)
    ensures |at| == Level(After(SwitchOnDisabled, words))
    ensures LadderAt(words, at)
  {
    hide Next, Climbs;
    if words == [] {
      return [];
    }
    var before, cw := words[..|words| - 1], words[|words| - 1];
    at := EnabledOnlyUpTheLadder(before);
    var s := After(SwitchOnDisabled, before);
    RungByRung(s, cw);
    ClimbsAre(s, cw);
    LadderKeeps(words, at);
    var level := Level(Next(s, cw));
    at := if level > Level(s) then at + [|words| - 1] else at[..level];
  }

  lemma ClimbsAre(s: State, cw: bv16)
    ensures Level(Next(s, cw)) > Level(s) ==> Climbs(Level(s), cw)
  {
  }

  lemma LadderKeeps(words: seq<bv16>, at: seq<nat>)
    requires words != [] && LadderAt(words[..|words| - 1], at)
    ensures LadderAt(words, at) && forall i :: 0 <= i < |at| ==> at[i] < |words| - 1
  {
    hide Climbs;
    assert forall i :: 0 <= i < |words| - 1 ==> words[..|words| - 1][i] == words[i];
  }
}
