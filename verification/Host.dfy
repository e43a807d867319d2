/** The host process: it pumps finished responses into the process images, submits at most
    one cyclic request for each slave, and freezes every image once the model host failed.
    The worker thread of the client runs between any two of its steps. */
module HostLoop {
  import opened Words
  import opened Wrappers
  import opened HexCodec
  import opened AsyncClient

  /** Cyclic requests and object accesses; the slave index travels with every message. */
  datatype Message = Cycle(slave: nat, data: string) | Idle(slave: nat) | ObjectAccess(slave: nat)

  /** A response may lack its data. */
  datatype Response = Response(data: Option<string>)

  datatype Slave = Slave(
    pending: Option<Id>,
    input: Octets,
    origin: Option<Id>)                // history: the job whose response was published last

  datatype Position = Between | Pumping(next: nat)

  datatype Host = Host(slaves: seq<Slave>, failed: bool, position: Position, client: Client<Message, Response>)

  datatype Event =
    | Client(step: Step<Message, Response>)
    | BeginPump
    | PumpNext
    | SubmitCycle(slave: nat, output: Octets)
    | SubmitIdle(slave: nat)
    | Access(slave: nat)

  const STATE_MASK: bv16 := 0x106f
  const FAULT_BIT: bv16 := 0x0008

  predicate IsCyclic(m: Message, slave: nat) {
    !m.ObjectAccess? && m.slave == slave
  }

  /** The statusword of a failed host: fault bit set, other state bits clear. */
  predicate ShowsFault(input: Octets)
    requires |input| >= 2
  {
    Word(input) & STATE_MASK == FAULT_BIT
  }

  function MaskInput(input: Octets): Octets
    requires |input| >= 2
  {
    WithWord((Word(input) & !STATE_MASK) | FAULT_BIT, input)
  }

  // ---- Looking at promises ----

  /** What a ready promise gives: a whole image, or nothing. */
  function ImageFrom(outcome: Outcome<Response>, size: nat): Option<Octets> {
    match outcome
    case Exception => None
    case Value(response) => if response.data.None? then None else Unhex(response.data.value, size)
  }

  // ---- Steps of the main loop ----

  /** Collect a ready response, or fail the host; a failed host publishes nothing. */
  function Collect(h: Host, i: nat): Host
    requires i < |h.slaves|
  {
    var s := h.slaves[i];
    if s.pending.None? then h
    else
      match Find(h.client.settled, s.pending.value)
      case None => h
      case Some(outcome) =>
        var s1 := s.(pending := None);
        if h.failed then h.(slaves := h.slaves[i := s1])
        else
          match ImageFrom(outcome, |s.input|)
          case None => h.(slaves := h.slaves[i := s1], failed := true)
          case Some(data) => h.(slaves := h.slaves[i := s1.(input := data, origin := s.pending)])
  }

  function MaskSlave(h: Host, i: nat): Host
    requires i < |h.slaves| && |h.slaves[i].input| >= 2
  {
    if h.failed then h.(slaves := h.slaves[i := h.slaves[i].(input := MaskInput(h.slaves[i].input))]) else h
  }

  predicate WellFormed(h: Host) {
    && |h.slaves| > 0
    && (forall i :: 0 <= i < |h.slaves| ==> |h.slaves[i].input| >= 2)
    && (h.position.Pumping? ==> h.position.next < |h.slaves|)
  }

  function PumpSlave(h: Host, i: nat): Host
    requires WellFormed(h) && i < |h.slaves|
  {
    CollectKeepsShape(h, i);
    MaskSlave(Collect(h, i), i)
  }

  lemma CollectKeepsShape(h: Host, i: nat)
    requires WellFormed(h) && i < |h.slaves|
    ensures WellFormed(Collect(h, i)) && |Collect(h, i).slaves| == |h.slaves|
    ensures Collect(h, i).client == h.client && Collect(h, i).position == h.position
  {
  }

  /** A cyclic request is submitted only while healthy and with none outstanding. */
  function SubmitCyclic(h: Host, m: Message): Host
    requires !m.ObjectAccess? && m.slave < |h.slaves|
  {
    var s := h.slaves[m.slave];
    if h.failed || s.pending.Some? || h.client.worker == Joined then h
    else h.(client := AsyncClient.Next(h.client, Submit(m)),
            slaves := h.slaves[m.slave := s.(pending := Some(|h.client.messages|))])
  }

  /** Events that are not possible in a state change nothing. */
  function HostNext(h: Host, e: Event): Host
    requires WellFormed(h)
  {
    match e
    case Client(step) => if step.Submit? then h else h.(client := AsyncClient.Next(h.client, step))
    case BeginPump =>
      if h.position != Between then h
      else h.(failed := h.failed || h.client.failure != "", position := Pumping(0))
    case PumpNext =>
      if h.position == Between then h
      else
        var i := h.position.next;
        PumpSlave(h, i).(position := if i + 1 < |h.slaves| then Pumping(i + 1) else Between)
    case SubmitCycle(i, output) =>
      if h.position != Between || i >= |h.slaves| then h else SubmitCyclic(h, Cycle(i, Hex(output)))
    case SubmitIdle(i) =>
      if h.position != Between || i >= |h.slaves| then h else SubmitCyclic(h, Idle(i))
    case Access(i) =>
      if h.position != Between then h
      else h.(client := AsyncClient.Next(h.client, Submit(ObjectAccess(i))))
  }

  lemma HostNextKeepsShape(h: Host, e: Event)
    requires WellFormed(h)
    ensures WellFormed(HostNext(h, e)) && |HostNext(h, e).slaves| == |h.slaves|
    ensures forall i :: 0 <= i < |h.slaves| ==> |HostNext(h, e).slaves[i].input| == |h.slaves[i].input|
  {
    hide AsyncClient.Next, Hex, Find;
    if e == PumpNext && h.position.Pumping? {
      CollectKeepsShape(h, h.position.next);
    }
  }

  function HostRun(h: Host, events: seq<Event>): (r: Host)
    requires WellFormed(h)
    ensures WellFormed(r) && |r.slaves| == |h.slaves|
    ensures forall i :: 0 <= i < |h.slaves| ==> |r.slaves[i].input| == |h.slaves[i].input|
    decreases |events|
  {
    if events == [] then h
    else
      var before := HostRun(h, events[..|events| - 1]);
      HostNextKeepsShape(before, events[|events| - 1]);
      HostNext(before, events[|events| - 1])
  }

  // ---- The invariant of the host ----

  /** The image is the whole of a valid response to this slave's own request, or the one
      it started with; a failed host may have replaced the statusword, nothing else. */
  ghost predicate OwnImage(h: Host, i: nat, initial: Octets)
    requires i < |h.slaves| && |h.slaves[i].input| >= 2
  {
    var s := h.slaves[i];
    match s.origin
    case None => |initial| == |s.input| && SameImage(h, s.input, initial)
    case Some(job) =>
      && job < |h.client.messages| && IsCyclic(h.client.messages[job], i)
      && exists r: Outcome<Response> :: Settlement(job, r) in h.client.settled && Shows(h, s.input, r)
  }

  predicate SameImage(h: Host, input: Octets, data: Octets)
    requires |input| == |data| >= 2
  {
    input[2..] == data[2..] && (h.failed || input == data)
  }

  predicate Shows(h: Host, input: Octets, r: Outcome<Response>)
    requires |input| >= 2
  {
    match ImageFrom(r, |input|)
    case None => false
    case Some(data) => |data| == |input| && SameImage(h, input, data)
  }

  /** Every open cyclic request of a slave is the one the slave waits for. */
  ghost predicate Outstanding(h: Host, i: nat)
    requires i < |h.slaves|
  {
    && (forall job: Id :: job < |h.client.messages| && IsCyclic(h.client.messages[job], i) ==>
          IsSettled(h.client.settled, job) || h.slaves[i].pending == Some(job))
    && (h.slaves[i].pending.Some? ==>
          h.slaves[i].pending.value < |h.client.messages|
          && IsCyclic(h.client.messages[h.slaves[i].pending.value], i))
  }

  ghost predicate HostInv(h: Host, initial: seq<Octets>) {
    && WellFormed(h) && Inv(h.client) && |initial| == |h.slaves|
    && (forall i :: 0 <= i < |h.slaves| ==> Outstanding(h, i) && OwnImage(h, i, initial[i]))
  }

  // ---- Client steps ----

  lemma SettledStays<R>(before: seq<Settlement<R>>, after: seq<Settlement<R>>, job: Id)
    requires before <= after && IsSettled(before, job)
    ensures IsSettled(after, job)
  {
    var i :| 0 <= i < |before| && before[i].job == job;
    assert after[i].job == job;
  }

  /** Only the client moved, and it submitted nothing cyclic for this slave. */
  predicate ClientMoved(h: Host, g: Host, i: nat)
    requires i < |h.slaves| && i < |g.slaves|
  {
    && g.slaves[i] == h.slaves[i] && h.client.settled <= g.client.settled
    && h.client.messages <= g.client.messages && (h.failed ==> g.failed)
    && (forall job: Id :: |h.client.messages| <= job < |g.client.messages| ==> !IsCyclic(g.client.messages[job], i))
  }

  lemma MovedKeepsOwn(h: Host, g: Host, i: nat, initial: Octets)
    requires i < |h.slaves| && i < |g.slaves| && |h.slaves[i].input| >= 2 && ClientMoved(h, g, i)
    requires Outstanding(h, i) && OwnImage(h, i, initial)
    ensures Outstanding(g, i) && OwnImage(g, i, initial)
  {
    hide IsSettled, ImageFrom, IsCyclic;
    forall job: Id | job < |h.client.messages| && IsSettled(h.client.settled, job)
      ensures IsSettled(g.client.settled, job)
    {
      SettledStays(h.client.settled, g.client.settled, job);
    }
    forall job: Id | job < |g.client.messages| && IsCyclic(g.client.messages[job], i)
      ensures job < |h.client.messages| && g.client.messages[job] == h.client.messages[job]
    {
    }
    if h.slaves[i].origin.Some? {
      var job := h.slaves[i].origin.value;
      var r: Outcome<Response> :| Settlement(job, r) in h.client.settled && Shows(h, h.slaves[i].input, r);
      assert Settlement(job, r) in g.client.settled;
    }
  }

  // ---- Pumping ----

  lemma MaskKeepsTail(input: Octets)
    requires |input| >= 2
    ensures |MaskInput(input)| == |input| && MaskInput(input)[2..] == input[2..] && ShowsFault(MaskInput(input))
  {
    hide Word;
    var w := (Word(input) & !STATE_MASK) | FAULT_BIT;
    WithWordReads(w, input);
    assert w & STATE_MASK == FAULT_BIT;
  }

  /** Collecting a settled promise frees the slave; what it publishes is its own. */
  lemma CollectKeepsOwn(h: Host, i: nat, initial: Octets)
    requires WellFormed(h) && i < |h.slaves|
    requires Outstanding(h, i) && OwnImage(h, i, initial)
    ensures Outstanding(Collect(h, i), i) && OwnImage(Collect(h, i), i, initial)
  {
    hide IsSettled, IsCyclic, Unhex;
    var g, s := Collect(h, i), h.slaves[i];
    if s.pending.Some? && Find(h.client.settled, s.pending.value).Some? {
      var job, r := s.pending.value, Find(h.client.settled, s.pending.value).value;
      UnhexLength(r, |s.input|);
      assert Settlement(job, r) in g.client.settled;
      if !h.failed && ImageFrom(r, |s.input|).Some? {
        assert Shows(g, g.slaves[i].input, r);
      } else if s.origin.Some? {
        var q: Outcome<Response> :| Settlement(s.origin.value, q) in h.client.settled && Shows(h, s.input, q);
        assert Shows(g, g.slaves[i].input, q);
      }
    }
  }

  lemma UnhexLength(r: Outcome<Response>, size: nat)
    ensures ImageFrom(r, size).Some? ==> |ImageFrom(r, size).value| == size
  {
  }

  lemma MaskKeepsOwn(h: Host, i: nat, initial: Octets)
    requires WellFormed(h) && i < |h.slaves|
    requires Outstanding(h, i) && OwnImage(h, i, initial)
    ensures Outstanding(MaskSlave(h, i), i) && OwnImage(MaskSlave(h, i), i, initial)
  {
    hide IsSettled, IsCyclic, ImageFrom, MaskInput, ShowsFault;
    var g, s := MaskSlave(h, i), h.slaves[i];
    MaskKeepsTail(s.input);
    if s.origin.Some? {
      var q: Outcome<Response> :| Settlement(s.origin.value, q) in h.client.settled && Shows(h, s.input, q);
      assert Shows(g, g.slaves[i].input, q);
    }
  }

  /** Pumping one slave leaves the others alone. */
  lemma PumpFrame(h: Host, i: nat, k: nat)
    requires WellFormed(h) && i < |h.slaves| && k < |h.slaves| && k != i
    ensures WellFormed(PumpSlave(h, i)) && ClientMoved(h, PumpSlave(h, i), k)
    ensures PumpSlave(h, i).client == h.client && |PumpSlave(h, i).slaves| == |h.slaves|
  {
    hide Find, ImageFrom, IsCyclic;
    CollectKeepsShape(h, i);
  }

  lemma PumpKeepsInv(h: Host, i: nat, initial: seq<Octets>)
    requires HostInv(h, initial) && i < |h.slaves|
    ensures HostInv(PumpSlave(h, i), initial)
  {
    hide Find, Outstanding, OwnImage, ClientMoved, Inv;
    CollectKeepsShape(h, i);
    CollectKeepsOwn(h, i, initial[i]);
    MaskKeepsOwn(Collect(h, i), i, initial[i]);
    var g := PumpSlave(h, i);
    forall k | 0 <= k < |h.slaves| && k != i
      ensures Outstanding(g, k) && OwnImage(g, k, initial[k])
    {
      PumpFrame(h, i, k);
      MovedKeepsOwn(h, g, k, initial[k]);
    }
  }

  // ---- Submitting ----

  lemma SubmitKeepsOwn(h: Host, m: Message, initial: Octets)
    requires WellFormed(h) && Inv(h.client) && !m.ObjectAccess? && m.slave < |h.slaves|
    requires Outstanding(h, m.slave) && OwnImage(h, m.slave, initial)
    ensures Outstanding(SubmitCyclic(h, m), m.slave) && OwnImage(SubmitCyclic(h, m), m.slave, initial)
  {
    hide IsSettled, ImageFrom, AsyncClient.Next, Inv;
    var g, i := SubmitCyclic(h, m), m.slave;
    NextGrows(h.client, Submit(m));
    if g != h {
      forall job: Id | job < |h.client.messages| && IsSettled(h.client.settled, job)
        ensures IsSettled(g.client.settled, job)
      {
        SettledStays(h.client.settled, g.client.settled, job);
      }
      if h.slaves[i].origin.Some? {
        var job := h.slaves[i].origin.value;
        var r: Outcome<Response> :| Settlement(job, r) in h.client.settled && Shows(h, h.slaves[i].input, r);
        assert Settlement(job, r) in g.client.settled && Shows(g, g.slaves[i].input, r);
      }
    }
  }

  lemma SubmitKeepsInv(h: Host, m: Message, initial: seq<Octets>)
    requires HostInv(h, initial) && !m.ObjectAccess? && m.slave < |h.slaves|
    ensures HostInv(SubmitCyclic(h, m), initial)
  {
    hide Outstanding, OwnImage, Inv, AsyncClient.Next;
    var g := SubmitCyclic(h, m);
    AsyncClient.NextKeepsInv(h.client, Submit(m));
    NextGrows(h.client, Submit(m));
    SubmitKeepsOwn(h, m, initial[m.slave]);
    forall k | 0 <= k < |h.slaves| && k != m.slave
      ensures Outstanding(g, k) && OwnImage(g, k, initial[k])
    {
      MovedKeepsOwn(h, g, k, initial[k]);
    }
  }

  lemma ClientStepKeepsInv(h: Host, step: Step<Message, Response>, initial: seq<Octets>)
    requires HostInv(h, initial) && (step.Submit? ==> step.message.ObjectAccess?)
    ensures HostInv(h.(client := AsyncClient.Next(h.client, step)), initial)
  {
    hide Outstanding, OwnImage, Inv, AsyncClient.Next;
    var g := h.(client := AsyncClient.Next(h.client, step));
    AsyncClient.NextKeepsInv(h.client, step);
    NextGrows(h.client, step);
    forall k | 0 <= k < |h.slaves|
      ensures Outstanding(g, k) && OwnImage(g, k, initial[k])
    {
      MovedKeepsOwn(h, g, k, initial[k]);
    }
  }

  /** Position and failure flag alone. */
  lemma FlagsKeepInv(h: Host, failed: bool, position: Position, initial: seq<Octets>)
    requires HostInv(h, initial) && (h.failed ==> failed)
    requires position.Pumping? ==> position.next < |h.slaves|
    ensures HostInv(h.(failed := failed, position := position), initial)
  {
    hide Outstanding, OwnImage, Inv;
    var g := h.(failed := failed, position := position);
    forall k | 0 <= k < |h.slaves|
      ensures Outstanding(g, k) && OwnImage(g, k, initial[k])
    {
      MovedKeepsOwn(h, g, k, initial[k]);
    }
  }

  lemma HostNextKeepsInv(h: Host, e: Event, initial: seq<Octets>)
    requires HostInv(h, initial)
    ensures HostInv(HostNext(h, e), initial)
  {
    hide HostInv, PumpSlave, SubmitCyclic, AsyncClient.Next, Hex;
    InvIsWellFormed(h, initial);
    match e
    case Client(step) =>
      if !step.Submit? {
        ClientStepKeepsInv(h, step, initial);
      }
    case BeginPump =>
      FlagsKeepInv(h, h.failed || h.client.failure != "", Pumping(0), initial);
    case PumpNext =>
      if h.position.Pumping? {
        var i := h.position.next;
        PumpKeepsInv(h, i, initial);
        var g := PumpSlave(h, i);
        InvIsWellFormed(g, initial);
        FlagsKeepInv(g, g.failed, if i + 1 < |h.slaves| then Pumping(i + 1) else Between, initial);
      }
    case SubmitCycle(i, output) =>
      if i < |h.slaves| {
        SubmitKeepsInv(h, Cycle(i, Hex(output)), initial);
      }
    case SubmitIdle(i) =>
      if i < |h.slaves| {
        SubmitKeepsInv(h, Idle(i), initial);
      }
    case Access(i) => ClientStepKeepsInv(h, Submit(ObjectAccess(i)), initial);
  }

  lemma InvIsWellFormed(h: Host, initial: seq<Octets>)
    requires HostInv(h, initial)
    ensures WellFormed(h) && |initial| == |h.slaves|
  {
  }

  /** The main loop starts with the images of the start-up requests, all of them answered. */
  ghost predicate Starts(h: Host, initial: seq<Octets>) {
    && WellFormed(h) && h.position == Between && !h.failed && |initial| == |h.slaves|
    && (forall i :: 0 <= i < |h.slaves| ==> h.slaves[i] == Slave(None, initial[i], None))
    && Inv(h.client)
    && (forall job: Id :: job < |h.client.messages| && !h.client.messages[job].ObjectAccess? ==>
          IsSettled(h.client.settled, job))
  }

  lemma StartInv(h: Host, initial: seq<Octets>)
    requires Starts(h, initial)
    ensures HostInv(h, initial)
  {
    hide Inv, IsSettled;
  }

  lemma {:induction false} RunKeepsHostInv(h: Host, events: seq<Event>, initial: seq<Octets>)
    requires HostInv(h, initial)
    ensures HostInv(HostRun(h, events), initial)
    decreases |events|
  {
    hide HostInv, HostNext;
    InvIsWellFormed(h, initial);
    if events != [] {
      var n := |events| - 1;
      RunKeepsHostInv(h, events[..n], initial);
      HostNextKeepsInv(HostRun(h, events[..n]), events[n], initial);
    }
  }

  /** From the start of the main loop, under every interleaving with the worker: each image
      is the whole of a valid response to the slave's own request, or the one it started
      with. */
  lemma EveryImageIsOwn(h: Host, events: seq<Event>, initial: seq<Octets>, i: nat)
    requires Starts(h, initial) && i < |h.slaves|
    ensures OwnImage(HostRun(h, events), i, initial[i])
  {
    hide Starts, OwnImage, Outstanding, Inv, HostRun;
    StartInv(h, initial);
    InvIsWellFormed(h, initial);
    RunKeepsHostInv(h, events, initial);
  }

  /** An open cyclic request of a slave. */
  ghost predicate OpenCyclic(h: Host, i: nat, job: Id) {
    job < |h.client.messages| && IsCyclic(h.client.messages[job], i) && !IsSettled(h.client.settled, job)
  }

  /** In every run from the start, two open cyclic requests of a slave are the same one, and
      it is the one the slave waits for. */
  lemma AtMostOneOutstanding(h: Host, events: seq<Event>, initial: seq<Octets>, i: nat, job: Id, other: Id)
    requires Starts(h, initial) && i < |h.slaves|
    requires OpenCyclic(HostRun(h, events), i, job) && OpenCyclic(HostRun(h, events), i, other)
    ensures job == other && HostRun(h, events).slaves[i].pending == Some(job)
  {
    hide Starts, OwnImage, Inv, IsCyclic, IsSettled, HostRun;
    StartInv(h, initial);
    InvIsWellFormed(h, initial);
    RunKeepsHostInv(h, events, initial);
    assert Outstanding(HostRun(h, events), i);
  }

  // ---- After the failure ----

  /** Nothing but the statusword of an image changes between two states of a failed host. */
  predicate Contained(h: Host, g: Host) {
    && h.failed && g.failed && |g.slaves| == |h.slaves|
    && forall i :: 0 <= i < |h.slaves| ==>
         |g.slaves[i].input| == |h.slaves[i].input| >= 2 && g.slaves[i].input[2..] == h.slaves[i].input[2..]
  }

  lemma PumpContains(h: Host, i: nat)
    requires WellFormed(h) && h.failed && i < |h.slaves|
    ensures Contained(h, PumpSlave(h, i))
    ensures PumpSlave(h, i).slaves[i].input == MaskInput(h.slaves[i].input)
    ensures forall k :: 0 <= k < |h.slaves| && k != i ==> PumpSlave(h, i).slaves[k].input == h.slaves[k].input
    ensures PumpSlave(h, i).client == h.client
  {
    hide Find, ImageFrom, MaskInput;
    CollectKeepsShape(h, i);
    MaskKeepsTail(h.slaves[i].input);
  }

  /** One event on a failed host: it stays failed, octets from 2 on stay, and no cyclic
      request is submitted. */
  lemma FailedStep(h: Host, e: Event)
    requires WellFormed(h) && h.failed
    ensures Contained(h, HostNext(h, e))
    ensures h.client.messages <= HostNext(h, e).client.messages
    ensures forall job :: |h.client.messages| <= job < |HostNext(h, e).client.messages| ==>
              HostNext(h, e).client.messages[job].ObjectAccess?
  {
    hide PumpSlave, AsyncClient.Next, Hex;
    if e == PumpNext && h.position.Pumping? {
      PumpContains(h, h.position.next);
    }
    ClientStepOf(h.client, e);
  }

  lemma ClientStepOf(c: Client<Message, Response>, e: Event)
    ensures e.Client? && !e.step.Submit? ==> AsyncClient.Next(c, e.step).messages == c.messages
    ensures e.Access? ==>
              AsyncClient.Next(c, Submit(ObjectAccess(e.slave))).messages
              in {c.messages, c.messages + [ObjectAccess(e.slave)]}
  {
    hide Broken;
    if e.Client? {
      NextGrows(c, e.step);
    }
    if e.Access? {
      NextGrows(c, Submit(ObjectAccess(e.slave)));
    }
  }

  /** Containment over whole runs: the failure never clears, no image changes from octet 2
      on, and every later submission is an object access. */
  lemma {:induction false} FailureIsContained(h: Host, events: seq<Event>)
    requires WellFormed(h) && h.failed
    ensures Contained(h, HostRun(h, events))
    ensures h.client.messages <= HostRun(h, events).client.messages
    ensures forall job :: |h.client.messages| <= job < |HostRun(h, events).client.messages| ==>
              HostRun(h, events).client.messages[job].ObjectAccess?
    decreases |events|
  {
    hide HostNext;
    if events != [] {
      var n := |events| - 1;
      FailureIsContained(h, events[..n]);
      FailedStep(HostRun(h, events[..n]), events[n]);
    }
  }

  /** A pump that began on a failed host has masked the slaves it passed. */
  predicate Masking(h: Host)
    requires WellFormed(h)
  {
    h.failed
    && forall i :: 0 <= i < (if h.position.Pumping? then h.position.next else |h.slaves|) ==>
         ShowsFault(h.slaves[i].input)
  }

  predicate AllMasked(h: Host)
    requires WellFormed(h)
  {
    h.failed && forall i :: 0 <= i < |h.slaves| ==> ShowsFault(h.slaves[i].input)
  }

  lemma MaskingStep(h: Host, e: Event)
    requires WellFormed(h) && h.failed
    ensures WellFormed(HostNext(h, e))
    ensures AllMasked(h) ==> AllMasked(HostNext(h, e))
    ensures Masking(h) && (h.position == Between ==> AllMasked(h)) ==> Masking(HostNext(h, e))
    ensures h.position == Between && e == BeginPump ==> Masking(HostNext(h, e))
  {
    hide PumpSlave, AsyncClient.Next, Hex, ShowsFault, MaskInput;
    HostNextKeepsShape(h, e);
    if e == PumpNext && h.position.Pumping? {
      var i := h.position.next;
      PumpContains(h, i);
      MaskKeepsTail(h.slaves[i].input);
    }
  }

  /** Whatever happens after a pump began on a failed host: once the pump is over, every
      image shows the fault and no state bit, and stays so. */
  lemma {:induction false} MaskedFromNextPump(h: Host, events: seq<Event>)
    requires WellFormed(h) && h.failed && h.position == Between
    ensures var g := HostRun(HostNext(h, BeginPump), events);
            Masking(g) && (g.position == Between ==> AllMasked(g))
    decreases |events|
  {
    hide HostNext, Masking, AllMasked;
    MaskingStep(h, BeginPump);
    MaskedBetween(HostNext(h, BeginPump));
    if events != [] {
      var n := |events| - 1;
      MaskedFromNextPump(h, events[..n]);
      var g := HostRun(HostNext(h, BeginPump), events[..n]);
      MaskedIsFailed(g);
      MaskingStep(g, events[n]);
      MaskedBetween(HostNext(g, events[n]));
    }
  }

  lemma MaskedBetween(h: Host)
    requires WellFormed(h)
    ensures Masking(h) && h.position == Between ==> AllMasked(h)
  {
  }

  lemma MaskedIsFailed(h: Host)
    requires WellFormed(h)
    ensures Masking(h) ==> h.failed
  {
  }

  /** What fails the host: a latched client failure at the start of a pump, or a settled
      promise of a slave that holds no valid image. */
  predicate Causes(h: Host, e: Event)
    requires WellFormed(h)
  {
    || (e == BeginPump && h.position == Between && h.client.failure != "")
    || (e == PumpNext && h.position.Pumping?
        && var s := h.slaves[h.position.next];
           s.pending.Some? && Find(h.client.settled, s.pending.value).Some?
           && ImageFrom(Find(h.client.settled, s.pending.value).value, |s.input|).None?)
  }

  lemma FailsOnCause(h: Host, e: Event)
    requires WellFormed(h)
    ensures HostNext(h, e).failed <==> h.failed || Causes(h, e)
  {
    hide Find, ImageFrom, AsyncClient.Next, Hex, MaskInput;
    if e == PumpNext && h.position.Pumping? {
      CollectKeepsShape(h, h.position.next);
    }
  }

  predicate CauseAt(h: Host, events: seq<Event>, i: nat)
    requires WellFormed(h)
  {
    i < |events| && Causes(HostRun(h, events[..i]), events[i])
  }

  lemma CauseInPrefix(h: Host, events: seq<Event>, n: nat, i: nat)
    requires WellFormed(h) && i < n <= |events|
    ensures CauseAt(h, events[..n], i) == CauseAt(h, events, i)
  {
    hide Causes, HostRun;
    assert events[..n][..i] == events[..i];
  }

  lemma LastCause(h: Host, events: seq<Event>)
    requires WellFormed(h) && events != []
    ensures HostRun(h, events).failed
            <==> HostRun(h, events[..|events| - 1]).failed || CauseAt(h, events, |events| - 1)
  {
    hide Causes, HostNext;
    FailsOnCause(HostRun(h, events[..|events| - 1]), events[|events| - 1]);
  }

  /** Over a whole run: the host has failed exactly when some event of the run was a cause. */
  lemma {:induction false} FailedExactlyByACause(h: Host, events: seq<Event>)
    requires WellFormed(h) && !h.failed
    ensures HostRun(h, events).failed <==> exists i: nat :: CauseAt(h, events, i)
    decreases |events|
  {
    hide CauseAt, HostNext;
    if events == [] {
      NoCause(h);
    } else {
      var n := |events| - 1;
      FailedExactlyByACause(h, events[..n]);
      LastCause(h, events);
      CausesEndAt(h, events);
      forall i: nat | i < n
        ensures CauseAt(h, events[..n], i) == CauseAt(h, events, i)
      {
        CauseInPrefix(h, events, n, i);
      }
      CausesEndAt(h, events[..n]);
    }
  }

  lemma CausesEndAt(h: Host, events: seq<Event>)
    requires WellFormed(h)
    ensures forall i: nat :: CauseAt(h, events, i) ==> i < |events|
  {
  }

  lemma NoCause(h: Host)
    requires WellFormed(h)
    ensures forall i: nat :: !CauseAt(h, [], i)
  {
  }

  // ---- The host as an object ----

  class ModelHost {
    const client: AsyncModelClient<Message, Response>
    var slaves: seq<Slave>
    var hostFailed: bool

    constructor (client: AsyncModelClient<Message, Response>, slaves: seq<Slave>)
      ensures this.client == client && View() == Host(slaves, false, Between, client.View())
    {
      this.client := client;
      this.slaves := slaves;
      hostFailed := false;
    }

    ghost function View(): Host
      reads this, client
    {
      Host(slaves, hostFailed, Between, client.View())
    }

    method FailHost()
      modifies this`hostFailed
      ensures hostFailed
    {
      hostFailed := true;
    }

    /** The outcome of a promise that is ready. */
    method Ready(job: Id) returns (outcome: Option<Outcome<Response>>)
      ensures outcome == Find(client.settled, job)
    {
      outcome := Find(client.settled, job);
    }

    method PumpOne(i: nat)
      requires WellFormed(View()) && i < |slaves|
      modifies this
      ensures WellFormed(old(View())) && View() == PumpSlave(old(View()), i)
    {
      hide Find, Hex, MaskInput, Unhex;
      var s := slaves[i];
      if s.pending.Some? {
        var outcome := Ready(s.pending.value);
        if outcome.Some? {
          Consume(i, outcome.value);
        }
      }
      if hostFailed {
        var input := slaves[i].input;
        slaves := slaves[i := slaves[i].(input := MaskInput(input))];
      }
    }

    /** Decode into a fresh buffer first, so that an image is replaced whole or not at all. */
    method Consume(i: nat, outcome: Outcome<Response>)
      requires WellFormed(View()) && i < |slaves| && slaves[i].pending.Some?
      requires Find(client.settled, slaves[i].pending.value) == Some(outcome)
      modifies this
      ensures View() == Collect(old(View()), i)
      ensures !old(hostFailed) && outcome.Value? && outcome.response.data.Some? ==>
                var text, s := outcome.response.data.value, old(slaves)[i];
                match Unhex(text, |s.input|)
                case Some(image) => slaves == old(slaves)[i := Slave(None, image, s.pending)] && !hostFailed
                case None => slaves == old(slaves)[i := s.(pending := None)] && hostFailed
    {
      hide Find, Hex, Unhex;
      var s := slaves[i];
      if outcome.Exception? {
        FailHost();
      } else if !hostFailed {
        var response := outcome.response;
        if response.data.None? {
          FailHost();
        } else {
          var validated := new bv8[|s.input|];
          var ok := DecodeHex(response.data.value, validated);
          if ok {
            s := s.(input := validated[..], origin := s.pending);
          } else {
            FailHost();
          }
        }
      }
      slaves := slaves[i := s.(pending := None)];
    }

    /** A pump without interleaving is the state machine's pump, slave after slave. */
    method Pump()
      requires WellFormed(View())
      modifies this
      ensures WellFormed(old(View()))
      ensures View() == PumpRange(Checked(old(View())), |old(slaves)|)
    {
      hide PumpSlave;
      ghost var start := Checked(View());
      if client.failure != "" {
        FailHost();
      }
      for i := 0 to |slaves|
        invariant |slaves| == |old(slaves)| && WellFormed(View())
        invariant View() == PumpRange(start, i)
      {
        PumpShape(View(), i);
        PumpOne(i);
      }
    }

    /** Submit a cycle for an operational slave that got process data, an idle for one that
        is not operational. */
    method SubmitDue(i: nat, operational: bool, pdo: bool, output: array<bv8>)
      requires WellFormed(View()) && i < |slaves| && client.worker != Joined
      modifies this, client
      ensures WellFormed(old(View()))
      ensures View() == if !operational then HostNext(old(View()), SubmitIdle(i))
                        else if pdo then HostNext(old(View()), SubmitCycle(i, old(output[..])))
                        else old(View())
    {
      hide Hex, AsyncClient.Next;
      if !hostFailed && slaves[i].pending.None? && operational && pdo {
        var data := EncodeHex(output, output.Length);
        assert output[..output.Length] == output[..];
        var job := client.SubmitJob(Cycle(i, data));
        slaves := slaves[i := slaves[i].(pending := Some(job))];
      } else if !hostFailed && slaves[i].pending.None? && !operational {
        var job := client.SubmitJob(Idle(i));
        slaves := slaves[i := slaves[i].(pending := Some(job))];
      }
    }
  }

  /** The start of a pump. */
  function Checked(h: Host): Host {
    h.(failed := h.failed || h.client.failure != "")
  }

  lemma PumpShape(h: Host, i: nat)
    requires WellFormed(h) && i < |h.slaves|
    ensures WellFormed(PumpSlave(h, i)) && |PumpSlave(h, i).slaves| == |h.slaves|
    ensures PumpSlave(h, i).position == h.position
  {
    hide Find, ImageFrom, MaskInput;
    CollectKeepsShape(h, i);
    MaskKeepsTail(Collect(h, i).slaves[i].input);
  }

  /** The first n slaves pumped. */
  function PumpRange(h: Host, n: nat): (r: Host)
    requires WellFormed(h) && n <= |h.slaves|
    ensures WellFormed(r) && |r.slaves| == |h.slaves| && r.position == h.position
  {
    if n == 0 then h
    else
      PumpShape(PumpRange(h, n - 1), n - 1);
      PumpSlave(PumpRange(h, n - 1), n - 1)
  }

  /** The events of a pump that nothing interrupts. */
  function PumpEvents(n: nat): (events: seq<Event>)
    ensures |events| == n + 1
  {
    if n == 0 then [BeginPump] else PumpEvents(n - 1) + [PumpNext]
  }

  /** Both forms of a pump agree. */
  lemma {:induction false} PumpIsARun(h: Host, n: nat)
    requires WellFormed(h) && h.position == Between && n <= |h.slaves|
    ensures HostRun(h, PumpEvents(n)) ==
              PumpRange(Checked(h), n).(position := if n < |h.slaves| then Pumping(n) else Between)
    decreases n
  {
    hide PumpSlave, HostNext, HostRun;
    if n == 0 {
      RunLast(h, [], BeginPump);
      assert [] + [BeginPump] == PumpEvents(0);
      BeginChecks(h);
    } else {
      PumpIsARun(h, n - 1);
      RunLast(h, PumpEvents(n - 1), PumpNext);
      PumpStep(PumpRange(Checked(h), n - 1), n - 1);
    }
  }

  lemma RunLast(h: Host, events: seq<Event>, e: Event)
    requires WellFormed(h)
    ensures HostRun(h, events + [e]) == HostNext(HostRun(h, events), e)
    ensures HostRun(h, []) == h
  {
    hide HostNext;
    assert (events + [e])[..|events|] == events;
  }

  lemma BeginChecks(h: Host)
    requires WellFormed(h) && h.position == Between
    ensures HostNext(h, BeginPump) == Checked(h).(position := Pumping(0))
  {
  }

  lemma PumpStep(h: Host, i: nat)
    requires WellFormed(h) && i < |h.slaves|
    ensures HostNext(h.(position := Pumping(i)), PumpNext)
            == PumpSlave(h, i).(position := if i + 1 < |h.slaves| then Pumping(i + 1) else Between)
  {
    hide PumpSlave;
    PumpShape(h, i);
    PumpShape(h.(position := Pumping(i)), i);
    PumpIgnoresPosition(h, i);
  }

  lemma PumpIgnoresPosition(h: Host, i: nat)
    requires WellFormed(h) && i < |h.slaves|
    ensures PumpSlave(h.(position := Pumping(i)), i) == PumpSlave(h, i).(position := Pumping(i))
  {
    hide Find, ImageFrom, MaskInput;
  }
}
