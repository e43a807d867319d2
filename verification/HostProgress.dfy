/** The positive half of the host: a healthy host submits what a slave has put out, and the
    image it shows is the whole of the last valid response it collected. */
module HostProgress {
  import opened Words
  import opened Wrappers
  import opened HexCodec
  import opened AsyncClient
  import AsyncProgress
  import opened HostLoop

  // ---- Publishing ----

  /** The slave waits for a job whose response holds this image, in hexadecimal. */
  predicate AnsweredWith(h: Host, i: nat, job: Id, image: Octets)
    requires i < |h.slaves|
  {
    && h.slaves[i].pending == Some(job) && |image| == |h.slaves[i].input|
    && Settlement(job, Value(Response(Some(Hex(image))))) in h.client.settled
  }

  lemma HexImage(image: Octets)
    ensures ImageFrom(Value(Response(Some(Hex(image)))), |image|) == Some(image)
  {
    hide Hex, Unhex;
    UnhexHex(image);
  }

  /** Pumping a slave of a healthy host whose job is answered shows exactly that answer,
      frees the slave, and touches no other slave. */
  lemma CollectPublishes(h: Host, i: nat, job: Id, image: Octets)
    requires WellFormed(h) && !h.failed && i < |h.slaves| && OnceEach(h.client.settled)
    requires AnsweredWith(h, i, job, image)
    ensures PumpSlave(h, i) == h.(slaves := h.slaves[i := Slave(None, image, Some(job))])
  {
    hide Hex, Find, ImageFrom;
    AsyncProgress.FindsTheOne(h.client.settled, job, Value(Response(Some(Hex(image)))));
    HexImage(image);
  }

  /** What the slave would show if it were pumped now: the octets of a settled response. */
  function Ready(h: Host, i: nat): Option<(Id, Octets)>
    requires i < |h.slaves|
  {
    match h.slaves[i].pending
    case None => None
    case Some(job) =>
      var answer := Find(h.client.settled, job);
      if answer == None || answer.value.Exception? || answer.value.response.data == None then None
      else
        match Unhex(answer.value.response.data.value, |h.slaves[i].input|)
        case Some(image) => Some((job, image))
        case None => None
  }

  /** The event pumps this slave of a healthy host with a valid response. */
  predicate Publishes(h: Host, e: Event, i: nat)
    requires i < |h.slaves|
  {
    e == PumpNext && h.position == Pumping(i) && !h.failed && Ready(h, i).Some?
  }

  /** The last valid response a run collected for a slave, with its job. */
  function LastCollected(h: Host, events: seq<Event>, i: nat): Option<(Id, Octets)>
    requires WellFormed(h) && i < |h.slaves|
    decreases |events|
  {
    if events == [] then None
    else
      var n := |events| - 1;
      var g := HostRun(h, events[..n]);
      if Publishes(g, events[n], i) then Ready(g, i) else LastCollected(h, events[..n], i)
  }

  /** What one event does to the image of one slave. */
  lemma ImageStep(h: Host, e: Event, i: nat)
    requires WellFormed(h) && i < |h.slaves|
    ensures WellFormed(HostNext(h, e)) && |HostNext(h, e).slaves| == |h.slaves|
    ensures var s, t := h.slaves[i], HostNext(h, e).slaves[i];
            if Publishes(h, e, i) then
              && Ready(h, i).Some? && !HostNext(h, e).failed
              && t == Slave(None, Ready(h, i).value.1, Some(Ready(h, i).value.0)) && |t.input| == |s.input|
            else
              && t.origin == s.origin && |t.input| == |s.input| && t.input[2..] == s.input[2..]
              && (!HostNext(h, e).failed ==> t.input == s.input)
    ensures h.failed ==> HostNext(h, e).failed
  {
    hide Find, AsyncClient.Next, Hex, MaskInput, Unhex;
    HostNextKeepsShape(h, e);
    if e == PumpNext && h.position.Pumping? {
      var k := h.position.next;
      CollectKeepsShape(h, k);
      MaskKeepsTail(h.slaves[k].input);
      UnhexKeepsSize(h, k);
    }
  }

  lemma UnhexKeepsSize(h: Host, i: nat)
    requires i < |h.slaves|
    ensures Ready(h, i).Some? ==> |Ready(h, i).value.1| == |h.slaves[i].input|
  {
    hide Find;
  }

  /** Over any run: the image of a slave is that of the last valid response the host
      collected for it while healthy, whole as long as the host is healthy, and from octet 2
      on after a failure; without any it is the image of the start. */
  lemma {:induction false} ShowsTheLatest(h: Host, events: seq<Event>, i: nat)
    requires WellFormed(h) && i < |h.slaves|
    ensures var s, t, last := h.slaves[i], HostRun(h, events).slaves[i], LastCollected(h, events, i);
            var image := if last.Some? then last.value.1 else s.input;
            && t.origin == (if last.Some? then Some(last.value.0) else s.origin)
            && |t.input| == |image| >= 2 && t.input[2..] == image[2..]
            && (!HostRun(h, events).failed ==> t.input == image)
    decreases |events|
  {
    hide HostNext, Publishes, Ready;
    if events == [] {
    } else {
      var n := |events| - 1;
      ShowsTheLatest(h, events[..n], i);
      ImageStep(HostRun(h, events[..n]), events[n], i);
    }
  }

  // ---- Submitting ----

  predicate Free(h: Host, i: nat) {
    h.position == Between && !h.failed && h.client.worker != Joined && i < |h.slaves| && h.slaves[i].pending.None?
  }

  /** The text of a cycle is the slave's output and nothing else. */
  predicate Carries(m: Message, i: nat, output: Octets) {
    m.Cycle? && m.slave == i && Unhex(m.data, |output|) == Some(output)
  }

  /** A healthy host submits the output of a free slave as its own cycle, and the slave waits
      for exactly that job; an idle request likewise. */
  lemma SubmitsOwnOutput(h: Host, i: nat, output: Octets)
    requires WellFormed(h) && Free(h, i)
    ensures var g, job := HostNext(h, SubmitCycle(i, output)), |h.client.messages|;
            && |g.client.messages| == job + 1 && g.client.messages[..job] == h.client.messages
            && Carries(g.client.messages[job], i, output)
            && g == h.(client := g.client, slaves := h.slaves[i := h.slaves[i].(pending := Some(job))])
    ensures var g, job := HostNext(h, SubmitIdle(i)), |h.client.messages|;
            && g.client.messages == h.client.messages + [Idle(i)]
            && g == h.(client := g.client, slaves := h.slaves[i := h.slaves[i].(pending := Some(job))])
    ensures var g := HostNext(h, Access(i));
            g.client.messages == h.client.messages + [ObjectAccess(i)] && g == h.(client := g.client)
  {
    hide Hex, Unhex, AsyncClient.Next;
    NextGrows(h.client, Submit(ObjectAccess(i)));
    UnhexHex(output);
    NextGrows(h.client, Submit(Cycle(i, Hex(output))));
    NextGrows(h.client, Submit(Idle(i)));
  }

  // ---- A whole cycle ----

  /** Only this slave waits for anything. */
  predicate OnlyWaiting(h: Host, i: nat) {
    i < |h.slaves| && forall k :: 0 <= k < |h.slaves| && k != i ==> h.slaves[k].pending.None?
  }

  lemma PumpsNothing(h: Host, k: nat)
    requires WellFormed(h) && !h.failed && k < |h.slaves| && h.slaves[k].pending.None?
    ensures PumpSlave(h, k) == h
  {
    hide Find, ImageFrom;
  }

  /** Pumping all slaves of a healthy host shows the one answer that is there. */
  lemma {:induction false} PumpShowsAnswer(h: Host, i: nat, job: Id, image: Octets, n: nat)
    requires WellFormed(h) && !h.failed && OnlyWaiting(h, i) && n <= |h.slaves| && OnceEach(h.client.settled)
    requires AnsweredWith(h, i, job, image)
    ensures PumpRange(h, n) == if n <= i then h else h.(slaves := h.slaves[i := Slave(None, image, Some(job))])
    decreases n
  {
    hide PumpSlave, AnsweredWith, OnceEach;
    if n > 0 {
      PumpShowsAnswer(h, i, job, image, n - 1);
      if n - 1 == i {
        CollectPublishes(h, i, job, image);
      } else {
        PumpsNothing(PumpRange(h, n - 1), n - 1);
      }
    }
  }

  lemma Served(c: Client<Message, Response>, m: Message, response: Response)
    requires AsyncProgress.Idle(c) && c.jobs == [] && Inv(c)
    ensures var d := Next(Next(Next(c, Submit(m)), Take), Succeed(response));
            && d.settled == c.settled + [Settlement(|c.messages|, Value(response))] && Inv(d) && d.failure == ""
  {
    hide Inv;
    NextKeepsInv(c, Submit(m));
    NextKeepsInv(Next(c, Submit(m)), Take);
    NextKeepsInv(Next(Next(c, Submit(m)), Take), Succeed(response));
  }

  /** The slave's output goes out, the worker serves it, and the next pump shows the whole
      response of the model. */
  lemma WholeCycle(h: Host, i: nat, output: Octets, image: Octets)
    requires WellFormed(h) && Free(h, i) && OnlyWaiting(h, i) && |image| == |h.slaves[i].input|
    requires AsyncProgress.Idle(h.client) && h.client.jobs == [] && Inv(h.client)
    ensures var response := Response(Some(Hex(image)));
            var served := HostRun(h, [SubmitCycle(i, output), Event.Client(Take), Event.Client(Succeed(response))]);
            var g := HostRun(served, PumpEvents(|h.slaves|));
            && !g.failed && g.position == Between
            && g.slaves == h.slaves[i := Slave(None, image, Some(|h.client.messages|))]
            && |g.client.messages| == |h.client.messages| + 1
            && Carries(g.client.messages[|h.client.messages|], i, output)
  {
    hide AsyncClient.Next, Hex, Unhex, PumpRange, Inv, OnceEach, Find;
    var m, response := Cycle(i, Hex(output)), Response(Some(Hex(image)));
    var e0, e1, e2 := SubmitCycle(i, output), Event.Client(Take), Event.Client(Succeed(response));
    SubmitsOwnOutput(h, i, output);
    RunLast(h, [], e0);
    RunLast(h, [e0], e1);
    RunLast(h, [e0, e1], e2);
    assert [] + [e0] == [e0] && [e0] + [e1] == [e0, e1] && [e0, e1] + [e2] == [e0, e1, e2];
    var served := HostRun(h, [e0, e1, e2]);
    Served(h.client, m, response);
    NextGrows(HostNext(h, e0).client, Take);
    NextGrows(HostNext(HostNext(h, e0), e1).client, Succeed(response));
    InvIsOnce(served.client);
    assert served.client.settled[|served.client.settled| - 1] == Settlement(|h.client.messages|, Value(response));
    PumpIsARun(served, |h.slaves|);
    PumpShowsAnswer(Checked(served), i, |h.client.messages|, image, |h.slaves|);
  }

  lemma InvIsOnce(c: Client<Message, Response>)
    requires Inv(c)
    ensures OnceEach(c.settled)
  {
  }
}
