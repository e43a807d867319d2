/** The positive half of the model client: as long as nothing fails, every request is served,
    in the order of submission, with the response to that very request. */
module AsyncProgress {
  import opened Wrappers
  import opened AsyncClient

  /** Connected, healthy and between two jobs. */
  predicate Idle<M, R>(c: Client<M, R>) {
    c.worker == Waiting && !c.stopping && c.failure == ""
  }

  /** One submission after the other. */
  function Submissions<M, R>(messages: seq<M>): (steps: seq<Step<M, R>>)
    ensures |steps| == |messages|
  {
    seq(|messages|, i requires 0 <= i < |messages| => Submit(messages[i]))
  }

  /** One round of the worker loop for each response: take a job, then settle it. */
  function Rounds<M, R>(responses: seq<R>): (steps: seq<Step<M, R>>)
    ensures |steps| == 2 * |responses|
  {
    if responses == [] then [] else Rounds(responses[..|responses| - 1]) + [Take, Succeed(responses[|responses| - 1])]
  }

  /** The jobs first, first + 1, ... */
  function Numbered(first: nat, n: nat): (ids: seq<Id>)
    ensures |ids| == n && forall i :: 0 <= i < n ==> ids[i] == first + i
  {
    seq(n, i requires 0 <= i < n => first + i)
  }

  /** The i-th job gets the i-th response. */
  function Pairs<R>(jobs: seq<Id>, responses: seq<R>): (s: seq<Settlement<R>>)
    requires |jobs| == |responses|
    ensures |s| == |jobs| && forall i :: 0 <= i < |s| ==> s[i] == Settlement(jobs[i], Value(responses[i]))
  {
    seq(|jobs|, i requires 0 <= i < |jobs| => Settlement(jobs[i], Value(responses[i])))
  }

  lemma RunLast<M, R>(c: Client<M, R>, steps: seq<Step<M, R>>, step: Step<M, R>)
    ensures Run(c, steps + [step]) == Next(Run(c, steps), step)
  {
    hide Next;
    assert (steps + [step])[..|steps|] == steps;
  }

  /** Submissions queue up behind each other while there is room. */
  lemma {:induction false} SubmissionsQueue<M, R>(c: Client<M, R>, messages: seq<M>)
    requires Idle(c) && |c.jobs| + |messages| <= CAPACITY
    ensures var d := Run(c, Submissions(messages));
            && Idle(d) && d.jobs == c.jobs + Numbered(|c.messages|, |messages|)
            && d.messages == c.messages + messages && d.settled == c.settled
    decreases |messages|
  {
    if messages == [] {
      assert c.jobs + [] == c.jobs && c.messages + [] == c.messages;
    } else {
      var n := |messages| - 1;
      SubmissionsQueue(c, messages[..n]);
      assert Submissions<M, R>(messages) == Submissions<M, R>(messages[..n]) + [Submit(messages[n])];
      RunLast(c, Submissions(messages[..n]), Submit(messages[n]));
      assert messages == messages[..n] + [messages[n]];
      assert Numbered(|c.messages|, n + 1) == Numbered(|c.messages|, n) + [|c.messages| + n];
    }
  }

  /** One round serves the front of the queue. */
  lemma RoundServesFront<M, R>(c: Client<M, R>, response: R)
    requires Idle(c) && c.jobs != []
    ensures var d := Next(Next(c, Take), Succeed(response));
            && Idle(d) && d.jobs == c.jobs[1..] && d.messages == c.messages
            && d.settled == c.settled + [Settlement(c.jobs[0], Value(response))]
  {
  }

  /** From any idle state, rounds serve the queue from its front, each job with its response,
      and settle nothing else. */
  lemma {:induction false} RoundsServeQueue<M, R>(c: Client<M, R>, responses: seq<R>)
    requires Idle(c) && |responses| <= |c.jobs|
    ensures var d := Run(c, Rounds(responses));
            && Idle(d) && d.jobs == c.jobs[|responses|..] && d.messages == c.messages
            && d.settled == c.settled + Pairs(c.jobs[..|responses|], responses)
    decreases |responses|
  {
    hide Next, Pairs;
    if responses == [] {
      assert Pairs(c.jobs[..0], responses) == [];
      assert c.settled + [] == c.settled;
      assert Run(c, []) == c;
    } else {
      var n := |responses| - 1;
      var before := Rounds<M, R>(responses[..n]);
      RoundsServeQueue(c, responses[..n]);
      var b := Run(c, before);
      assert b.jobs == c.jobs[n..];
      RoundServesFront(b, responses[n]);
      assert Rounds<M, R>(responses) == (before + [Take]) + [Succeed(responses[n])];
      RunLast(c, before, Take);
      RunLast(c, before + [Take], Succeed(responses[n]));
      PairsGrow(c.jobs, responses);
    }
  }

  lemma PairsGrow<R>(jobs: seq<Id>, responses: seq<R>)
    requires 0 < |responses| <= |jobs|
    ensures var n := |responses| - 1;
            Pairs(jobs[..n + 1], responses) == Pairs(jobs[..n], responses[..n]) + [Settlement(jobs[n], Value(responses[n]))]
  {
  }

  /** Up to 64 requests submitted to an idle client with an empty queue are all answered: the
      i-th of them with the i-th response, and nothing else happens. */
  lemma EveryRequestIsServed<M, R>(c: Client<M, R>, messages: seq<M>, responses: seq<R>)
    requires Idle(c) && c.jobs == [] && |messages| == |responses| <= CAPACITY
    ensures var d := Run(Run(c, Submissions(messages)), Rounds(responses));
            && Idle(d) && d.jobs == [] && d.messages == c.messages + messages
            && d.settled == c.settled + Pairs(Numbered(|c.messages|, |messages|), responses)
  {
    hide Run, Next;
    SubmissionsQueue(c, messages);
    var d := Run(c, Submissions(messages));
    RoundsServeQueue(d, responses);
    assert d.jobs == Numbered(|c.messages|, |messages|);
    assert d.jobs[..|responses|] == d.jobs;
  }

  /** A client that connects is idle with an empty queue. */
  lemma ConnectedIsIdle<M, R>()
    ensures var c := Next(Started<M, R>(), Connect(true)); Idle(c) && c.jobs == [] && Inv(c)
  {
    StartedInv<M, R>();
    NextKeepsInv(Started<M, R>(), Connect(true));
  }

  /** A failing request: its own promise breaks, then the cause is latched and every queued
      promise breaks with it. */
  lemma FailureBreaksEverything<M, R>(c: Client<M, R>, cause: string)
    requires c.worker.Busy?
    ensures var d := Next(Next(c, FailPromise), Latch(cause));
            && d.worker == Exited && d.failure == cause && d.jobs == [] && d.messages == c.messages
            && d.settled == c.settled + [Settlement(c.worker.job, Exception)] + Broken(c.jobs)
  {
  }

  /** A client that cannot connect latches the cause for everything submitted so far. */
  lemma ConnectionFailureLatches<M, R>(c: Client<M, R>, cause: string)
    requires c.worker == Connecting
    ensures var d := Next(Next(c, Connect(false)), Latch(cause));
            && d.worker == Exited && d.failure == cause && d.jobs == []
            && d.settled == c.settled + Broken(c.jobs)
  {
  }

  /** Destruction between two jobs: the worker leaves and what is still queued breaks. */
  lemma ShutdownCompletes<M, R>(c: Client<M, R>)
    requires c.worker == Waiting
    ensures var d := Next(Next(Next(c, Stop), Leave), Destroy);
            d.worker == Joined && d.jobs == [] && d.settled == c.settled + Broken(c.jobs)
  {
  }

  /** A settlement is found: a job is settled once. */
  lemma {:induction false} FindsTheOne<R>(settled: seq<Settlement<R>>, job: Id, outcome: Outcome<R>)
    requires OnceEach(settled) && Settlement(job, outcome) in settled
    ensures Find(settled, job) == Some(outcome)
    decreases |settled|
  {
    var n := |settled| - 1;
    if settled[n].job != job {
      assert Settlement(job, outcome) in settled[..n];
      FindsTheOne(settled[..n], job, outcome);
    } else {
      var i :| 0 <= i < |settled| && settled[i] == Settlement(job, outcome);
    }
  }
}
