/** The asynchronous model client: a bounded queue of jobs with promises, one worker
    thread, and a failure that is latched once. Every critical section and every promise
    is one atomic step, and any interleaving of steps is a run. */
module AsyncClient {
  import opened Wrappers

  const CAPACITY: nat := 64

  /** Jobs are numbered in the order of submission. */
  type Id = nat

  datatype Outcome<+R> = Value(response: R) | Exception

  datatype Settlement<+R> = Settlement(job: Id, outcome: Outcome<R>)

  /** Where the worker thread stands. */
  datatype Worker = Connecting | Waiting | Busy(job: Id) | Failing | Exited | Joined

  datatype Client<+M, +R> = Client(
    messages: seq<M>,                  // of every job ever submitted
    jobs: seq<Id>,                     // the queue
    worker: Worker,
    failure: string,
    stopping: bool,
    settled: seq<Settlement<R>>,       // promises in the order they were settled
    accepted: seq<Id>,                 // history: every job that entered the queue
    head: nat)                         // history: how many of them left the queue

  datatype Step<+M, +R> =
    | Connect(ok: bool)
    | Submit(message: M)
    | Take
    | Succeed(response: R)
    | FailPromise
    | Latch(cause: string)
    | Stop
    | Leave
    | Destroy

  function Started<M, R>(): Client<M, R> {
    Client([], [], Connecting, "", false, [], [], 0)
  }

  /** Every job of the list settled with an exception. */
  function Broken<R>(jobs: seq<Id>): (s: seq<Settlement<R>>)
    ensures |s| == |jobs| && forall i :: 0 <= i < |jobs| ==> s[i] == Settlement(jobs[i], Exception)
  {
    seq(|jobs|, i requires 0 <= i < |jobs| => Settlement(jobs[i], Exception))
  }

  /** A step that is not enabled changes nothing. */
  function Next<M, R>(c: Client<M, R>, step: Step<M, R>): Client<M, R> {
    match step
    case Connect(ok) =>
      if c.worker == Connecting then c.(worker := if ok then Waiting else Failing) else c
    case Submit(message) =>
      if c.worker == Joined then c
      else
        var job := |c.messages|;
        var d := c.(messages := c.messages + [message]);
        if c.failure != "" || |c.jobs| >= CAPACITY then d.(settled := c.settled + [Settlement(job, Exception)])
        else d.(jobs := c.jobs + [job], accepted := c.accepted + [job])
    case Take =>
      if c.worker == Waiting && !c.stopping && c.jobs != [] then
        c.(worker := Busy(c.jobs[0]), jobs := c.jobs[1..], head := c.head + 1)
      else c
    case Succeed(response) =>
      if c.worker.Busy? then
        c.(worker := Waiting, settled := c.settled + [Settlement(c.worker.job, Value(response))])
      else c
    case FailPromise =>
      if c.worker.Busy? then
        c.(worker := Failing, settled := c.settled + [Settlement(c.worker.job, Exception)])
      else c
    case Latch(cause) =>
      if c.worker == Failing then
        c.(worker := Exited, failure := cause, settled := c.settled + Broken(c.jobs), jobs := [],
          head := |c.accepted|)
      else c
    case Stop => c.(stopping := true)
    case Leave =>
      if c.worker == Waiting && c.stopping then c.(worker := Exited) else c
    case Destroy =>
      if c.worker == Exited && c.stopping then
        c.(worker := Joined, settled := c.settled + Broken(c.jobs), jobs := [],
          head := |c.accepted|)
      else c
  }

  function Run<M, R>(c: Client<M, R>, steps: seq<Step<M, R>>): Client<M, R>
    decreases |steps|
  {
    if steps == [] then c else Next(Run(c, steps[..|steps| - 1]), steps[|steps| - 1])
  }

  // ---- The invariant ----

  ghost predicate IsSettled<R>(settled: seq<Settlement<R>>, job: Id) {
    exists i :: 0 <= i < |settled| && settled[i].job == job
  }

  predicate OnceEach<R>(settled: seq<Settlement<R>>) {
    forall i, k :: 0 <= i < k < |settled| ==> settled[i].job != settled[k].job
  }

  predicate Increasing(jobs: seq<Id>) {
    forall i, k :: 0 <= i < k < |jobs| ==> jobs[i] < jobs[k]
  }

  /** The jobs that were given a value, in the order they were given it. */
  function Valued<R>(settled: seq<Settlement<R>>): seq<Id> {
    if settled == [] then []
    else
      var last := settled[|settled| - 1];
      Valued(settled[..|settled| - 1]) + (if last.outcome.Value? then [last.job] else [])
  }

  predicate Held<M, R>(c: Client<M, R>, job: Id) {
    job in c.jobs || c.worker == Busy(job)
  }

  /** A job waits, is being served, or is settled: exactly one of them. */
  ghost predicate Conserved<M, R>(c: Client<M, R>) {
    && (forall job: Id :: job < |c.messages| ==> Held(c, job) != IsSettled(c.settled, job))
    && (forall job: Id :: Held(c, job) || IsSettled(c.settled, job) ==> job < |c.messages|)
  }

  /** The queue is what is left of the accepted jobs. */
  predicate IsTail(jobs: seq<Id>, accepted: seq<Id>, head: nat) {
    head <= |accepted| && jobs == accepted[head..]
  }

  predicate IsHead(jobs: seq<Id>, accepted: seq<Id>) {
    jobs <= accepted
  }

  predicate AllBelow(jobs: seq<Id>, n: nat) {
    forall i :: 0 <= i < |jobs| ==> jobs[i] < n
  }

  /** The queue is the tail of the accepted jobs, and the valued jobs are their head up to
      the one in service. */
  predicate InOrder<M, R>(c: Client<M, R>) {
    && Increasing(c.accepted) && AllBelow(c.accepted, |c.messages|)
    && IsTail(c.jobs, c.accepted, c.head)
    && IsHead(Valued(c.settled), c.accepted)
    && (c.worker == Connecting ==> c.head == 0 && |Valued(c.settled)| == 0)
    && (c.worker == Waiting ==> |Valued(c.settled)| == c.head)
    && (c.worker.Busy? ==>
          c.head == |Valued(c.settled)| + 1 <= |c.accepted| && c.worker.job == c.accepted[c.head - 1])
  }

  ghost predicate Inv<M, R>(c: Client<M, R>) {
    && |c.jobs| <= CAPACITY
    && OnceEach(c.settled) && Conserved(c) && InOrder(c)
    && (c.failure != "" ==> c.worker in {Exited, Joined} && c.jobs == [])
    && (c.worker == Joined ==> c.jobs == [])
  }

  // ---- Settlements ----

  lemma ValuedAppend<R>(settled: seq<Settlement<R>>, s: Settlement<R>)
    ensures Valued(settled + [s]) == if s.outcome.Value? then Valued(settled) + [s.job] else Valued(settled)
  {
    assert (settled + [s])[..|settled|] == settled;
  }

  lemma {:induction false} ValuedBroken<R>(settled: seq<Settlement<R>>, jobs: seq<Id>)
    ensures Valued(settled + Broken(jobs)) == Valued(settled)
    decreases |jobs|
  {
    if jobs == [] {
      assert settled + Broken(jobs) == settled;
    } else {
      var n := |jobs| - 1;
      ValuedBroken(settled, jobs[..n]);
      ValuedAppend(settled + Broken(jobs[..n]), Settlement(jobs[n], Exception));
      assert settled + Broken(jobs) == settled + Broken(jobs[..n]) + [Settlement(jobs[n], Exception)];
    }
  }

  lemma SettleOne<R>(settled: seq<Settlement<R>>, s: Settlement<R>)
    ensures forall job: Id :: IsSettled(settled + [s], job) <==> IsSettled(settled, job) || job == s.job
    ensures OnceEach(settled) && !IsSettled(settled, s.job) ==> OnceEach(settled + [s])
  {
    forall job: Id
      ensures IsSettled(settled + [s], job) <==> IsSettled(settled, job) || job == s.job
    {
      var all := settled + [s];
      if IsSettled(settled, job) {
        var i :| 0 <= i < |settled| && settled[i].job == job;
        assert all[i].job == job;
      }
      if job == s.job {
        assert all[|settled|].job == job;
      }
    }
  }

  lemma SettleAll<R>(settled: seq<Settlement<R>>, jobs: seq<Id>)
    ensures forall job: Id :: IsSettled(settled + Broken(jobs), job) <==> IsSettled(settled, job) || job in jobs
    ensures OnceEach(settled) && Increasing(jobs) && (forall job :: job in jobs ==> !IsSettled(settled, job)) ==>
              OnceEach(settled + Broken(jobs))
  {
    var all := settled + Broken(jobs);
    forall job: Id
      ensures IsSettled(all, job) <==> IsSettled(settled, job) || job in jobs
    {
      if IsSettled(settled, job) {
        var i :| 0 <= i < |settled| && settled[i].job == job;
        assert all[i].job == job;
      }
      if job in jobs {
        var i :| 0 <= i < |jobs| && jobs[i] == job;
        assert all[|settled| + i].job == job;
      }
    }
    if OnceEach(settled) && Increasing(jobs) && (forall job :: job in jobs ==> !IsSettled(settled, job)) {
      forall i, k | 0 <= i < k < |all|
        ensures all[i].job != all[k].job
      {
        if i < |settled| <= k {
          assert all[k].job in jobs;
        }
      }
    }
  }

  /** The outcome of a promise, when it is settled. */
  function Find<R>(settled: seq<Settlement<R>>, job: Id): (r: Option<Outcome<R>>)
    ensures r.None? <==> !IsSettled(settled, job)
    ensures r.Some? ==> Settlement(job, r.value) in settled
  {
    if settled == [] then None
    else if settled[|settled| - 1].job == job then
      assert IsSettled(settled, job);
      Some(settled[|settled| - 1].outcome)
    else
      var r := Find(settled[..|settled| - 1], job);
      assert forall i :: 0 <= i < |settled| - 1 ==> settled[..|settled| - 1][i] == settled[i];
      r
  }

  /** A client step appends messages and settlements; only a submission adds a message. */
  lemma NextGrows<M, R>(c: Client<M, R>, step: Step<M, R>)
    ensures var d := Next(c, step);
            && c.settled <= d.settled
            && (if step.Submit? && c.worker != Joined then d.messages == c.messages + [step.message]
                else d.messages == c.messages)
  {
  }

  // ---- Every step keeps the invariant ----

  lemma StartedInv<M, R>()
    ensures Inv(Started<M, R>())
  {
  }

  lemma JobsIncrease<M, R>(c: Client<M, R>)
    requires InOrder(c)
    ensures Increasing(c.jobs) && AllBelow(c.jobs, |c.messages|)
  {
    hide Valued;
    assert forall i :: 0 <= i < |c.jobs| ==> c.jobs[i] == c.accepted[c.head + i];
  }

  /** Only the worker's position, the stop flag or the failure changes. */
  lemma WorkerKeepsInv<M, R>(c: Client<M, R>, step: Step<M, R>)
    requires Inv(c) && (step.Connect? || step.Stop? || step.Leave?)
    ensures Inv(Next(c, step))
  {
    hide OnceEach, IsSettled, Increasing, Valued, InOrder, Held, Conserved;
    WorkerOrder(c, step);
    WorkerConserves(c, step);
  }

  lemma WorkerOrder<M, R>(c: Client<M, R>, step: Step<M, R>)
    requires InOrder(c) && (step.Connect? || step.Stop? || step.Leave?)
    ensures InOrder(Next(c, step))
  {
    hide Increasing, Valued, IsTail, IsHead, AllBelow;
  }

  lemma WorkerConserves<M, R>(c: Client<M, R>, step: Step<M, R>)
    requires Conserved(c) && (step.Connect? || step.Stop? || step.Leave?)
    ensures Conserved(Next(c, step))
  {
    hide IsSettled;
    var d := Next(c, step);
    forall job: Id
      ensures Held(d, job) == Held(c, job)
    {
    }
  }

  lemma AcceptedGrows(jobs: seq<Id>, accepted: seq<Id>, valued: seq<Id>, head: nat, job: Id)
    requires Increasing(accepted) && AllBelow(accepted, job)
    requires IsTail(jobs, accepted, head) && IsHead(valued, accepted)
    ensures Increasing(accepted + [job]) && AllBelow(accepted + [job], job + 1)
    ensures IsTail(jobs + [job], accepted + [job], head) && IsHead(valued, accepted + [job])
  {
  }

  lemma SubmitOrder<M, R>(c: Client<M, R>, message: M)
    requires InOrder(c)
    ensures InOrder(Next(c, Submit(message)))
  {
    hide Valued, Increasing, IsTail, IsHead;
    var job := |c.messages|;
    ValuedAppend(c.settled, Settlement(job, Exception));
    AcceptedGrows(c.jobs, c.accepted, Valued(c.settled), c.head, job);
    HeadInside(c);
  }

  lemma HeadInside<M, R>(c: Client<M, R>)
    requires InOrder(c)
    ensures c.head <= |c.accepted| && |c.jobs| == |c.accepted| - c.head && |Valued(c.settled)| <= |c.accepted|
  {
    hide Valued, Increasing;
  }

  lemma SubmitKeepsInv<M, R>(c: Client<M, R>, message: M)
    requires Inv(c)
    ensures Inv(Next(c, Submit(message)))
  {
    hide InOrder, OnceEach, IsSettled;
    SubmitOrder(c, message);
    var job, d := |c.messages|, Next(c, Submit(message));
    SettleOne(c.settled, Settlement(job, Exception));
    assert !Held(c, job) && !IsSettled(c.settled, job);
    assert forall k: Id :: Held(d, k) == (Held(c, k) || (k == job && d.jobs != c.jobs));
  }

  lemma TailShrinks(jobs: seq<Id>, accepted: seq<Id>, head: nat)
    requires IsTail(jobs, accepted, head) && jobs != []
    ensures head < |accepted| && accepted[head] == jobs[0] && IsTail(jobs[1..], accepted, head + 1)
  {
  }

  lemma TakeKeepsInv<M, R>(c: Client<M, R>)
    requires Inv(c)
    ensures Inv(Next(c, Take))
  {
    hide OnceEach, InOrder, Conserved;
    TakeOrder(c);
    TakeConserves(c);
  }

  lemma TakeOrder<M, R>(c: Client<M, R>)
    requires InOrder(c)
    ensures InOrder(Next<M, R>(c, Take))
  {
    hide Valued, Increasing, IsTail, IsHead, AllBelow;
    if c.worker == Waiting && !c.stopping && c.jobs != [] {
      TailShrinks(c.jobs, c.accepted, c.head);
    }
  }

  lemma TakeConserves<M, R>(c: Client<M, R>)
    requires Conserved(c)
    ensures Conserved(Next(c, Take))
  {
    hide IsSettled;
    var d: Client<M, R> := Next(c, Take);
    if d != c {
      assert c.jobs == [c.jobs[0]] + d.jobs;
      assert forall k: Id :: Held(d, k) == Held(c, k);
    }
  }

  /** The settlement of the job in service. */
  function Served<M, R>(c: Client<M, R>, step: Step<M, R>): Settlement<R>
    requires c.worker.Busy?
  {
    Settlement(c.worker.job, if step.Succeed? then Value(step.response) else Exception)
  }

  lemma HeadGrows(valued: seq<Id>, accepted: seq<Id>)
    requires IsHead(valued, accepted) && |valued| < |accepted|
    ensures IsHead(valued + [accepted[|valued|]], accepted)
  {
  }

  lemma SettleOrder<M, R>(c: Client<M, R>, step: Step<M, R>)
    requires InOrder(c) && c.worker.Busy? && (step.Succeed? || step == FailPromise)
    ensures InOrder(Next(c, step))
  {
    hide Increasing, Valued, IsTail, IsHead, AllBelow;
    ValuedAppend(c.settled, Served(c, step));
    HeadGrows(Valued(c.settled), c.accepted);
  }

  lemma SettleConserves<M, R>(c: Client<M, R>, step: Step<M, R>)
    requires Conserved(c) && InOrder(c) && c.worker.Busy? && (step.Succeed? || step == FailPromise)
    ensures Conserved(Next(c, step))
  {
    hide IsSettled, InOrder;
    var d := Next(c, step);
    SettleOne(c.settled, Served(c, step));
    BusyIsNotQueued(c);
    assert Held(c, c.worker.job);
    forall k: Id
      ensures Held(d, k) == (Held(c, k) && k != c.worker.job)
      ensures IsSettled(d.settled, k) == (IsSettled(c.settled, k) || k == c.worker.job)
    {
    }
  }

  lemma SettleKeepsInv<M, R>(c: Client<M, R>, step: Step<M, R>)
    requires Inv(c) && (step.Succeed? || step == FailPromise)
    ensures Inv(Next(c, step))
  {
    hide OnceEach, IsSettled, InOrder, Conserved;
    if c.worker.Busy? {
      SettleOne(c.settled, Served(c, step));
      SettleOrder(c, step);
      SettleConserves(c, step);
      ServedIsOpen(c);
    }
  }

  lemma ServedIsOpen<M, R>(c: Client<M, R>)
    requires Conserved(c) && c.worker.Busy?
    ensures !IsSettled(c.settled, c.worker.job)
  {
    hide IsSettled;
    assert Held(c, c.worker.job);
  }

  lemma BusyIsNotQueued<M, R>(c: Client<M, R>)
    requires InOrder(c) && c.worker.Busy?
    ensures c.worker.job !in c.jobs
  {
    hide Valued, AllBelow, IsHead;
    assert forall i :: 0 <= i < |c.jobs| ==> c.jobs[i] == c.accepted[c.head + i];
  }

  lemma FlushOrder<M, R>(c: Client<M, R>, step: Step<M, R>)
    requires InOrder(c) && (step.Latch? || step == Destroy)
    ensures InOrder(Next(c, step))
  {
    hide Valued, Increasing, IsHead, AllBelow;
    ValuedBroken(c.settled, c.jobs);
  }

  lemma FlushKeepsInv<M, R>(c: Client<M, R>, step: Step<M, R>)
    requires Inv(c) && (step.Latch? || step == Destroy)
    ensures Inv(Next(c, step))
  {
    hide OnceEach, IsSettled, InOrder, AllBelow;
    var d := Next(c, step);
    FlushOrder(c, step);
    JobsIncrease(c);
    SettleAll(c.settled, c.jobs);
    if d != c {
      assert forall job :: job in c.jobs ==> Held(c, job);
      assert forall k: Id :: !Held(d, k);
    }
  }

  lemma NextKeepsInv<M, R>(c: Client<M, R>, step: Step<M, R>)
    requires Inv(c)
    ensures Inv(Next(c, step))
  {
    hide Inv, Next;
    match step
    case Submit(message) => SubmitKeepsInv(c, message);
    case Take => TakeKeepsInv(c);
    case Succeed(_) => SettleKeepsInv(c, step);
    case FailPromise => SettleKeepsInv(c, step);
    case Latch(_) => FlushKeepsInv(c, step);
    case Destroy => FlushKeepsInv(c, step);
    case _ => WorkerKeepsInv(c, step);
  }

  /** Under every interleaving: the queue holds at most 64 jobs; each job waits, is served
      or is settled, never two of these; no job is settled twice; and the jobs that were
      given a value are a prefix of the accepted jobs, which are in submission order. */
  lemma {:induction false} EveryInterleaving<M, R>(steps: seq<Step<M, R>>)
    ensures var c := Run(Started<M, R>(), steps);
            && Inv(c) && |c.jobs| <= CAPACITY
            && Conserved(c) && OnceEach(c.settled)
            && Increasing(c.accepted) && Valued(c.settled) <= c.accepted
    decreases |steps|
  {
    hide Next, Started;
    if steps == [] {
      StartedInv<M, R>();
    } else {
      var n := |steps| - 1;
      EveryInterleaving(steps[..n]);
      NextKeepsInv(Run(Started<M, R>(), steps[..n]), steps[n]);
    }
  }

  lemma {:induction false} RunKeepsInv<M, R>(c: Client<M, R>, steps: seq<Step<M, R>>)
    requires Inv(c)
    ensures Inv(Run(c, steps))
    decreases |steps|
  {
    hide Next, Inv;
    if steps != [] {
      var n := |steps| - 1;
      RunKeepsInv(c, steps[..n]);
      NextKeepsInv(Run(c, steps[..n]), steps[n]);
    }
  }

  /** A settled promise keeps its outcome, and a submitted job its message. */
  lemma {:induction false} OutcomesAreFinal<M, R>(c: Client<M, R>, steps: seq<Step<M, R>>)
    ensures c.settled <= Run(c, steps).settled && c.messages <= Run(c, steps).messages
    decreases |steps|
  {
    if steps != [] {
      OutcomesAreFinal(c, steps[..|steps| - 1]);
    }
  }

  // ---- After a failure ----

  ghost predicate AllSettled<M, R>(c: Client<M, R>) {
    forall job: Id :: job < |c.messages| ==> IsSettled(c.settled, job)
  }

  lemma NothingHeld<M, R>(c: Client<M, R>)
    requires Inv(c) && c.jobs == [] && c.worker in {Exited, Joined}
    ensures AllSettled(c)
  {
    hide IsSettled, OnceEach, InOrder;
    forall job: Id | job < |c.messages|
      ensures IsSettled(c.settled, job)
    {
      assert !Held(c, job);
    }
  }

  /** Once the worker failed, no job is given a value any more. */
  lemma NoNewValue<M, R>(c: Client<M, R>, step: Step<M, R>)
    requires c.worker in {Failing, Exited, Joined}
    ensures var d := Next(c, step);
            d.worker in {Failing, Exited, Joined} && Valued(d.settled) == Valued(c.settled)
            && (c.failure != "" && c.worker != Failing ==> d.failure == c.failure && d.worker != Failing)
  {
    hide Valued;
    ValuedAppend(c.settled, Settlement(|c.messages|, Exception));
    ValuedBroken(c.settled, c.jobs);
  }

  /** From the moment a request failed, through any interleaving with submissions (also the
      ones between the failing promise and the latch), no further job gets a value; and in
      every state with a latched failure every job ever submitted is settled. */
  lemma {:induction false} FailureReachesEveryJob<M, R>(c: Client<M, R>, steps: seq<Step<M, R>>)
    requires Inv(c) && c.worker in {Failing, Exited, Joined}
    ensures var d := Run(c, steps);
            && Valued(d.settled) == Valued(c.settled)
            && d.worker in {Failing, Exited, Joined}
            && (d.failure != "" ==> AllSettled(d))
            && (c.failure != "" ==> d.failure == c.failure)
    decreases |steps|
  {
    hide Next, Inv, AllSettled, Valued;
    RunKeepsInv(c, steps);
    LatchedShape(Run(c, steps));
    LatchedShape(c);
    if steps != [] {
      var n := |steps| - 1;
      FailureReachesEveryJob(c, steps[..n]);
      RunKeepsInv(c, steps[..n]);
      LatchedShape(Run(c, steps[..n]));
      NoNewValue(Run(c, steps[..n]), steps[n]);
    }
  }

  lemma LatchedShape<M, R>(c: Client<M, R>)
    requires Inv(c)
    ensures c.failure != "" ==> c.worker in {Exited, Joined} && AllSettled(c)
  {
    if c.failure != "" {
      NothingHeld(c);
    }
  }

  predicate NoDestroy<M, R>(steps: seq<Step<M, R>>) {
    forall i :: 0 <= i < |steps| ==> !steps[i].Destroy?
  }

  /** A job queued after the worker is gone stays in the queue until destruction. */
  lemma {:induction false} OrphanStays<M, R>(c: Client<M, R>, job: Id, steps: seq<Step<M, R>>)
    requires c.worker == Exited && job in c.jobs && NoDestroy(steps)
    ensures job in Run(c, steps).jobs && Run(c, steps).worker == Exited
    decreases |steps|
  {
    if steps != [] {
      OrphanStays(c, job, steps[..|steps| - 1]);
    }
  }

  /** The latch is the text of the cause: with a text, every job of every later run is
      settled; with an empty one, the next submitted job is still open however long the
      run goes on before destruction. */
  lemma LatchNeedsAText<M, R>(c: Client<M, R>, cause: string, message: M, steps: seq<Step<M, R>>)
    requires Inv(c) && c.worker == Failing && NoDestroy(steps)
    ensures var d := Run(Next(Next(c, Latch(cause)), Submit(message)), steps);
            if cause != "" then AllSettled(d) else !IsSettled(d.settled, |c.messages|)
  {
    hide Run;
    var latched := Next(c, Latch(cause));
    var e := Next(latched, Submit(message));
    NextKeepsInv(c, Latch(cause));
    NextKeepsInv(latched, Submit(message));
    RunKeepsInv(e, steps);
    if cause != "" {
      FailureReachesEveryJob(e, steps);
    } else {
      assert e.jobs == [|c.messages|];
      OrphanStays(e, |c.messages|, steps);
      OutcomesAreFinal(e, steps);
      assert Held(Run(e, steps), |c.messages|);
    }
  }

  /** Destruction leaves no promise open. */
  lemma DestroyedSettlesAll<M, R>(c: Client<M, R>)
    requires Inv(c) && c.worker == Joined
    ensures AllSettled(c)
  {
    hide Next;
    NothingHeld(c);
  }

  // ---- The client as an object ----

  class AsyncModelClient<M, R> {
    var messages: seq<M>
    var jobs: seq<Id>
    var worker: Worker
    var failure: string
    var stopping: bool
    var settled: seq<Settlement<R>>
    ghost var accepted: seq<Id>
    ghost var head: nat

    constructor ()
      ensures View() == Started()
    {
      messages, jobs, worker, failure, stopping, settled := [], [], Connecting, "", false, [];
      accepted, head := [], 0;
    }

    ghost function View(): Client<M, R>
      reads this
    {
      Client(messages, jobs, worker, failure, stopping, settled, accepted, head)
    }

    method Settle(job: Id, outcome: Outcome<R>)
      modifies this`settled
      ensures settled == old(settled) + [Settlement(job, outcome)]
    {
      settled := settled + [Settlement(job, outcome)];
    }

    method SubmitJob(message: M) returns (job: Id)
      requires worker != Joined
      modifies this
      ensures View() == Next(old(View()), Submit(message)) && job == |old(messages)|
      ensures messages == old(messages) + [message] && messages[job] == message
      ensures failure == "" && |old(jobs)| < CAPACITY ==> jobs == old(jobs) + [job] && settled == old(settled)
      ensures failure != "" || |old(jobs)| >= CAPACITY ==>
                jobs == old(jobs) && settled == old(settled) + [Settlement(job, Exception)]
    {
      job := |messages|;
      messages := messages + [message];
      if failure != "" {
        Settle(job, Exception);
      } else if |jobs| >= CAPACITY {
        Settle(job, Exception);
      } else {
        jobs := jobs + [job];
        accepted := accepted + [job];
      }
    }

    method ConnectSocket(ok: bool)
      requires worker == Connecting
      modifies this`worker
      ensures View() == Next(old(View()), Connect(ok))
    {
      worker := if ok then Waiting else Failing;
    }

    /** The critical section of the worker loop; it waits while there is nothing to do. */
    method AwaitJob()
      requires worker == Waiting
      modifies this
      ensures View() == Next(old(View()), if old(stopping) then Leave else Take)
      ensures !old(stopping) && old(jobs) != [] ==> worker == Busy(old(jobs)[0]) && jobs == old(jobs)[1..]
      ensures old(stopping) ==> worker == Exited && jobs == old(jobs)
      ensures !old(stopping) && old(jobs) == [] ==> worker == Waiting && jobs == []
      ensures settled == old(settled) && messages == old(messages)
    {
      if !stopping && jobs == [] {
        return;
      }
      if stopping {
        worker := Exited;
        return;
      }
      worker := Busy(jobs[0]);
      jobs := jobs[1..];
      head := head + 1;
    }

    method FulfilPromise(response: R)
      requires worker.Busy?
      modifies this
      ensures View() == Next(old(View()), Succeed(response))
      ensures worker == Waiting && settled == old(settled) + [Settlement(old(worker).job, Value(response))]
    {
      Settle(worker.job, Value(response));
      worker := Waiting;
    }

    method BreakPromise()
      requires worker.Busy?
      modifies this
      ensures View() == Next(old(View()), FailPromise)
      ensures worker == Failing && settled == old(settled) + [Settlement(old(worker).job, Exception)]
    {
      Settle(worker.job, Exception);
      worker := Failing;
    }

    /** Every queued promise gets the exception, then the queue is cleared. */
    method FlushJobs()
      modifies this`settled, this`jobs, this`head
      ensures settled == old(settled) + Broken(old(jobs)) && jobs == [] && head == |accepted|
    {
      for i := 0 to |jobs|
        invariant jobs == old(jobs) && settled == old(settled) + Broken(jobs[..i])
      {
        Settle(jobs[i], Exception);
        assert Broken<R>(jobs[..i + 1]) == Broken<R>(jobs[..i]) + [Settlement(jobs[i], Exception)];
      }
      assert jobs[..|jobs|] == jobs;
      jobs := [];
      head := |accepted|;
    }

    method LatchFailure(cause: string)
      requires worker == Failing
      modifies this
      ensures View() == Next(old(View()), Latch(cause))
    {
      failure := cause;
      FlushJobs();
      worker := Exited;
    }

    method RequestStop()
      modifies this`stopping
      ensures View() == Next(old(View()), Stop)
    {
      stopping := true;
    }

    /** The worker is joined, then the queue goes away with its promises. */
    method Join()
      requires worker == Exited && stopping
      modifies this
      ensures View() == Next(old(View()), Destroy)
    {
      FlushJobs();
      worker := Joined;
    }
  }
}
