/** The invariant of the delivery protocol: every message is in exactly one place, and the job of a message is
    only ever run by the pool that accepted it. */
module DeliveryInvariant {
  import opened Options
  import Runs
  import opened Counting
  import opened Pool
  import PI = PoolInvariant
  import PT = PoolTheorems
  import J = JobProtocol
  import JT = JobTheorems
  import D = Delivery
  import opened Delivery

  // ----- where a message is -----

  predicate Covers(at: PollerAt, m: nat) {
    !at.Idle? && at.i <= m < at.hi
  }

  /** Its poller has not yet decided about it. */
  predicate IsPending(d: D.State, m: nat)
    requires m < |d.msgs|
  {
    d.msgs[m].poller < |d.pollers| && Covers(d.pollers[d.msgs[m].poller], m)
  }

  /** What its Submit has answered, or is about to. */
  function Answer(calls: seq<Call>, call: Option<nat>): Option<Outcome> {
    if call.Some? && call.value < |calls| && calls[call.value].Submit?
    then PI.OutcomeOf(calls[call.value].submit) else None
  }

  predicate IsAccepted(calls: seq<Call>, r: Received) {
    Answer(calls, r.call) == Some(Accepted)
  }

  /** What holds of message m while the poller at at is responsible for it. */
  predicate PendingFacts(calls: seq<Call>, r: Received, at: PollerAt, m: nat)
    requires !at.Idle?
  {
    && r.releases == 0
    && (m > at.i || at.AtMessage? ==> r.call == None)
    && (m == at.i && at.InSubmit? ==> r.call == Some(at.call))
    && (m == at.i && at.ReleasingOne? ==> Answer(calls, r.call) == Some(Refused))
    && (m == at.i && at.ReleasingRest? ==> !IsAccepted(calls, r) && (r.call.Some? ==> Answer(calls, r.call) == Some(NotRunning)))
  }

  predicate SettledFacts(calls: seq<Call>, r: Received) {
    if IsAccepted(calls, r) then r.releases == 0
    else r.releases == 1 && (r.call.Some? ==> Answer(calls, r.call).Some?)
  }

  predicate MessageFacts(calls: seq<Call>, pollers: seq<PollerAt>, r: Received, m: nat) {
    if r.poller < |pollers| && Covers(pollers[r.poller], m) then PendingFacts(calls, r, pollers[r.poller], m)
    else SettledFacts(calls, r)
  }

  /** Each Submit is of one message, which knows it. */
  predicate Linked(d: D.State) {
    && (forall k :: 0 <= k < |d.pool.calls| && d.pool.calls[k].Submit? ==>
          d.pool.calls[k].job < |d.msgs| && d.msgs[d.pool.calls[k].job].call == Some(k))
    && (forall m :: 0 <= m < |d.msgs| && d.msgs[m].call.Some? ==>
          d.msgs[m].call.value < |d.pool.calls| && d.pool.calls[d.msgs[m].call.value].Submit?
          && d.pool.calls[d.msgs[m].call.value].job == m)
  }

  /** A poller is responsible for messages it has received itself. */
  predicate Owns(msgs: seq<Received>, at: PollerAt, p: nat) {
    !at.Idle? ==> at.i < at.hi <= |msgs| && forall m :: at.i <= m < at.hi ==> msgs[m].poller == p
  }

  predicate AllOwn(d: D.State) {
    forall p :: 0 <= p < |d.pollers| ==> Owns(d.msgs, d.pollers[p], p)
  }

  predicate AllMessageFacts(d: D.State) {
    forall m :: 0 <= m < |d.msgs| ==> MessageFacts(d.pool.calls, d.pollers, d.msgs[m], m)
  }

  ghost predicate JobFacts(pool: Pool.State, r: Received, m: nat) {
    && J.Reachable(r.message, r.job)
    && (r.job.calls != [] ==> IsAccepted(pool.calls, r))
    && (pool.executed[m] > 0 ==> J.IsTerminal(r.job.shared.state))
  }

  ghost predicate AllJobFacts(d: D.State) {
    forall m :: 0 <= m < |d.msgs| ==> JobFacts(d.pool, d.msgs[m], m)
  }

  predicate RunningFacts(d: D.State) {
    forall w :: w in d.running ==>
      IsExecuting(d, w) && d.pool.workers[w].job < |d.msgs| && d.running[w] < |d.msgs[d.pool.workers[w].job].job.calls|
  }

  ghost predicate Inv(c: Conf, d: D.State)
    requires c.Valid()
  {
    && Pool.Reachable(c, d.pool)
    && Linked(d)
    && AllOwn(d)
    && AllMessageFacts(d)
    && AllJobFacts(d)
    && RunningFacts(d)
  }

  // ----- how the pool's own steps look to the pollers -----

  /** A call keeps its job, and an answer once given. */
  predicate Evolves(a: Call, b: Call) {
    && (a.Submit? <==> b.Submit?)
    && (a.Submit? ==> a.job == b.job && (PI.OutcomeOf(a.submit).Some? ==> PI.OutcomeOf(b.submit) == PI.OutcomeOf(a.submit)))
  }

  predicate PoolFrame(s: Pool.State, s': Pool.State) {
    && |s.calls| <= |s'.calls|
    && (forall k :: 0 <= k < |s.calls| ==> Evolves(s.calls[k], s'.calls[k]))
    && (forall k :: |s.calls| <= k < |s'.calls| ==> !s'.calls[k].Submit?)
    && s'.executed == s.executed
    && |s.workers| <= |s'.workers|
    && (forall w :: 0 <= w < |s.workers| && s.workers[w].Executing? ==> s'.workers[w] == s.workers[w])
  }

  lemma PoolsOwnStep(c: Conf, d: D.State, step: Pool.Step, s': Pool.State)
    requires c.Valid() && IsPoolsOwn(d, step) && Pool.Next(c, d.pool, step) == Some(s')
    ensures PoolFrame(d.pool, s')
  {
    var s := d.pool;
    match step
    case Invoke(call) =>
    case Advance(k) => CallEvolves(c, s.shared, s.calls[k], k);
    case TakeDefault(k) =>
    case HandOff(k, w) =>
    case RunStep =>
    case Work(w) => assert s.executed + multiset{} == s.executed;
    case Tick(w) =>
  }

  lemma CallEvolves(c: Conf, g: Shared, call: Call, k: nat)
    requires c.Valid() && CallNext(c, g, call, k).Some?
    ensures Evolves(call, CallNext(c, g, call, k).value.call)
  {
  }

  lemma AnswerPersists(calls: seq<Call>, calls': seq<Call>, call: Option<nat>)
    requires |calls| <= |calls'| && forall k :: 0 <= k < |calls| ==> Evolves(calls[k], calls'[k])
    ensures Answer(calls, call).Some? ==> Answer(calls', call) == Answer(calls, call)
    ensures call.Some? && call.value < |calls| && Answer(calls', call) != Answer(calls, call) ==> Answer(calls, call) == None
  {
  }

  // ----- the steps -----

  lemma PoolStepKeepsInv(c: Conf, d: D.State, step: Pool.Step, d': D.State)
    requires c.Valid() && Inv(c, d) && D.Next(c, d, PoolStep(step)) == Some(d')
    ensures Inv(c, d')
  {
    PoolsOwnStep(c, d, step, d'.pool);
    var _ := Pool.Take(c, d.pool, step);
    forall m | 0 <= m < |d.msgs|
      ensures MessageFacts(d'.pool.calls, d.pollers, d.msgs[m], m) && JobFacts(d'.pool, d.msgs[m], m)
    {
      assert MessageFacts(d.pool.calls, d.pollers, d.msgs[m], m);
      assert JobFacts(d.pool, d.msgs[m], m);
      AnswerPersists(d.pool.calls, d'.pool.calls, d.msgs[m].call);
    }
  }

  /** A job some worker has was accepted, by the Submit of its own message. */
  lemma HeldJobIsAccepted(c: Conf, d: D.State, w: nat)
    requires c.Valid() && Pool.Reachable(c, d.pool) && Linked(d) && IsExecuting(d, w)
    ensures var m := d.pool.workers[w].job; m < |d.msgs| && IsAccepted(d.pool.calls, d.msgs[m])
  {
    var m := d.pool.workers[w].job;
    PT.AcceptedJobsAreConserved(c, d.pool, m);
    SumAtLeast(d.pool.workers, w, PI.HeldWeight(m));
    var k := SumWitness(d.pool.calls, PI.AcceptedWeight(m));
  }

  /** The message a job is made of has been received, so a job not yet received was never executed. */
  lemma UnknownIsNotExecuted(c: Conf, d: D.State, m: nat)
    requires c.Valid() && Pool.Reachable(c, d.pool) && Linked(d) && m >= |d.msgs|
    ensures d.pool.executed[m] == 0
  {
    PT.AcceptedJobsAreConserved(c, d.pool, m);
    if d.pool.executed[m] > 0 {
      var k := SumWitness(d.pool.calls, PI.AcceptedWeight(m));
    }
  }

  lemma ReceiveKeepsInv(c: Conf, d: D.State, p: nat, batch: seq<J.Message>, d': D.State)
    requires c.Valid() && Inv(c, d) && D.Next(c, d, Receive(p, batch)) == Some(d')
    ensures Inv(c, d')
  {
    forall m | 0 <= m < |d'.msgs|
      ensures MessageFacts(d'.pool.calls, d'.pollers, d'.msgs[m], m) && JobFacts(d'.pool, d'.msgs[m], m)
    {
      if m < |d.msgs| {
        assert MessageFacts(d.pool.calls, d.pollers, d.msgs[m], m);
        assert JobFacts(d.pool, d.msgs[m], m);
      } else {
        UnknownIsNotExecuted(c, d, m);
        J.Initially(d'.msgs[m].message);
      }
    }
  }

  lemma CallSubmitKeepsMessages(c: Conf, d: D.State, p: nat, d': D.State)
    requires c.Valid() && Inv(c, d) && D.Next(c, d, CallSubmit(p)) == Some(d')
    ensures AllMessageFacts(d') && AllJobFacts(d')
  {
    assert Owns(d.msgs, d.pollers[p], p);
    forall m | 0 <= m < |d'.msgs|
      ensures MessageFacts(d'.pool.calls, d'.pollers, d'.msgs[m], m) && JobFacts(d'.pool, d'.msgs[m], m)
    {
      assert MessageFacts(d.pool.calls, d.pollers, d.msgs[m], m);
      assert JobFacts(d.pool, d.msgs[m], m);
      AnswerPersists(d.pool.calls, d'.pool.calls, d.msgs[m].call);
    }
  }

  lemma CallSubmitKeepsInv(c: Conf, d: D.State, p: nat, d': D.State)
    requires c.Valid() && Inv(c, d) && D.Next(c, d, CallSubmit(p)) == Some(d')
    ensures Inv(c, d')
  {
    var at := d.pollers[p];
    var _ := Pool.Take(c, d.pool, Invoke(Submit(at.i, SubmitCalled)));
    assert Owns(d.msgs, at, p);
    assert MessageFacts(d.pool.calls, d.pollers, d.msgs[at.i], at.i);
    CallSubmitKeepsMessages(c, d, p, d');
    CallSubmitKeepsLinked(c, d, p, d');
  }

  lemma CallSubmitKeepsLinked(c: Conf, d: D.State, p: nat, d': D.State)
    requires c.Valid() && Inv(c, d) && D.Next(c, d, CallSubmit(p)) == Some(d')
    ensures Linked(d')
  {
    var at := d.pollers[p];
    assert Owns(d.msgs, at, p);
    assert MessageFacts(d.pool.calls, d.pollers, d.msgs[at.i], at.i);
  }

  lemma AnsweredKeepsMessages(c: Conf, d: D.State, p: nat, d': D.State)
    requires c.Valid() && Inv(c, d) && D.Next(c, d, SubmitAnswered(p)) == Some(d')
    ensures AllMessageFacts(d')
  {
    var at := d.pollers[p];
    assert Owns(d.msgs, at, p);
    assert MessageFacts(d.pool.calls, d.pollers, d.msgs[at.i], at.i);
    assert Answer(d.pool.calls, d.msgs[at.i].call) == Some(d.pool.calls[at.call].submit.outcome);
    forall m | 0 <= m < |d'.msgs|
      ensures MessageFacts(d'.pool.calls, d'.pollers, d'.msgs[m], m)
    {
      assert MessageFacts(d.pool.calls, d.pollers, d.msgs[m], m);
      if d.msgs[m].poller == p {
        AnsweredKeepsOne(d.pool.calls, d.msgs[m], m, at, d'.pollers[p], d.pool.calls[at.call].submit.outcome);
      }
    }
  }

  /** The answer o of the Submit for message at.i moves its poller on. */
  lemma AnsweredKeepsOne(calls: seq<Call>, r: Received, m: nat, at: PollerAt, at': PollerAt, o: Outcome)
    requires at.InSubmit? && at.i < at.hi && Answer(calls, Some(at.call)) == Some(o)
    requires at' == match o
                    case Accepted => D.From(at.i + 1, at.hi)
                    case Refused => ReleasingOne(at.i, at.hi)
                    case NotRunning => ReleasingRest(at.i, at.hi)
    requires if Covers(at, m) then PendingFacts(calls, r, at, m) else SettledFacts(calls, r)
    ensures if Covers(at', m) then PendingFacts(calls, r, at', m) else SettledFacts(calls, r)
  {
  }

  lemma AnsweredKeepsInv(c: Conf, d: D.State, p: nat, d': D.State)
    requires c.Valid() && Inv(c, d) && D.Next(c, d, SubmitAnswered(p)) == Some(d')
    ensures Inv(c, d')
  {
    assert Owns(d.msgs, d.pollers[p], p);
    AnsweredKeepsMessages(c, d, p, d');
    assert d'.pool == d.pool && d'.msgs == d.msgs && d'.running == d.running;
  }

  lemma ReleaseKeepsInv(c: Conf, d: D.State, p: nat, d': D.State)
    requires c.Valid() && Inv(c, d) && D.Next(c, d, Release(p)) == Some(d')
    ensures Inv(c, d')
  {
    assert Owns(d.msgs, d.pollers[p], p);
    ReleaseKeepsMessages(c, d, p, d');
  }

  lemma ReleaseKeepsMessages(c: Conf, d: D.State, p: nat, d': D.State)
    requires c.Valid() && Inv(c, d) && D.Next(c, d, Release(p)) == Some(d')
    ensures AllMessageFacts(d') && AllJobFacts(d')
  {
    assert Owns(d.msgs, d.pollers[p], p);
    forall m | 0 <= m < |d'.msgs|
      ensures MessageFacts(d'.pool.calls, d'.pollers, d'.msgs[m], m) && JobFacts(d'.pool, d'.msgs[m], m)
    {
      assert MessageFacts(d.pool.calls, d.pollers, d.msgs[m], m);
      assert JobFacts(d.pool, d.msgs[m], m);
    }
  }

  lemma JobReachStep(message: J.Message, s: J.State, step: J.Step, s': J.State)
    requires J.Reachable(message, s) && J.Next(message, s, step) == Some(s')
    ensures J.Reachable(message, s')
    ensures |s'.calls| >= |s.calls| && (J.IsTerminal(s.shared.state) ==> J.IsTerminal(s'.shared.state))
    ensures step.Invoke? || |s'.calls| == |s.calls|
  {
    var _ := J.Take(message, s, step);
    JT.StateMoves(message, s, step);
  }

  /** One job moves, and Execute is only ever called on one that was accepted. */
  lemma JobMoveKeepsFacts(c: Conf, d: D.State, m: nat, step: J.Step)
    requires c.Valid() && Inv(c, d) && m < |d.msgs| && D.StepJob(d, m, step).Some?
    requires step.Invoke? ==> IsAccepted(d.pool.calls, d.msgs[m])
    ensures var d' := D.StepJob(d, m, step).value;
            && Linked(d') && AllOwn(d') && AllMessageFacts(d') && AllJobFacts(d')
            && |d'.msgs[m].job.calls| >= |d.msgs[m].job.calls|
  {
    var d' := D.StepJob(d, m, step).value;
    assert JobFacts(d.pool, d.msgs[m], m);
    JobReachStep(d.msgs[m].message, d.msgs[m].job, step, d'.msgs[m].job);
    forall i | 0 <= i < |d'.msgs|
      ensures MessageFacts(d'.pool.calls, d'.pollers, d'.msgs[i], i) && JobFacts(d'.pool, d'.msgs[i], i)
    {
      assert MessageFacts(d.pool.calls, d.pollers, d.msgs[i], i);
      assert JobFacts(d.pool, d.msgs[i], i);
    }
    forall p | 0 <= p < |d'.pollers|
      ensures Owns(d'.msgs, d'.pollers[p], p)
    {
      assert Owns(d.msgs, d.pollers[p], p);
    }
  }

  lemma JobStepKeepsInv(c: Conf, d: D.State, m: nat, step: J.Step, d': D.State)
    requires c.Valid() && Inv(c, d) && D.Next(c, d, JobStep(m, step)) == Some(d')
    ensures Inv(c, d')
  {
    JobMoveKeepsFacts(c, d, m, step);
  }

  lemma BeginKeepsInv(c: Conf, d: D.State, w: nat, d': D.State)
    requires c.Valid() && Inv(c, d) && D.Next(c, d, BeginExecute(w)) == Some(d')
    ensures Inv(c, d')
  {
    var m := d.pool.workers[w].job;
    HeldJobIsAccepted(c, d, w);
    JobMoveKeepsFacts(c, d, m, J.Invoke);
  }

  lemma EndKeepsInv(c: Conf, d: D.State, w: nat, d': D.State)
    requires c.Valid() && Inv(c, d) && D.Next(c, d, EndExecute(w)) == Some(d')
    ensures Inv(c, d')
  {
    var _ := Pool.Take(c, d.pool, Work(w));
    EndKeepsJobs(c, d, w, d');
  }

  lemma EndKeepsJobs(c: Conf, d: D.State, w: nat, d': D.State)
    requires c.Valid() && Inv(c, d) && D.Next(c, d, EndExecute(w)) == Some(d')
    ensures AllJobFacts(d')
  {
    var m := d.pool.workers[w].job;
    assert JobFacts(d.pool, d.msgs[m], m);
    JT.OneCallDecides(d.msgs[m].message, d.msgs[m].job, d.running[w]);
    forall i | 0 <= i < |d'.msgs|
      ensures JobFacts(d'.pool, d'.msgs[i], i)
    {
      assert JobFacts(d.pool, d.msgs[i], i);
    }
  }

  lemma StepKeepsInv(c: Conf, d: D.State, step: D.Step, d': D.State)
    requires c.Valid() && Inv(c, d) && D.Next(c, d, step) == Some(d')
    ensures Inv(c, d')
  {
    match step
    case AddPoller =>
      forall m | 0 <= m < |d.msgs|
        ensures MessageFacts(d'.pool.calls, d'.pollers, d'.msgs[m], m)
      {
        assert MessageFacts(d.pool.calls, d.pollers, d.msgs[m], m);
      }
    case Receive(p, batch) => ReceiveKeepsInv(c, d, p, batch, d');
    case CallSubmit(p) => CallSubmitKeepsInv(c, d, p, d');
    case SubmitAnswered(p) => AnsweredKeepsInv(c, d, p, d');
    case Release(p) => ReleaseKeepsInv(c, d, p, d');
    case PoolStep(st) => PoolStepKeepsInv(c, d, st, d');
    case BeginExecute(w) => BeginKeepsInv(c, d, w, d');
    case JobStep(m, st) => JobStepKeepsInv(c, d, m, st, d');
    case EndExecute(w) => EndKeepsInv(c, d, w, d');
  }

  lemma ReachableInv(c: Conf, d: D.State)
    requires c.Valid() && D.Reachable(c, d)
    ensures Inv(c, d)
  {
    Pool.Initially(c);
    forall t, step | Inv(c, t) && D.Next(c, t, step).Some?
      ensures Inv(c, D.Next(c, t, step).value)
    {
      StepKeepsInv(c, t, step, D.Next(c, t, step).value);
    }
    Runs.Invariant(D.Steps(c), D.Initial, d, t => Inv(c, t));
  }
}
