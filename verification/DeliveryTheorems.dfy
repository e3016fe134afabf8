/** What becomes of a received message, over every interleaving of pollers, pool and jobs. */
module DeliveryTheorems {
  import opened Options
  import Counting
  import Pool
  import PI = PoolInvariant
  import PT = PoolTheorems
  import J = JobProtocol
  import JT = JobTheorems
  import D = Delivery
  import opened DeliveryInvariant

  /**
   A message is deleted at most once and handed to the handler at most once, and then only if its own
   deletion succeeded and its attributes name this owner.
   */
  lemma HandledAtMostOnce(c: Pool.Conf, d: D.State, m: nat)
    requires c.Valid() && D.Reachable(c, d) && m < |d.msgs|
    ensures var job := d.msgs[m].job;
            && job.effects.deletes <= 1 && job.effects.handles <= 1
            && (job.effects.handles == 1 ==>
                  var message := d.msgs[m].message;
                  job.answers.deleteOk && message.attributes.Some?
                  && (message.attributes.value.owner == message.ownerId || message.attributes.value.channel == message.ownerId))
  {
    ReachableInv(c, d);
    assert JobFacts(d.pool, d.msgs[m], m);
    JT.OneShot(d.msgs[m].message, d.msgs[m].job);
  }

  /** A message whose visibility was ended is neither deleted nor handled under that receipt, now or ever. */
  lemma ReleasedIsNeverHandled(c: Pool.Conf, d: D.State, m: nat)
    requires c.Valid() && D.Reachable(c, d) && m < |d.msgs| && d.msgs[m].releases > 0
    ensures d.msgs[m].releases == 1
    ensures d.msgs[m].job.calls == [] && d.msgs[m].job.effects == J.Effects(0, 0)
    ensures d.pool.executed[m] == 0 && PI.AcceptedCount(d.pool.calls, m) == 0
  {
    ReachableInv(c, d);
    assert MessageFacts(d.pool.calls, d.pollers, d.msgs[m], m);
    assert JobFacts(d.pool, d.msgs[m], m);
    var s := d.msgs[m].job;
    assert s.calls == [];
    JT.OneShot(d.msgs[m].message, s);
    NotAccepted(d, m);
    PT.AcceptedJobsAreConserved(c, d.pool, m);
  }

  lemma NotAccepted(d: D.State, m: nat)
    requires Linked(d) && m < |d.msgs| && !IsAccepted(d.pool.calls, d.msgs[m])
    ensures PI.AcceptedCount(d.pool.calls, m) == 0
  {
    forall k | 0 <= k < |d.pool.calls|
      ensures PI.AcceptedWeight(m)(d.pool.calls[k]) == 0
    {
    }
    Counting.SumZero(d.pool.calls, PI.AcceptedWeight(m));
  }

  lemma AcceptedOnce(d: D.State, m: nat)
    requires Linked(d) && m < |d.msgs| && IsAccepted(d.pool.calls, d.msgs[m])
    ensures PI.AcceptedCount(d.pool.calls, m) == 1
  {
    var k := d.msgs[m].call.value;
    forall i | 0 <= i < |d.pool.calls| && i != k
      ensures PI.AcceptedWeight(m)(d.pool.calls[i]) == 0
    {
    }
    Counting.SumOnly(d.pool.calls, k, Pool.Submit(m, Pool.SubmitCalled), PI.AcceptedWeight(m));
  }

  /** No job is executed twice, nor by two workers, nor executed while it is still in the channel. */
  lemma ExecutedAtMostOnce(c: Pool.Conf, d: D.State, m: nat)
    requires c.Valid() && D.Reachable(c, d) && m < |d.msgs|
    ensures multiset(d.pool.shared.channels.buffer)[m] + PI.HeldCount(d.pool.workers, m) + d.pool.executed[m]
            == (if IsAccepted(d.pool.calls, d.msgs[m]) then 1 else 0)
  {
    ReachableInv(c, d);
    PT.AcceptedJobsAreConserved(c, d.pool, m);
    if IsAccepted(d.pool.calls, d.msgs[m]) {
      AcceptedOnce(d, m);
    } else {
      NotAccepted(d, m);
    }
  }

  /** Once its poller has decided about it, a message is accepted by the pool or released, once, and never both. */
  lemma EveryMessageIsInOnePlace(c: Pool.Conf, d: D.State, m: nat)
    requires c.Valid() && D.Reachable(c, d) && m < |d.msgs| && !IsPending(d, m)
    ensures IsAccepted(d.pool.calls, d.msgs[m]) <==> d.msgs[m].releases == 0
    ensures d.msgs[m].releases <= 1
  {
    ReachableInv(c, d);
    assert MessageFacts(d.pool.calls, d.pollers, d.msgs[m], m);
  }

  /**
   The job has ended: the message was deleted if that could be done, handled exactly if it was deleted and one
   of its attributes names the owner, and the mark is that of the error that was there when it was read.
   */
  predicate IsEnded(message: J.Message, job: J.State) {
    && J.IsTerminal(job.shared.state)
    && job.effects.deletes == 1 && job.effects.handles <= 1
    && (job.effects.handles == 1 <==>
          job.answers.deleteOk && message.attributes.Some?
          && (message.attributes.value.owner == message.ownerId || message.attributes.value.channel == message.ownerId))
    && (job.shared.state == J.JobFinished <==>
          job.effects.handles == 1
          && !(job.answers.early == Some(true) || (job.answers.early == None && job.answers.handleFailed)))
  }

  /**
   Once the pool's Stop has returned, every message its poller has decided about was released, or its job has
   run to its end; not both. The configuration is one for which Stop drains.
   */
  lemma NothingIsLost(c: Pool.Conf, d: D.State, m: nat)
    requires c.Valid() && D.Reachable(c, d) && m < |d.msgs| && !IsPending(d, m)
    requires PT.Stopped(d.pool) && (c.minWorkers >= 1 || c.queueSize == 0)
    ensures J.IsTerminal(d.msgs[m].job.shared.state) <==> d.msgs[m].releases == 0
    ensures d.msgs[m].releases <= 1
    ensures d.pool.executed[m] == 1 - d.msgs[m].releases
    ensures d.msgs[m].releases == 0 ==>
              var job := d.msgs[m].job;
              && IsEnded(d.msgs[m].message, job)
  {
    ReachableInv(c, d);
    EveryMessageIsInOnePlace(c, d, m);
    assert JobFacts(d.pool, d.msgs[m], m);
    J.ReachableInv(d.msgs[m].message, d.msgs[m].job);
    if d.msgs[m].releases == 0 {
      PT.StopDrains(c, d.pool);
      AcceptedOnce(d, m);
    } else {
      ReleasedIsNeverHandled(c, d, m);
    }
  }

  // ----- nothing waits for ever -----

  /** A worker inside a job calls Execute, or Execute goes on, or it has returned and the worker goes on. */
  lemma WorkerGoesOn(c: Pool.Conf, d: D.State, w: nat) returns (step: D.Step)
    requires c.Valid() && D.Reachable(c, d) && D.IsExecuting(d, w)
    ensures D.Next(c, d, step).Some?
    ensures step == D.BeginExecute(w) || step == D.EndExecute(w) || (step.JobStep? && step.m == d.pool.workers[w].job)
  {
    ReachableInv(c, d);
    HeldJobIsAccepted(c, d, w);
    var m := d.pool.workers[w].job;
    if w !in d.running {
      step := D.BeginExecute(w);
    } else if d.msgs[m].job.calls[d.running[w]].Done? {
      PT.NeverFaults(c, d.pool);
      step := D.EndExecute(w);
    } else {
      step := CallGoesOn(c, d, m, d.running[w]);
    }
  }

  lemma CallGoesOn(c: Pool.Conf, d: D.State, m: nat, k: nat) returns (step: D.Step)
    requires c.Valid() && Inv(c, d) && m < |d.msgs| && k < |d.msgs[m].job.calls| && !d.msgs[m].job.calls[k].Done?
    ensures D.Next(c, d, step).Some? && step.JobStep? && step.m == m
  {
    assert JobFacts(d.pool, d.msgs[m], m);
    var st := JT.NobodyIsStuck(d.msgs[m].message, d.msgs[m].job, k);
    step := D.JobStep(m, st);
  }

  /**
   A poller with messages goes on with them: it submits the one it is at, gives back one that was refused or
   all that are left after an error, and takes the answer of its Submit as soon as there is one.
   */
  lemma PollerGoesOn(c: Pool.Conf, d: D.State, p: nat)
    requires c.Valid() && D.Reachable(c, d) && p < |d.pollers| && !d.pollers[p].Idle?
    ensures d.pollers[p].AtMessage? ==> D.Next(c, d, D.CallSubmit(p)).Some?
    ensures d.pollers[p].ReleasingOne? || d.pollers[p].ReleasingRest? ==> D.Next(c, d, D.Release(p)).Some?
    ensures d.pollers[p].InSubmit? ==>
              var k := d.pollers[p].call;
              && k < |d.pool.calls| && d.pool.calls[k].Submit? && d.pool.calls[k].job == d.pollers[p].i
              && (d.pool.calls[k].submit.SubmitReturned? ==> D.Next(c, d, D.SubmitAnswered(p)).Some?)
  {
    ReachableInv(c, d);
    PT.NeverFaults(c, d.pool);
    assert Owns(d.msgs, d.pollers[p], p);
    var i := d.pollers[p].i;
    assert MessageFacts(d.pool.calls, d.pollers, d.msgs[i], i);
  }
}
