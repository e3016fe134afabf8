/** The protocols in step: each sees a run of its own, and together they leave no message undecided. */
module SystemProof {
  import opened Options
  import Runs
  import Pool
  import PI = PoolInvariant
  import J = JobProtocol
  import L = Lifecycle
  import LP = LifecycleProof
  import D = Delivery
  import DI = DeliveryInvariant
  import DT = DeliveryTheorems
  import S = System
  import opened System

  // ----- the invariant -----

  /** Where a poller's loop is, and where it is in its batch. */
  predicate InStep(life: L.PollerLife, at: D.PollerAt, polled: bool) {
    match at
    case Idle => !life.at.Submitting?
    case AtMessage(_, _) => life.at.Polling? && polled
    case InSubmit(_, _, call) => life.at == L.Submitting(call) && polled
    case ReleasingOne(_, _) => life.at.Polling? && polled
    case ReleasingRest(_, _) => false
  }

  predicate AllInStep(s: S.State) {
    && |s.life.pollers| == |s.delivery.pollers|
    && forall p :: 0 <= p < |s.life.pollers| ==> InStep(s.life.pollers[p], s.delivery.pollers[p], p in s.polled)
  }

  /** A message for which there is no Submit yet is still pending. */
  predicate PendingUntilSubmit(d: D.State) {
    forall m :: 0 <= m < |d.msgs| && d.msgs[m].call == None ==> DI.IsPending(d, m)
  }

  ghost predicate Inv(c: Pool.Conf, s: S.State)
    requires c.Valid()
  {
    && L.Reachable(c, s.life) && D.Reachable(c, s.delivery)
    && s.life.pool == s.delivery.pool
    && AllInStep(s)
    && PendingUntilSubmit(s.delivery)
  }

  // ----- each protocol sees a run of its own -----

  lemma StepIsTheirs(c: Pool.Conf, s: S.State, step: S.Step, s': S.State)
    requires c.Valid() && Inv(c, s) && S.Next(c, s, step) == Some(s')
    ensures L.Reachable(c, s'.life) && D.Reachable(c, s'.delivery)
  {
    var l, d := LifeStep(s, step), DeliveryStep(s, step);
    if l.Some? {
      Runs.Further(L.Steps(c), L.Initial, s.life, l.value);
    }
    if d.Some? {
      Runs.Further(D.Steps(c), D.Initial, s.delivery, d.value);
    }
  }

  lemma StepSharesPool(c: Pool.Conf, s: S.State, step: S.Step, s': S.State)
    requires c.Valid() && s.life.pool == s.delivery.pool && S.Next(c, s, step) == Some(s')
    ensures s'.life.pool == s'.delivery.pool
  {
    match step
    case Process(st) => ProcessKeepsPool(c, s.life, st, s'.life);
    case Main => MainSharesPool(c, s, s');
    case PoolStep(_) =>
    case EndExecute(_) =>
    case Submit(p) => SubmitSharesPool(c, s, p, s');
    case _ => OthersKeepPool(c, s, step, s');
  }

  lemma MainSharesPool(c: Pool.Conf, s: S.State, s': S.State)
    requires c.Valid() && s.life.pool == s.delivery.pool && S.Next(c, s, Main) == Some(s')
    ensures s'.life.pool == s'.delivery.pool
  {
  }

  lemma SubmitSharesPool(c: Pool.Conf, s: S.State, p: nat, s': S.State)
    requires c.Valid() && s.life.pool == s.delivery.pool && S.Next(c, s, Submit(p)) == Some(s')
    ensures s'.life.pool == s'.delivery.pool
  {
  }

  lemma OthersKeepPool(c: Pool.Conf, s: S.State, step: S.Step, s': S.State)
    requires c.Valid() && S.Next(c, s, step) == Some(s')
    requires step.AddPoller? || step.Receive? || step.SubmitReturns? || step.Release? || step.PollEnds? || step.BeginExecute? || step.JobStep?
    ensures s'.life.pool == s.life.pool && s'.delivery.pool == s.delivery.pool
  {
  }

  lemma ProcessKeepsPool(c: Pool.Conf, s: L.State, step: L.Step, s': L.State)
    requires c.Valid() && IsProcessOnly(step) && L.Next(c, s, step) == Some(s')
    ensures s'.pool == s.pool
  {
  }

  // ----- the pollers stay in step -----

  lemma ProcessKeepsStep(c: Pool.Conf, s: S.State, step: L.Step, s': S.State)
    requires c.Valid() && Inv(c, s) && S.Next(c, s, Process(step)) == Some(s')
    ensures AllInStep(s')
  {
    forall p | 0 <= p < |s'.life.pollers|
      ensures InStep(s'.life.pollers[p], s'.delivery.pollers[p], p in s'.polled)
    {
      assert InStep(s.life.pollers[p], s.delivery.pollers[p], p in s.polled);
    }
  }

  /** One poller moved; every other is as it was. */
  lemma MovedInStep(s: S.State, p: nat, s': S.State)
    requires AllInStep(s) && p < |s.life.pollers|
    requires |s'.life.pollers| == |s.life.pollers| && s'.life.pollers == s.life.pollers[p := s'.life.pollers[p]]
    requires |s'.delivery.pollers| == |s.delivery.pollers| && s'.delivery.pollers == s.delivery.pollers[p := s'.delivery.pollers[p]]
    requires s'.polled - {p} == s.polled - {p}
    requires InStep(s'.life.pollers[p], s'.delivery.pollers[p], p in s'.polled)
    ensures AllInStep(s')
  {
    forall q | 0 <= q < |s'.life.pollers|
      ensures InStep(s'.life.pollers[q], s'.delivery.pollers[q], q in s'.polled)
    {
      assert InStep(s.life.pollers[q], s.delivery.pollers[q], q in s.polled);
      assert q != p ==> (q in s'.polled <==> q in s'.polled - {p});
      assert q != p ==> (q in s.polled <==> q in s.polled - {p});
    }
  }

  lemma PollKeepsStep(c: Pool.Conf, s: S.State, step: S.Step, p: nat, s': S.State)
    requires c.Valid() && Inv(c, s) && S.Next(c, s, step) == Some(s')
    requires (step.Receive? && step.p == p) || (step.PollEnds? && step.p == p)
    ensures AllInStep(s')
  {
    assert InStep(s.life.pollers[p], s.delivery.pollers[p], p in s.polled);
    MovedInStep(s, p, s');
  }

  lemma MessageKeepsStep(c: Pool.Conf, s: S.State, step: S.Step, p: nat, s': S.State)
    requires c.Valid() && Inv(c, s) && S.Next(c, s, step) == Some(s')
    requires step == Submit(p) || step == Release(p)
    ensures AllInStep(s')
  {
    assert InStep(s.life.pollers[p], s.delivery.pollers[p], p in s.polled);
    MovedInStep(s, p, s');
  }

  lemma LoopsAsTheyWere(c: Pool.Conf, s: L.State, step: L.Step, s': L.State)
    requires c.Valid() && L.Next(c, s, step) == Some(s') && (step.MainStep? || step.PoolStep?)
    ensures s'.pollers == s.pollers
  {
  }

  lemma BatchesAsTheyWere(c: Pool.Conf, d: D.State, step: D.Step, d': D.State)
    requires c.Valid() && D.Next(c, d, step) == Some(d')
    requires step.PoolStep? || step.BeginExecute? || step.JobStep? || step.EndExecute?
    ensures d'.pollers == d.pollers
  {
  }

  /** Steps of the main thread, the pool and the jobs. */
  lemma OtherKeepsStep(c: Pool.Conf, s: S.State, step: S.Step, s': S.State)
    requires c.Valid() && Inv(c, s) && S.Next(c, s, step) == Some(s')
    requires step.Main? || step.PoolStep? || step.BeginExecute? || step.JobStep? || step.EndExecute?
    ensures AllInStep(s')
  {
    var l, d := LifeStep(s, step), DeliveryStep(s, step);
    if l.Some? {
      LoopsAsTheyWere(c, s.life, l.value, s'.life);
    }
    if d.Some? {
      BatchesAsTheyWere(c, s.delivery, d.value, s'.delivery);
    }
  }

  lemma AddKeepsStep(c: Pool.Conf, s: S.State, s': S.State)
    requires c.Valid() && Inv(c, s) && S.Next(c, s, AddPoller) == Some(s')
    ensures AllInStep(s')
  {
  }

  lemma ReturnKeepsStep(c: Pool.Conf, s: S.State, p: nat, s': S.State)
    requires c.Valid() && Inv(c, s) && S.Next(c, s, S.SubmitReturns(p)) == Some(s')
    ensures AllInStep(s')
  {
    LP.PoolOutlivesPollers(c, s.life);
    assert InStep(s.life.pollers[p], s.delivery.pollers[p], p in s.polled);
    forall q | 0 <= q < |s'.life.pollers|
      ensures InStep(s'.life.pollers[q], s'.delivery.pollers[q], q in s'.polled)
    {
      assert InStep(s.life.pollers[q], s.delivery.pollers[q], q in s.polled);
    }
  }

  // ----- what has no Submit is pending -----

  lemma PollerKeepsPending(c: Pool.Conf, d: D.State, step: D.Step, p: nat, d': D.State)
    requires c.Valid() && DI.Inv(c, d) && PendingUntilSubmit(d) && D.Next(c, d, step) == Some(d')
    requires p < |d.pollers|
    requires step == D.CallSubmit(p) || step == D.SubmitAnswered(p) || (step == D.Release(p) && d.pollers[p].ReleasingOne?)
    ensures PendingUntilSubmit(d')
  {
    var i := d.pollers[p].i;
    assert DI.Owns(d.msgs, d.pollers[p], p);
    assert DI.MessageFacts(d.pool.calls, d.pollers, d.msgs[i], i);
    assert d'.msgs[i].call.Some?;
    forall m | 0 <= m < |d'.msgs| && d'.msgs[m].call == None
      ensures DI.IsPending(d', m)
    {
      assert m != i && d'.msgs[m] == d.msgs[m];
      assert DI.IsPending(d, m);
    }
  }

  lemma ReceiveKeepsPending(c: Pool.Conf, d: D.State, p: nat, batch: seq<J.Message>, d': D.State)
    requires c.Valid() && DI.Inv(c, d) && PendingUntilSubmit(d) && D.Next(c, d, D.Receive(p, batch)) == Some(d')
    ensures PendingUntilSubmit(d')
  {
    forall m | 0 <= m < |d'.msgs| && d'.msgs[m].call == None
      ensures DI.IsPending(d', m)
    {
      if m < |d.msgs| {
        assert DI.IsPending(d, m);
      }
    }
  }

  lemma OtherKeepsPending(c: Pool.Conf, d: D.State, step: D.Step, d': D.State)
    requires c.Valid() && PendingUntilSubmit(d) && D.Next(c, d, step) == Some(d')
    requires step.AddPoller? || step.PoolStep? || step.BeginExecute? || step.JobStep? || step.EndExecute?
    ensures PendingUntilSubmit(d')
  {
    assert |d'.msgs| == |d.msgs| && forall m :: 0 <= m < |d.msgs| ==> d'.msgs[m].call == d.msgs[m].call && d'.msgs[m].poller == d.msgs[m].poller;
    assert |d.pollers| <= |d'.pollers| && forall p :: 0 <= p < |d.pollers| ==> d'.pollers[p] == d.pollers[p];
    forall m | 0 <= m < |d'.msgs| && d'.msgs[m].call == None
      ensures DI.IsPending(d', m)
    {
      assert DI.IsPending(d, m);
    }
  }

  lemma StepKeepsPending(c: Pool.Conf, s: S.State, step: S.Step, s': S.State)
    requires c.Valid() && Inv(c, s) && S.Next(c, s, step) == Some(s')
    ensures PendingUntilSubmit(s'.delivery)
  {
    var d, d' := s.delivery, s'.delivery;
    var st := DeliveryStep(s, step);
    DI.ReachableInv(c, d);
    match st {
      case None =>
      case Some(Receive(p, batch)) => ReceiveKeepsPending(c, d, p, batch, d');
      case Some(CallSubmit(p)) => PollerKeepsPending(c, d, st.value, p, d');
      case Some(SubmitAnswered(p)) => PollerKeepsPending(c, d, st.value, p, d');
      case Some(Release(p)) =>
        assert InStep(s.life.pollers[p], d.pollers[p], p in s.polled);
        PollerKeepsPending(c, d, st.value, p, d');
      case Some(_) => OtherKeepsPending(c, d, st.value, d');
    }
  }

  lemma StepKeepsInv(c: Pool.Conf, s: S.State, step: S.Step, s': S.State)
    requires c.Valid() && Inv(c, s) && S.Next(c, s, step) == Some(s')
    ensures Inv(c, s')
  {
    StepIsTheirs(c, s, step, s');
    StepSharesPool(c, s, step, s');
    match step {
      case Process(st) => ProcessKeepsStep(c, s, st, s');
      case SubmitReturns(p) => ReturnKeepsStep(c, s, p, s');
      case AddPoller => AddKeepsStep(c, s, s');
      case Receive(p, _) => PollKeepsStep(c, s, step, p, s');
      case Submit(p) => MessageKeepsStep(c, s, step, p, s');
      case Release(p) => MessageKeepsStep(c, s, step, p, s');
      case PollEnds(p, _) => PollKeepsStep(c, s, step, p, s');
      case _ => OtherKeepsStep(c, s, step, s');
    }
    StepKeepsPending(c, s, step, s');
  }

  lemma ReachableInv(c: Pool.Conf, s: S.State)
    requires c.Valid() && S.Reachable(c, s)
    ensures Inv(c, s)
  {
    Runs.Initially(L.Steps(c), L.Initial);
    Runs.Initially(D.Steps(c), D.Initial);
    forall t, step | Inv(c, t) && S.Next(c, t, step).Some?
      ensures Inv(c, S.Next(c, t, step).value)
    {
      StepKeepsInv(c, t, step, S.Next(c, t, step).value);
    }
    Runs.Invariant(S.Steps(c), S.Initial, s, t => Inv(c, t));
  }

  // ----- theorems -----

  /** What holds of the processor and of the messages separately holds of them together. */
  lemma Projects(c: Pool.Conf, s: S.State)
    requires c.Valid() && S.Reachable(c, s)
    ensures L.Reachable(c, s.life) && D.Reachable(c, s.delivery) && s.life.pool == s.delivery.pool
  {
    ReachableInv(c, s);
  }

  /** The batch of a poller whose loop has ended, or is anywhere outside a poll, is done. */
  lemma NothingPendingOutsidePolls(c: Pool.Conf, s: S.State, m: nat)
    requires c.Valid() && S.Reachable(c, s) && m < |s.delivery.msgs| && DI.IsPending(s.delivery, m)
    ensures var p := s.delivery.msgs[m].poller;
            p < |s.life.pollers| && (s.life.pollers[p].at.Polling? || s.life.pollers[p].at.Submitting?)
  {
    ReachableInv(c, s);
    var p := s.delivery.msgs[m].poller;
    assert InStep(s.life.pollers[p], s.delivery.pollers[p], p in s.polled);
  }

  /** A message is only ever given back because the pool had no room for it. */
  lemma ReleasedWasRefused(c: Pool.Conf, s: S.State, m: nat)
    requires c.Valid() && S.Reachable(c, s) && m < |s.delivery.msgs| && s.delivery.msgs[m].releases > 0
    ensures s.delivery.msgs[m].releases == 1
    ensures DI.Answer(s.delivery.pool.calls, s.delivery.msgs[m].call) == Some(Pool.Refused)
  {
    ReachableInv(c, s);
    var d := s.delivery;
    DI.ReachableInv(c, d);
    assert DI.MessageFacts(d.pool.calls, d.pollers, d.msgs[m], m);
    assert !DI.IsPending(d, m) && d.msgs[m].call.Some?;
    LP.PoolOutlivesPollers(c, s.life);
    var k := d.msgs[m].call.value;
    assert s.life.pool.calls[k].Submit? && PI.OutcomeOf(s.life.pool.calls[k].submit) != Some(Pool.NotRunning);
    assert !DI.IsAccepted(d.pool.calls, d.msgs[m]) && DI.Answer(d.pool.calls, d.msgs[m].call).Some?;
    match DI.Answer(d.pool.calls, d.msgs[m].call).value {
      case Accepted =>
      case Refused =>
      case NotRunning =>
    }
  }

  /**
   Either the message has been refused by the pool and given back once, without having been touched, or it has
   been executed exactly once, deleted if that could be done, handled if it was for this owner, and its job has
   ended accordingly.
   */
  predicate IsSettled(d: D.State, m: nat)
    requires m < |d.msgs|
  {
    var r := d.msgs[m];
    && !DI.IsPending(d, m)
    && r.releases + d.pool.executed[m] == 1
    && (r.releases == 1 ==>
          DI.Answer(d.pool.calls, r.call) == Some(Pool.Refused) && r.job.calls == [] && r.job.effects == J.Effects(0, 0))
    && (r.releases == 0 ==>
          && DI.Answer(d.pool.calls, r.call) == Some(Pool.Accepted)
          && DT.IsEnded(r.message, r.job))
  }

  predicate IsOver(s: S.State) {
    s.life.proc.main.Removing? || s.life.proc.main.Down?
  }

  /** When the processor removes its repositories, and for ever after, every message ever received is settled. */
  lemma EveryMessageIsSettled(c: Pool.Conf, s: S.State, m: nat)
    requires c.Valid() && S.Reachable(c, s) && m < |s.delivery.msgs| && IsOver(s)
    requires c.minWorkers >= 1 || c.queueSize == 0
    ensures IsSettled(s.delivery, m)
  {
    var d := s.delivery;
    ReachableInv(c, s);
    LP.NothingRunsDuringRemoval(c, s.life);
    if DI.IsPending(d, m) {
      NothingPendingOutsidePolls(c, s, m);
    }
    LP.ReachableInv(c, s.life);
    assert PI.HasStopped(d.pool.calls[s.life.proc.made.stop.value]);
    DT.NothingIsLost(c, d, m);
    if d.msgs[m].releases == 1 {
      ReleasedWasRefused(c, s, m);
      DT.ReleasedIsNeverHandled(c, d, m);
    } else {
      DT.EveryMessageIsInOnePlace(c, d, m);
    }
  }
}
