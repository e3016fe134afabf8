/** The invariant of the lifecycle protocol, and what it says about pollers, jobs and pulls. */
module LifecycleProof {
  import opened Options
  import Runs
  import opened Pool
  import PI = PoolInvariant
  import PT = PoolTheorems
  import L = Lifecycle
  import opened Lifecycle

  // ----- the pool's calls as the processor makes them -----

  predicate IsBefore(main: Main) { main.Idle? || main.Prepared? || main.CallingPool? }

  /** The phases in which pollers live. */
  predicate IsServing(main: Main) { main.FirstRefresh? || main.Up? || main.AwaitingGoroutines? }

  predicate IsEnding(main: Main) { main.StoppingPool? || main.Removing? || main.Down? }

  /** The one call of the pool's Start. */
  predicate StartFacts(life: Life, at: StartAt, stopping: bool) {
    if at.StartCalled? || at.StartLocked? then !life.isRunning && life.run.NotStarted?
    else (at.StartReturning? || at.StartReturned? ==> at.ok) && (!stopping ==> life.isRunning)
  }

  /** The one call of the pool's Stop. */
  predicate StopFacts(life: Life, at: StopAt) {
    && (at.StopCalled? || at.StopLocked? ==> life.isRunning)
    && (at.StopReturning? || at.StopReturned? ==> at.ok)
  }

  predicate CallFacts(life: Life, proc: Proc, owner: map<nat, nat>, pollers: seq<PollerLife>, call: Call, k: nat) {
    match call
    case Start(at) => proc.made.start == Some(k) && StartFacts(life, at, proc.made.stop.Some?)
    case Stop(at) => proc.made.stop == Some(k) && StopFacts(life, at)
    case Submit(_, at) =>
      && PI.OutcomeOf(at) != Some(NotRunning)
      && (!at.SubmitReturned? ==> k in owner && owner[k] < |pollers| && pollers[owner[k]].at == Submitting(k))
  }

  predicate AllCallFacts(s: L.State) {
    forall k :: 0 <= k < |s.pool.calls| ==>
      CallFacts(s.pool.shared.life, s.proc, s.owner, s.pollers, s.pool.calls[k], k)
  }

  predicate Made(s: L.State) {
    var made := s.proc.made;
    && (made.start.Some? ==> made.start.value < |s.pool.calls| && s.pool.calls[made.start.value].Start?)
    && (made.stop.Some? ==> made.stop.value < |s.pool.calls| && s.pool.calls[made.stop.value].Stop?)
  }

  predicate MainFacts(s: L.State) {
    var proc, made := s.proc, s.proc.made;
    && (made.start.None? <==> IsBefore(proc.main))
    && (made.stop.Some? <==> IsEnding(proc.main))
    && (made.start.None? ==> s.pool.shared.life.run.NotStarted? && !s.pool.shared.life.isRunning)
    && (IsServing(proc.main) ==> s.pool.shared.life.isRunning)
    && (proc.runner.NotLaunched? <==> IsBefore(proc.main) || proc.main.StartingPool? || proc.main.FirstRefresh?)
    && (proc.quit <==> proc.main.AwaitingGoroutines? || IsEnding(proc.main))
    && (proc.runner.Quitting? || proc.runner.QuittingOne? || proc.runner.RunnerDone? || proc.puller.PullerDone? ==> proc.quit)
    && (IsEnding(proc.main) ==> GoroutinesDone(proc))
    && (IsServing(proc.main) || IsEnding(proc.main) ==> Return(s.pool.calls, made.start) == Some(Start(StartReturned(true))))
    && (proc.main.Removing? || proc.main.Down? ==> Return(s.pool.calls, made.stop) == Some(Stop(StopReturned(true))))
  }

  // ----- the pollers -----

  predicate IsBeingStopped(runner: Runner, p: nat) {
    runner == StoppingOne(p) || runner == QuittingOne(p)
  }

  predicate LifeFacts(s: L.State, p: nat)
    requires p < |s.pollers|
  {
    var life := s.pollers[p];
    && (!life.at.LoopEnded? ==> IsServing(s.proc.main))
    && (life.at.LoopEnded? ==> life.quit)
    && (life.quit && !life.at.LoopEnded? ==> IsBeingStopped(s.proc.runner, p))
    && (s.proc.runner.RunnerDone? ==> life.quit)
    && life.pollsAfterQuit <= (if life.quit && !life.at.Polling? && !life.at.Submitting? then 1 else 0)
    && (life.at.Submitting? ==> life.at.call < |s.pool.calls| && s.pool.calls[life.at.call].Submit?
                                && life.at.call in s.owner && s.owner[life.at.call] == p)
  }

  predicate AllLifeFacts(s: L.State) {
    && (forall p :: 0 <= p < |s.pollers| ==> LifeFacts(s, p))
    && (s.proc.runner.StoppingOne? || s.proc.runner.QuittingOne? ==>
          s.proc.runner.p < |s.pollers| && s.pollers[s.proc.runner.p].quit)
  }

  ghost predicate Inv(c: Conf, s: L.State)
    requires c.Valid()
  {
    && Pool.Reachable(c, s.pool)
    && Made(s)
    && MainFacts(s)
    && AllCallFacts(s)
    && AllLifeFacts(s)
  }

  // ----- the pool's own steps -----

  /** What a step of the pool may do to a call, given whether the pool is running. */
  lemma CallMoves(c: Conf, g: Shared, call: Call, k: nat, proc: Proc, owner: map<nat, nat>, pollers: seq<PollerLife>)
    requires c.Valid() && CallNext(c, g, call, k).Some?
    requires CallFacts(g.life, proc, owner, pollers, call, k)
    requires call.Submit? && !call.submit.SubmitReturned? ==> IsServing(proc.main)
    requires IsServing(proc.main) ==> g.life.isRunning
    ensures var e := CallNext(c, g, call, k).value;
            e.shared.life.fault == NoFault ==>
            && CallFacts(e.shared.life, proc, owner, pollers, e.call, k)
            && (e.shared.life.isRunning == g.life.isRunning || call == Start(StartLocked) || call == Stop(StopLocked))
            && (e.shared.life.run == g.life.run || call == Start(StartLocked))
            && (e.call.Start? <==> call.Start?) && (e.call.Stop? <==> call.Stop?)
            && (call.Stop? && call.stop.StopReturned? ==> e.call == call)
  {
  }

  lemma AdvanceKeepsInv(c: Conf, s: L.State, k: nat, s': L.State)
    requires c.Valid() && Inv(c, s) && L.Next(c, s, PoolStep(Advance(k))) == Some(s')
    ensures Inv(c, s')
  {
    var g, call := s.pool.shared, s.pool.calls[k];
    assert CallFacts(g.life, s.proc, s.owner, s.pollers, call, k);
    var _ := Pool.Take(c, s.pool, Advance(k));
    PT.NeverFaults(c, s'.pool);
    if call.Submit? && !call.submit.SubmitReturned? {
      assert LifeFacts(s, s.owner[k]);
    }
    CallMoves(c, g, call, k, s.proc, s.owner, s.pollers);
    forall i | 0 <= i < |s'.pool.calls|
      ensures CallFacts(s'.pool.shared.life, s'.proc, s'.owner, s'.pollers, s'.pool.calls[i], i)
    {
      assert CallFacts(g.life, s.proc, s.owner, s.pollers, s.pool.calls[i], i);
    }
    forall p | 0 <= p < |s'.pollers|
      ensures LifeFacts(s', p)
    {
      assert LifeFacts(s, p);
    }
  }

  /** The pool's steps other than those of a call leave isRunning alone and decide no Submit against a running pool. */
  lemma OtherPoolStepKeepsInv(c: Conf, s: L.State, step: Pool.Step, s': L.State)
    requires c.Valid() && Inv(c, s) && !step.Advance? && L.Next(c, s, PoolStep(step)) == Some(s')
    ensures Inv(c, s')
  {
    var _ := Pool.Take(c, s.pool, step);
    PT.NeverFaults(c, s'.pool);
    if step.Work? {
      assert s'.pool.shared.life.fault == NoFault;
    }
    forall i | 0 <= i < |s'.pool.calls|
      ensures CallFacts(s'.pool.shared.life, s'.proc, s'.owner, s'.pollers, s'.pool.calls[i], i)
    {
      assert CallFacts(s.pool.shared.life, s.proc, s.owner, s.pollers, s.pool.calls[i], i);
    }
    OtherPoolStepKeepsLives(c, s, step, s');
  }

  lemma OtherPoolStepKeepsLives(c: Conf, s: L.State, step: Pool.Step, s': L.State)
    requires c.Valid() && Inv(c, s) && !step.Advance? && L.Next(c, s, PoolStep(step)) == Some(s')
    ensures AllLifeFacts(s')
  {
    forall p | 0 <= p < |s'.pollers|
      ensures LifeFacts(s', p)
    {
      assert LifeFacts(s, p);
    }
  }

  // ----- the steps of the processor -----

  lemma MainKeepsInv(c: Conf, s: L.State, s': L.State)
    requires c.Valid() && Inv(c, s) && L.Next(c, s, MainStep) == Some(s')
    ensures Inv(c, s')
  {
    if s.proc.main.CallingPool? {
      var _ := Pool.Take(c, s.pool, Invoke(Start(StartCalled)));
    } else if s.proc.main.AwaitingGoroutines? {
      var _ := Pool.Take(c, s.pool, Invoke(Stop(StopCalled)));
    }
    if s.proc.made.start.Some? {
      var k := s.proc.made.start.value;
      assert CallFacts(s.pool.shared.life, s.proc, s.owner, s.pollers, s.pool.calls[k], k);
    }
    if s.proc.made.stop.Some? {
      var k := s.proc.made.stop.value;
      assert CallFacts(s.pool.shared.life, s.proc, s.owner, s.pollers, s.pool.calls[k], k);
    }
    MainKeepsCalls(c, s, s');
    MainKeepsLives(c, s, s');
  }

  lemma MainKeepsCalls(c: Conf, s: L.State, s': L.State)
    requires c.Valid() && Inv(c, s) && L.Next(c, s, MainStep) == Some(s')
    ensures AllCallFacts(s')
  {
    forall i | 0 <= i < |s'.pool.calls|
      ensures CallFacts(s'.pool.shared.life, s'.proc, s'.owner, s'.pollers, s'.pool.calls[i], i)
    {
      if i < |s.pool.calls| {
        assert CallFacts(s.pool.shared.life, s.proc, s.owner, s.pollers, s.pool.calls[i], i);
      }
    }
  }

  lemma MainKeepsLives(c: Conf, s: L.State, s': L.State)
    requires c.Valid() && Inv(c, s) && L.Next(c, s, MainStep) == Some(s')
    ensures AllLifeFacts(s')
  {
    forall p | 0 <= p < |s'.pollers|
      ensures LifeFacts(s', p)
    {
      assert LifeFacts(s, p);
    }
  }

  predicate IsPollers(step: L.Step) {
    step.Loop? || step.SubmitReturns? || step.PollEnds?
  }

  /** Steps of the processor's goroutines, which leave the pool alone. */
  predicate IsProcessors(step: L.Step) {
    !step.MainStep? && !step.PoolStep? && !step.PollSubmits? && !IsPollers(step)
  }

  /** The poller whose step it is, and nothing else but its entry changes. */
  lemma OnePollerKeepsLife(c: Conf, s: L.State, step: L.Step, s': L.State)
    requires c.Valid() && Inv(c, s) && IsPollers(step) && L.Next(c, s, step) == Some(s')
    ensures step.p < |s.pollers| && s' == s.(pollers := s.pollers[step.p := s'.pollers[step.p]]) && LifeFacts(s', step.p)
    ensures s.pollers[step.p].at.Submitting? ==> s.pool.calls[s.pollers[step.p].at.call].Submit? && s.pool.calls[s.pollers[step.p].at.call].submit.SubmitReturned?
  {
    assert LifeFacts(s, step.p);
  }

  lemma PollerKeepsCalls(c: Conf, s: L.State, step: L.Step, s': L.State)
    requires c.Valid() && Inv(c, s) && IsPollers(step) && L.Next(c, s, step) == Some(s')
    ensures AllCallFacts(s')
  {
    OnePollerKeepsLife(c, s, step, s');
    forall i | 0 <= i < |s'.pool.calls|
      ensures CallFacts(s'.pool.shared.life, s'.proc, s'.owner, s'.pollers, s'.pool.calls[i], i)
    {
      assert CallFacts(s.pool.shared.life, s.proc, s.owner, s.pollers, s.pool.calls[i], i);
    }
  }

  lemma PollerKeepsInv(c: Conf, s: L.State, step: L.Step, s': L.State)
    requires c.Valid() && Inv(c, s) && IsPollers(step) && L.Next(c, s, step) == Some(s')
    ensures Inv(c, s')
  {
    PollerKeepsCalls(c, s, step, s');
    PollerKeepsLives(c, s, step, s');
    assert s'.pool == s.pool && s'.proc == s.proc && s'.owner == s.owner;
  }

  lemma PollerKeepsLives(c: Conf, s: L.State, step: L.Step, s': L.State)
    requires c.Valid() && Inv(c, s) && IsPollers(step) && L.Next(c, s, step) == Some(s')
    ensures AllLifeFacts(s')
  {
    OnePollerKeepsLife(c, s, step, s');
    forall q | 0 <= q < |s'.pollers|
      ensures LifeFacts(s', q)
    {
      assert LifeFacts(s, q);
    }
    if s.proc.runner.StoppingOne? || s.proc.runner.QuittingOne? {
      assert s'.pollers[s.proc.runner.p].quit == s.pollers[s.proc.runner.p].quit;
    }
  }

  lemma ProcessorKeepsLives(c: Conf, s: L.State, step: L.Step, s': L.State)
    requires c.Valid() && Inv(c, s) && IsProcessors(step) && L.Next(c, s, step) == Some(s')
    ensures AllLifeFacts(s')
  {
    forall p | 0 <= p < |s'.pollers|
      ensures LifeFacts(s', p)
    {
      if p < |s.pollers| {
        assert LifeFacts(s, p);
      }
    }
  }

  lemma ProcessorKeepsMain(c: Conf, s: L.State, step: L.Step, s': L.State)
    requires c.Valid() && Inv(c, s) && IsProcessors(step) && L.Next(c, s, step) == Some(s')
    ensures s'.pool == s.pool && s'.owner == s.owner && s'.proc.made == s.proc.made && MainFacts(s')
  {
  }

  lemma ProcessorKeepsInv(c: Conf, s: L.State, step: L.Step, s': L.State)
    requires c.Valid() && Inv(c, s) && IsProcessors(step) && L.Next(c, s, step) == Some(s')
    ensures Inv(c, s')
  {
    ProcessorKeepsLives(c, s, step, s');
    ProcessorKeepsMain(c, s, step, s');
    LoopsKept(c, s, step, s');
    forall i | 0 <= i < |s'.pool.calls|
      ensures CallFacts(s'.pool.shared.life, s'.proc, s'.owner, s'.pollers, s'.pool.calls[i], i)
    {
      assert CallFacts(s.pool.shared.life, s.proc, s.owner, s.pollers, s.pool.calls[i], i);
    }
  }

  /** No loop moves when the processor does. */
  lemma LoopsKept(c: Conf, s: L.State, step: L.Step, s': L.State)
    requires c.Valid() && IsProcessors(step) && L.Next(c, s, step) == Some(s')
    ensures |s.pollers| <= |s'.pollers| && forall p :: 0 <= p < |s.pollers| ==> s'.pollers[p].at == s.pollers[p].at
  {
  }

  lemma SubmitKeepsInv(c: Conf, s: L.State, p: nat, job: Job, s': L.State)
    requires c.Valid() && Inv(c, s) && L.Next(c, s, PollSubmits(p, job)) == Some(s')
    ensures Inv(c, s')
  {
    var _ := Pool.Take(c, s.pool, Invoke(Submit(job, SubmitCalled)));
    forall i | 0 <= i < |s'.pool.calls|
      ensures CallFacts(s'.pool.shared.life, s'.proc, s'.owner, s'.pollers, s'.pool.calls[i], i)
    {
      if i < |s.pool.calls| {
        assert CallFacts(s.pool.shared.life, s.proc, s.owner, s.pollers, s.pool.calls[i], i);
      }
    }
    forall q | 0 <= q < |s'.pollers|
      ensures LifeFacts(s', q)
    {
      assert LifeFacts(s, q);
    }
  }

  lemma StepKeepsInv(c: Conf, s: L.State, step: L.Step, s': L.State)
    requires c.Valid() && Inv(c, s) && L.Next(c, s, step) == Some(s')
    ensures Inv(c, s')
  {
    match step
    case MainStep => MainKeepsInv(c, s, s');
    case PollSubmits(p, job) => SubmitKeepsInv(c, s, p, job, s');
    case PoolStep(st) =>
      if st.Advance? {
        AdvanceKeepsInv(c, s, st.k, s');
      } else {
        OtherPoolStepKeepsInv(c, s, st, s');
      }
    case _ =>
      if IsPollers(step) {
        PollerKeepsInv(c, s, step, s');
      } else {
        ProcessorKeepsInv(c, s, step, s');
      }
  }

  lemma ReachableInv(c: Conf, s: L.State)
    requires c.Valid() && L.Reachable(c, s)
    ensures Inv(c, s)
  {
    Pool.Initially(c);
    forall t, step | Inv(c, t) && L.Next(c, t, step).Some?
      ensures Inv(c, L.Next(c, t, step).value)
    {
      StepKeepsInv(c, t, step, L.Next(c, t, step).value);
    }
    Runs.Invariant(L.Steps(c), L.Initial, s, t => Inv(c, t));
  }

  // ----- what the order of start and stop guarantees -----

  /** While any poller's loop runs, the pool is running; no Submit is ever told that it is not. */
  lemma PoolOutlivesPollers(c: Conf, s: L.State)
    requires c.Valid() && L.Reachable(c, s)
    ensures (exists p :: 0 <= p < |s.pollers| && !s.pollers[p].at.LoopEnded?) ==> s.pool.shared.life.isRunning
    ensures forall k :: 0 <= k < |s.pool.calls| && s.pool.calls[k].Submit? ==> PI.OutcomeOf(s.pool.calls[k].submit) != Some(NotRunning)
  {
    ReachableInv(c, s);
    forall k | 0 <= k < |s.pool.calls| && s.pool.calls[k].Submit?
      ensures PI.OutcomeOf(s.pool.calls[k].submit) != Some(NotRunning)
    {
      assert CallFacts(s.pool.shared.life, s.proc, s.owner, s.pollers, s.pool.calls[k], k);
    }
    if p :| 0 <= p < |s.pollers| && !s.pollers[p].at.LoopEnded? {
      assert LifeFacts(s, p);
    }
  }

  /** From the moment the repositories are being removed: no worker, so no script; no poller; no pull, and no way to begin one. */
  lemma NothingRunsDuringRemoval(c: Conf, s: L.State)
    requires c.Valid() && L.Reachable(c, s) && (s.proc.main.Removing? || s.proc.main.Down?)
    ensures PT.AllExited(s.pool.workers)
    ensures forall p :: 0 <= p < |s.pollers| ==> s.pollers[p].at.LoopEnded?
    ensures !s.proc.puller.Pulling? && L.Next(c, s, PullTick) == None
  {
    ReachableInv(c, s);
    var k := s.proc.made.stop.value;
    assert PI.HasStopped(s.pool.calls[k]);
    PT.StopLeavesNoWorker(c, s.pool);
    forall p | 0 <= p < |s.pollers|
      ensures s.pollers[p].at.LoopEnded?
    {
      assert LifeFacts(s, p);
    }
  }

  /** After its quit is closed a poller finishes at most the poll it is in, and begins none. */
  lemma AtMostOnePollAfterQuit(c: Conf, s: L.State, p: nat)
    requires c.Valid() && L.Reachable(c, s) && p < |s.pollers|
    ensures s.pollers[p].pollsAfterQuit <= 1
    ensures s.pollers[p].quit && (s.pollers[p].at.Polling? || s.pollers[p].at.Submitting?) ==> s.pollers[p].pollsAfterQuit == 0
    ensures s.pollers[p].quit ==>
              forall shouldWait, s' :: L.Next(c, s, PollEnds(p, shouldWait)) == Some(s') ==> s'.pollers[p].pollsAfterQuit == 1
    ensures s.pollers[p].quit && s.pollers[p].at.LoopTop? ==>
              forall expired, s' :: L.Next(c, s, Loop(p, expired)) == Some(s') ==> s'.pollers[p].at.LoopEnded?
  {
    ReachableInv(c, s);
    assert LifeFacts(s, p);
  }

  predicate InPoll(at: LoopAt) {
    at.Polling? || at.Submitting?
  }

  /** A poll begins only at the top of the loop, of a poller that is not to quit and whose token has not expired. */
  lemma PollBeginsOnlyWhen(c: Conf, s: L.State, step: L.Step, p: nat, s': L.State)
    requires c.Valid() && L.Next(c, s, step) == Some(s') && p < |s.pollers| && p < |s'.pollers|
    requires !InPoll(s.pollers[p].at) && InPoll(s'.pollers[p].at)
    ensures step == Loop(p, false) && !s.pollers[p].quit && s.pollers[p].at.LoopTop?
  {
  }

  /** And then it does; with an expired token, and after a poll that asks for it, the poller pauses. */
  lemma LoopTurns(c: Conf, s: L.State, p: nat)
    requires c.Valid() && p < |s.pollers|
    ensures s.pollers[p].at.LoopTop? && !s.pollers[p].quit ==>
              forall expired :: var s' := L.Next(c, s, Loop(p, expired));
                s'.Some? && s'.value.pollers[p].at == if expired then Pausing else Polling
    ensures s.pollers[p].at.Polling? ==>
              forall shouldWait :: var s' := L.Next(c, s, PollEnds(p, shouldWait));
                s'.Some? && s'.value.pollers[p].at == if shouldWait then Pausing else LoopTop
  {
  }
}
