/** That a processor's Stop under way is never stuck: some goroutine of the program can always take its next action. */
module LifecycleProgress {
  import opened Options
  import opened Counting
  import opened ReadWriteLock
  import Runs
  import opened Pool
  import PI = PoolInvariant
  import PT = PoolTheorems
  import PP = PoolProgress
  import L = Lifecycle
  import opened Lifecycle
  import opened LifecycleProof

  /** The processor's Stop has closed quit and not yet returned. */
  predicate IsStopping(s: L.State) {
    s.proc.main.AwaitingGoroutines? || s.proc.main.StoppingPool? || s.proc.main.Removing?
  }

  /** Steps that nobody has to take: calls from outside, tickers, and new polls or submits. */
  predicate IsOutside(step: L.Step) {
    match step
    case Prepare(_, _) => true
    case CallStop => true
    case AddPoller => true
    case RunnerTick => true
    case PullTick => true
    case PollSubmits(_, _) => true
    case PoolStep(st) => PP.IsOutside(st)
    case _ => false
  }

  /** Neither Start nor Stop holds the pool's lock while the pollers are served. */
  lemma LockIsReadable(c: Conf, s: L.State)
    requires c.Valid() && Inv(c, s) && s.proc.main.AwaitingGoroutines?
    ensures s.pool.shared.lock.CanRead()
  {
    PI.ReachableInv(c, s.pool);
    forall i | 0 <= i < |s.pool.calls|
      ensures s.pool.shared.lock.writer != Some(i)
    {
      assert Knows(s.pool.shared.lock, i, PI.HoldsRead(s.pool.calls[i]), PI.HoldsWrite(s.pool.calls[i]));
      assert CallFacts(s.pool.shared.life, s.proc, s.owner, s.pollers, s.pool.calls[i], i);
    }
  }

  /** A Submit that has not returned can take its next action. */
  lemma SubmitGoesOn(c: Conf, s: L.State, k: nat) returns (step: Pool.Step)
    requires c.Valid() && Inv(c, s) && s.proc.main.AwaitingGoroutines?
    requires k < |s.pool.calls| && s.pool.calls[k].Submit? && !s.pool.calls[k].submit.SubmitReturned?
    ensures !PP.IsOutside(step) && !step.Work? && Pool.Next(c, s.pool, step).Some?
  {
    LockIsReadable(c, s);
    PT.NeverFaults(c, s.pool);
    if s.pool.calls[k].submit.SubmitRunning? && |s.pool.shared.channels.buffer| >= c.queueSize {
      step := TakeDefault(k);
    } else {
      step := Advance(k);
    }
  }

  /** A poller's loop that is told to quit can go on, or waits for a Submit that can. */
  lemma LoopGoesOn(c: Conf, s: L.State, p: nat) returns (step: L.Step)
    requires c.Valid() && Inv(c, s) && s.proc.main.AwaitingGoroutines? && p < |s.pollers| && !s.pollers[p].at.LoopEnded?
    ensures !IsOutside(step) && L.Next(c, s, step).Some?
    ensures step == Loop(p, false) || step == PollEnds(p, true) || step == SubmitReturns(p) || (step.PoolStep? && !step.step.Work?)
  {
    assert LifeFacts(s, p);
    match s.pollers[p].at
    case LoopTop => step := Loop(p, false);
    case Pausing => step := Loop(p, false);
    case Polling => step := PollEnds(p, true);
    case Submitting(k) =>
      if s.pool.calls[k].submit.SubmitReturned? {
        step := SubmitReturns(p);
      } else {
        var st := SubmitGoesOn(c, s, k);
        step := PoolStep(st);
      }
  }

  /** The run goroutine sees quit, stops one poller after the other and ends. */
  lemma RunnerGoesOn(c: Conf, s: L.State) returns (step: L.Step)
    requires c.Valid() && Inv(c, s) && s.proc.main.AwaitingGoroutines? && !s.proc.runner.RunnerDone?
    ensures !IsOutside(step) && L.Next(c, s, step).Some? && (step.PoolStep? ==> !step.step.Work?)
  {
    match s.proc.runner
    case Looping => step := RunnerSeesQuit;
    case Refreshing => step := RunnerStep;
    case StoppingOne(p) =>
      if s.pollers[p].at.LoopEnded? {
        step := RunnerStep;
      } else {
        step := LoopGoesOn(c, s, p);
      }
    case QuittingOne(p) =>
      if s.pollers[p].at.LoopEnded? {
        step := RunnerStep;
      } else {
        step := LoopGoesOn(c, s, p);
      }
    case Quitting =>
      if AllQuit(s.pollers) {
        step := RunnerStep;
      } else {
        var p :| 0 <= p < |s.pollers| && !s.pollers[p].quit;
        step := StopPoller(p);
      }
  }

  /** Every Submit has returned by the time the pool is stopped, so its Stop gets the lock. */
  lemma LockIsFree(c: Conf, s: L.State, k: nat)
    requires c.Valid() && Inv(c, s) && s.proc.main.StoppingPool? && s.proc.made.stop == Some(k)
    requires s.pool.calls[k] == Stop(StopCalled)
    ensures s.pool.shared.lock.CanWrite()
  {
    PI.ReachableInv(c, s.pool);
    forall i | 0 <= i < |s.pool.calls|
      ensures !PI.HoldsRead(s.pool.calls[i]) && !PI.HoldsWrite(s.pool.calls[i])
    {
      assert CallFacts(s.pool.shared.life, s.proc, s.owner, s.pollers, s.pool.calls[i], i);
      if s.pool.calls[i].Submit? && !s.pool.calls[i].submit.SubmitReturned? {
        assert LifeFacts(s, s.owner[i]);
      }
    }
    forall i | 0 <= i < |s.pool.calls|
      ensures i !in s.pool.shared.lock.readers && s.pool.shared.lock.writer != Some(i)
    {
      assert Knows(s.pool.shared.lock, i, PI.HoldsRead(s.pool.calls[i]), PI.HoldsWrite(s.pool.calls[i]));
    }
  }

  /** The pool's Stop can take its next action, or waits for workers that can. */
  lemma PoolStopGoesOn(c: Conf, s: L.State) returns (step: L.Step)
    requires c.Valid() && Inv(c, s) && s.proc.main.StoppingPool?
    ensures !IsOutside(step) && L.Next(c, s, step).Some? && (step == MainStep || step.PoolStep?)
  {
    var k := s.proc.made.stop.value;
    assert CallFacts(s.pool.shared.life, s.proc, s.owner, s.pollers, s.pool.calls[k], k);
    PT.NeverFaults(c, s.pool);
    match s.pool.calls[k].stop
    case StopCalled => LockIsFree(c, s, k); step := PoolStep(Advance(k));
    case StopLocked => step := PoolStep(Advance(k));
    case StopAccepted => step := PoolStep(Advance(k));
    case StopReturned(_) => step := MainStep;
    case _ =>
      var st := PP.StopIsNeverStuck(c, s.pool, k);
      step := PoolStep(st);
  }

  lemma StopIsNeverStuck(c: Conf, s: L.State) returns (step: L.Step)
    requires c.Valid() && L.Reachable(c, s) && IsStopping(s)
    ensures !IsOutside(step) && L.Next(c, s, step).Some?
  {
    ReachableInv(c, s);
    match s.proc.main
    case Removing => step := MainStep;
    case StoppingPool => step := PoolStopGoesOn(c, s);
    case AwaitingGoroutines =>
      if !s.proc.runner.RunnerDone? {
        step := RunnerGoesOn(c, s);
      } else if s.proc.puller.PullLooping? {
        step := PullerSeesQuit;
      } else if s.proc.puller.Pulling? {
        step := PullEnds;
      } else {
        PT.NeverFaults(c, s.pool);
        step := MainStep;
      }
  }

  // ----- what is there to stop -----

  lemma Take(c: Conf, s: L.State, step: L.Step) returns (s': L.State)
    requires c.Valid() && L.Reachable(c, s) && L.Next(c, s, step).Some?
    ensures s' == L.Next(c, s, step).value && L.Reachable(c, s')
  {
    s' := L.Next(c, s, step).value;
    Runs.Further(L.Steps(c), L.Initial, s, step);
  }

  /** With repositories there are pulls, from before the pool is started. */
  lemma PullsBegin(c: Conf) returns (s: L.State)
    requires c.Valid()
    ensures L.Reachable(c, s) && s.proc.puller.Pulling? && s.proc.main.CallingPool?
  {
    Runs.Initially(L.Steps(c), L.Initial);
    s := Take(c, L.Initial, Prepare(true, true));
    s := Take(c, s, MainStep);
    s := Take(c, s, PullTick);
  }
}
