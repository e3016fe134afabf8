/**
 That a Stop under way comes to its end. No fairness is assumed: such a Stop is never stuck, and what the pool
 can still do before it returns is bounded, but for tickers that fire.
 */
module PoolProgress {
  import opened Options
  import opened Counting
  import opened ReadWriteLock
  import Runs
  import opened Pool
  import opened PoolInvariant
  import opened PoolTheorems

  /** Call k is a Stop that has closed quit and not yet returned. */
  predicate IsStopping(s: State, k: nat) {
    k < |s.calls| && HasClosed(s.calls[k]) && !s.calls[k].stop.StopReturned?
  }

  predicate HasReturned(s: State, k: nat) {
    k < |s.calls| && s.calls[k] == Stop(StopReturned(true))
  }

  // ----- how much is left to do -----

  function WorkerRank(w: Worker): nat {
    match w
    case Spawned(_) => 7
    case Holding(_) => 6
    case Executing(_) => 5
    case Finished => 4
    case TimedOut => 4
    case Waiting => 3
    case SawClosed => 2
    case Leaving => 1
    case Exited => 0
  }

  function RunRank(run: RunLoop): nat {
    match run
    case NotStarted => 5
    case Watching => 4
    case SawQuit => 3
    case QueueClosed => 2
    case WaitingWorkers => 1
    case RunEnded => 0
  }

  function StopRank(call: Call): nat {
    if !call.Stop? then 0 else
    match call.stop
    case StopClosed => 3
    case StopWaiting => 2
    case StopReturning(_) => 1
    case _ => 0
  }

  /** A bound on the actions left before Stop k has returned and every worker has gone. */
  function Left(s: State, k: nat): nat
    requires k < |s.calls|
  {
    Sum(s.workers, WorkerRank) + 4 * |s.shared.channels.buffer| + RunRank(s.shared.life.run) + StopRank(s.calls[k])
  }

  /** A step that somebody outside the pool's own work decides on: a new call, or a ticker. */
  predicate IsOutside(step: Step) {
    step.Invoke? || step.Tick?
  }

  // ----- never stuck -----

  /** Some action of the pool itself is enabled. */
  lemma StopIsNeverStuck(c: Conf, s: State, k: nat) returns (step: Step)
    requires c.Valid() && Reachable(c, s) && IsStopping(s, k)
    ensures !IsOutside(step) && Next(c, s, step).Some?
  {
    ReachableInv(c, s);
    assert CallFacts(s.shared, s.calls[k]);
    if !s.calls[k].stop.StopWaiting? || s.shared.counts.waitGroup == 0 {
      step := Advance(k);
    } else {
      NothingReserved(c, s);
      var w := SumWitness(s.workers, LiveWeight);
      if s.workers[w].Waiting? && s.shared.channels.buffer == [] && !s.shared.channels.queueClosed {
        step := RunStep;
      } else {
        step := Work(w);
      }
    }
  }

  /**
   Stopping or not, a worker that is not at its receive can take its next action, and one that is there takes
   the oldest job as soon as there is one.
   */
  lemma WorkerGoesOn(c: Conf, s: State, w: nat)
    requires c.Valid() && Reachable(c, s) && w < |s.workers| && !s.workers[w].Exited?
    requires s.workers[w].Waiting? ==> s.shared.channels.buffer != []
    ensures Next(c, s, Work(w)).Some?
    ensures s.workers[w].Waiting? ==> Next(c, s, Work(w)).value.workers == s.workers[w := Holding(s.shared.channels.buffer[0])]
  {
    NeverFaults(c, s);
  }

  // ----- every action is one less -----

  lemma WorkerLeft(c: Conf, g: Shared, worker: Worker)
    requires c.Valid() && WorkerNext(c, g, worker).Some?
    ensures var e := WorkerNext(c, g, worker).value;
            && WorkerRank(e.worker) + 4 * |e.shared.channels.buffer| < WorkerRank(worker) + 4 * |g.channels.buffer|
            && e.shared.life.run == g.life.run
  {
  }

  /** Only Stop k itself can act while it holds the lock. */
  lemma OthersWait(c: Conf, s: State, k: nat, i: nat)
    requires c.Valid() && Inv(c, s) && IsStopping(s, k) && i < |s.calls| && i != k
    ensures CallNext(c, s.shared, s.calls[i], i) == None && !AtSelect(s, i)
  {
    assert Knows(s.shared.lock, k, HoldsRead(s.calls[k]), HoldsWrite(s.calls[k]));
    assert Knows(s.shared.lock, i, HoldsRead(s.calls[i]), HoldsWrite(s.calls[i]));
  }

  lemma AdvanceDrains(c: Conf, s: State, k: nat)
    requires c.Valid() && Inv(c, s) && IsStopping(s, k) && Next(c, s, Advance(k)).Some?
    ensures var s' := Next(c, s, Advance(k)).value;
            Left(s', k) < Left(s, k) && (IsStopping(s', k) || HasReturned(s', k))
  {
    assert s.workers + [] == s.workers;
    assert CallFacts(s.shared, s.calls[k]);
  }

  /** Each action of the pool leaves one less to do, a ticker at most one more, and a new call changes nothing. */
  lemma StepDrains(c: Conf, s: State, k: nat, step: Step)
    requires c.Valid() && Reachable(c, s) && IsStopping(s, k) && Next(c, s, step).Some?
    ensures var s' := Next(c, s, step).value;
            && Reachable(c, s') && k < |s'.calls|
            && (IsStopping(s', k) || HasReturned(s', k))
            && (IsOutside(step) ==> IsStopping(s', k) && Left(s', k) == Left(s, k) + (if step.Tick? then 1 else 0))
            && (!IsOutside(step) ==> Left(s', k) < Left(s, k))
  {
    ReachableInv(c, s);
    var s' := Take(c, s, step);
    match step
    case Invoke(_) =>
    case Advance(i) =>
      if i != k {
        OthersWait(c, s, k, i);
      }
      AdvanceDrains(c, s, k);
    case TakeDefault(i) =>
      if i != k {
        OthersWait(c, s, k, i);
      }
    case HandOff(i, _) =>
      if i != k {
        OthersWait(c, s, k, i);
      }
    case RunStep =>
    case Work(w) =>
      WorkerLeft(c, s.shared, s.workers[w]);
      SumUpdate(s.workers, w, s'.workers[w], WorkerRank);
    case Tick(w) => SumUpdate(s.workers, w, TimedOut, WorkerRank);
  }

  // ----- runs -----

  function Actions(steps: seq<Step>): nat {
    if steps == [] then 0 else (if IsOutside(steps[0]) then 0 else 1) + Actions(steps[1..])
  }

  function Ticks(steps: seq<Step>): nat {
    if steps == [] then 0 else (if steps[0].Tick? then 1 else 0) + Ticks(steps[1..])
  }

  lemma {:induction false} ReturnedForGood(c: Conf, s: State, k: nat, steps: seq<Step>, s': State)
    requires c.Valid() && HasReturned(s, k) && Runs.Run(Steps(c), s, steps, s')
    ensures HasReturned(s', k)
  {
    Runs.RunKeeps(Steps(c), s, steps, s', t => HasReturned(t, k));
  }

  /**
   In whatever way a run goes on while a Stop is under way, the pool takes no more actions than were left to
   do and tickers have fired.
   */
  lemma {:induction false} DrainIsBounded(c: Conf, s: State, k: nat, steps: seq<Step>, s': State)
    requires c.Valid() && Reachable(c, s) && IsStopping(s, k) && Runs.Run(Steps(c), s, steps, s') && IsStopping(s', k)
    ensures Actions(steps) + Left(s', k) <= Left(s, k) + Ticks(steps)
    decreases |steps|
  {
    if steps != [] {
      var next := Next(c, s, steps[0]).value;
      StepDrains(c, s, k, steps[0]);
      if HasReturned(next, k) {
        ReturnedForGood(c, next, k, steps[1..], s');
      }
      DrainIsBounded(c, next, k, steps[1..], s');
    }
  }

  /** So from every such state Stop can return, without any further call or ticker, within the bound. */
  lemma {:induction false} StopCanReturn(c: Conf, s: State, k: nat) returns (steps: seq<Step>, s': State)
    requires c.Valid() && Reachable(c, s) && IsStopping(s, k)
    ensures Runs.Run(Steps(c), s, steps, s') && HasReturned(s', k) && |steps| <= Left(s, k)
    ensures forall i :: 0 <= i < |steps| ==> !IsOutside(steps[i])
    decreases Left(s, k)
  {
    var step := StopIsNeverStuck(c, s, k);
    StepDrains(c, s, k, step);
    var next := Next(c, s, step).value;
    if HasReturned(next, k) {
      steps, s' := [step], next;
    } else {
      var rest;
      rest, s' := StopCanReturn(c, next, k);
      steps := [step] + rest;
      assert steps[1..] == rest;
    }
  }
}
