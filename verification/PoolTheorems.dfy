/**
 What the invariant of the worker pool means to its callers, for every run of any number of concurrent
 Start, Stop and Submit calls and workers.
 */
module PoolTheorems {
  import opened Counting
  import opened ReadWriteLock
  import opened Pool
  import opened PoolInvariant

  // ----- the counters -----

  /** Has a job, or has executed one and not yet told the idle counter. */
  function OccupiedWeight(w: Worker): nat { if JobOf(w).Some? || w.Finished? then 1 else 0 }

  function Occupied(workers: seq<Worker>): nat { Sum(workers, OccupiedWeight) }

  /** NumberOfAvailableWorker, in the order the subtraction and the addition are evaluated. */
  function NumberOfAvailableWorker(c: Conf, n: Counts): int {
    c.maxWorkers - n.current + n.idle
  }

  lemma CountersAreExact(c: Conf, s: State)
    requires c.Valid() && Reachable(c, s)
    ensures var n := s.shared.counts;
            && n.current == Registered(s.workers) + Reserved(s.calls)
            && n.current - n.idle == Busy(s.workers)
            && 0 <= n.idle <= n.current <= c.maxWorkers
            && Busy(s.workers) <= c.maxWorkers
  {
    ReachableInv(c, s);
    SumMonotone(s.workers, BusyWeight, RegisteredWeight);
  }

  /**
   The number a poller bases its next request on: the workers that are not executing, never outside
   0..max, never overflowing, and never less than the slots without a job.
   */
  lemma AvailabilityIsExact(c: Conf, s: State)
    requires c.Valid() && Reachable(c, s)
    ensures var available := NumberOfAvailableWorker(c, s.shared.counts);
            && available == c.maxWorkers - Busy(s.workers)
            && 0 <= available <= c.maxWorkers <= MAX_INT32
            && available >= c.maxWorkers - Occupied(s.workers)
            && 0 <= c.maxWorkers - s.shared.counts.current <= MAX_INT32
  {
    CountersAreExact(c, s);
    SumMonotone(s.workers, BusyWeight, OccupiedWeight);
  }

  // ----- channels and wait group -----

  /** No send on a closed channel, no second close, no wait group misuse. */
  lemma NeverFaults(c: Conf, s: State)
    requires c.Valid() && Reachable(c, s)
    ensures s.shared.life.fault == NoFault
    ensures s.shared.channels.queueClosed ==> s.shared.channels.quitClosed && !s.shared.life.isRunning
    ensures s.shared.channels.quitClosed ==> Reserved(s.calls) == 0
  {
    ReachableInv(c, s);
    if s.shared.channels.quitClosed {
      NothingReserved(c, s);
    }
  }

  lemma NothingReserved(c: Conf, s: State)
    requires c.Valid() && Inv(c, s) && !s.shared.life.isRunning
    ensures Reserved(s.calls) == 0 && Pending(s.calls) == 0
  {
    forall k | 0 <= k < |s.calls|
      ensures ReservedWeight(s.calls[k]) == 0 && PendingWeight(s.calls[k]) == 0
    {
      assert CallFacts(s.shared, s.calls[k]);
    }
    SumZero(s.calls, ReservedWeight);
    SumZero(s.calls, PendingWeight);
  }

  // ----- the floor -----

  /**
   From the end of Start's counting until the job channel is closed and drained, at least the minimum of
   workers is there or being spawned, whatever the tickers, the spawns and the receives do.
   */
  lemma KeepsTheMinimum(c: Conf, s: State)
    requires c.Valid() && Reachable(c, s)
    requires !s.shared.life.run.NotStarted? && forall k :: 0 <= k < |s.calls| ==> !IsStarting(s.calls[k])
    ensures Drained(s.shared.channels) || Registered(s.workers) + Reserved(s.calls) >= c.minWorkers
  {
    ReachableInv(c, s);
  }

  /** So a buffered job always has a worker that will come for it, if the minimum is positive. */
  lemma BufferedJobHasWorker(c: Conf, s: State)
    requires c.Valid() && Reachable(c, s) && c.minWorkers >= 1
    requires s.shared.channels.buffer != []
    requires !s.shared.life.run.NotStarted? && forall k :: 0 <= k < |s.calls| ==> !IsStarting(s.calls[k])
    ensures (exists w :: 0 <= w < |s.workers| && RegisteredWeight(s.workers[w]) == 1)
         || (exists k :: 0 <= k < |s.calls| && ReservedWeight(s.calls[k]) > 0)
  {
    KeepsTheMinimum(c, s);
    if Registered(s.workers) > 0 {
      var w := SumWitness(s.workers, RegisteredWeight);
      assert RegisteredWeight(s.workers[w]) == 1;
    } else {
      var k := SumWitness(s.calls, ReservedWeight);
      assert ReservedWeight(s.calls[k]) > 0;
    }
  }

  // ----- conservation -----

  /** At every moment an accepted job is in the buffer, with a worker, or executed, and each acceptance counts once. */
  lemma AcceptedJobsAreConserved(c: Conf, s: State, j: Job)
    requires c.Valid() && Reachable(c, s)
    ensures AcceptedCount(s.calls, j) == multiset(s.shared.channels.buffer)[j] + HeldCount(s.workers, j) + s.executed[j]
  {
    ReachableInv(c, s);
    assert ConservedFor(s, j);
  }

  // ----- stopping -----

  predicate Stopped(s: State) {
    exists k :: 0 <= k < |s.calls| && HasStopped(s.calls[k])
  }

  predicate AllExited(workers: seq<Worker>) {
    forall w :: 0 <= w < |workers| ==> workers[w].Exited?
  }

  lemma StoppedInv(c: Conf, s: State)
    requires c.Valid() && Inv(c, s) && Stopped(s)
    ensures s.shared.counts == Counts(0, 0, 0) && AllExited(s.workers) && !s.shared.life.isRunning
    ensures c.minWorkers >= 1 || c.queueSize == 0 ==> s.shared.channels.buffer == []
    ensures forall j: Job :: HeldCount(s.workers, j) == 0
  {
    var k :| 0 <= k < |s.calls| && HasStopped(s.calls[k]);
    assert CallFacts(s.shared, s.calls[k]);
    NothingReserved(c, s);
    forall w | 0 <= w < |s.workers|
      ensures s.workers[w].Exited?
    {
      SumAtLeast(s.workers, w, LiveWeight);
    }
    SumZero(s.workers, RegisteredWeight);
    SumZero(s.workers, BusyWeight);
    forall j: Job
      ensures HeldCount(s.workers, j) == 0
    {
      SumZero(s.workers, HeldWeight(j));
    }
    if i :| 0 <= i < |s.calls| && IsStarting(s.calls[i]) {
      assert CallFacts(s.shared, s.calls[i]);
    }
  }

  /** Once a Stop has returned, in that state and for ever after, no worker is left and both counters are 0. */
  lemma StopLeavesNoWorker(c: Conf, s: State)
    requires c.Valid() && Reachable(c, s) && Stopped(s)
    ensures s.shared.counts == Counts(0, 0, 0)
    ensures AllExited(s.workers)
    ensures forall j: Job :: AcceptedCount(s.calls, j) == multiset(s.shared.channels.buffer)[j] + s.executed[j]
  {
    ReachableInv(c, s);
    StoppedInv(c, s);
    forall j: Job
      ensures AcceptedCount(s.calls, j) == multiset(s.shared.channels.buffer)[j] + s.executed[j]
    {
      assert ConservedFor(s, j);
    }
  }

  /** Each Submit that answered true stands for exactly one return of Execute. */
  ghost predicate ExactlyOnce(s: State) {
    forall j: Job :: s.executed[j] == AcceptedCount(s.calls, j)
  }

  ghost predicate AlwaysDrains(c: Conf)
    requires c.Valid()
  {
    forall s :: Reachable(c, s) && Stopped(s) ==> ExactlyOnce(s)
  }

  lemma StopDrains(c: Conf, s: State)
    requires c.Valid() && Reachable(c, s) && Stopped(s)
    requires c.minWorkers >= 1 || c.queueSize == 0
    ensures ExactlyOnce(s)
  {
    ReachableInv(c, s);
    StoppedInv(c, s);
    StopLeavesNoWorker(c, s);
  }

  /** One call of Start by the goroutine that makes call k, run to its end with no other goroutine moving. */
  lemma LoneStart(c: Conf)
    returns (s: State)
    requires c.Valid() && c.minWorkers == 0
    ensures Reachable(c, s)
    ensures s == State(Shared(Counts(0, 0, 0), Channels([], false, false), Life(true, Watching, false, NoFault), FREE),
                       [], [Start(StartReturned(true))], multiset{})
  {
    Initially(c);
    s := Initial;
    s := Take(c, s, Invoke(Start(StartCalled)));
    s := Take(c, s, Advance(0));
    s := Take(c, s, Advance(0));
    s := Take(c, s, Advance(0));
    s := Take(c, s, Advance(0));
    s := Take(c, s, Advance(0));
    s := Take(c, s, Advance(0));
  }

  /** With room in the buffer the lone Submit that follows puts its job there. */
  lemma LoneSubmit(c: Conf, j: Job) returns (s: State)
    requires c.Valid() && c.minWorkers == 0 && c.queueSize > 0
    ensures Reachable(c, s)
    ensures s == State(Shared(Counts(0, 0, 0), Channels([j], false, false), Life(true, Watching, false, NoFault), FREE),
                       [], [Start(StartReturned(true)), Submit(j, SubmitReturned(Accepted))], multiset{})
  {
    s := LoneStart(c);
    s := Take(c, s, Invoke(Submit(j, SubmitCalled)));
    s := Take(c, s, Advance(1));
    s := Take(c, s, Advance(1));
    s := Take(c, s, Advance(1));
    s := Take(c, s, Advance(1));
  }

  /** With no minimum and a buffer, a job can be accepted into the buffer and left there by Stop. */
  lemma BufferedJobIsLost(c: Conf, j: Job) returns (s: State)
    requires c.Valid() && c.minWorkers == 0 && c.queueSize > 0
    ensures Reachable(c, s) && Stopped(s)
    ensures |s.calls| > 1 && s.calls[1] == Submit(j, SubmitReturned(Accepted)) && s.executed[j] == 0
    ensures !ExactlyOnce(s)
  {
    s := LoneSubmit(c, j);
    s := Take(c, s, Invoke(Stop(StopCalled)));
    s := Take(c, s, Advance(2));
    s := Take(c, s, Advance(2));
    s := Take(c, s, Advance(2));
    s := Take(c, s, Advance(2));
    s := Take(c, s, Advance(2));
    assert HasStopped(s.calls[2]);
    SumAtLeast(s.calls, 1, AcceptedWeight(j));
    assert s.executed[j] != AcceptedCount(s.calls, j);
  }

  /** Stop drains every accepted job exactly for the configurations with a minimum or without a buffer. */
  lemma DrainsExactlyWhen(c: Conf)
    requires c.Valid()
    ensures AlwaysDrains(c) <==> c.minWorkers >= 1 || c.queueSize == 0
  {
    if c.minWorkers >= 1 || c.queueSize == 0 {
      forall s | Reachable(c, s) && Stopped(s)
        ensures ExactlyOnce(s)
      {
        StopDrains(c, s);
      }
    } else {
      var s := BufferedJobIsLost(c, 0);
    }
  }
}
