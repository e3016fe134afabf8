/**
 The worker pool as the object the program keeps. Each method is one atomic section of
 worker_pool/worker_pool.go or worker_pool/worker.go: what happens under one hold of a mutex, or one
 channel or wait group operation. Its contract says that it takes exactly one step of the protocol; the
 bodies show that the integer arithmetic stays in range and that no close or send can panic.
 */
module WorkerPool {
  import opened Options
  import opened Counting
  import opened ReadWriteLock
  import opened Pool
  import opened PoolInvariant

  type int32 = n: int | -MAX_INT32 - 1 <= n <= MAX_INT32

  // ----- steps as values -----

  /** A call's action that starts no goroutine. */
  lemma CallTakes(c: Conf, s: State, k: nat, call: Call, g: Shared)
    requires c.Valid() && k < |s.calls| && s.shared.life.fault == NoFault
    requires CallNext(c, s.shared, s.calls[k], k) == Some(CallEffect(call, g, []))
    ensures Next(c, s, Advance(k)) == Some(Pool.State(g, s.workers, s.calls[k := call], s.executed))
  {
    assert s.workers + [] == s.workers;
  }

  /** A worker's action other than the end of a job. */
  lemma WorkerTakes(c: Conf, s: State, w: nat, worker: Worker, g: Shared)
    requires c.Valid() && w < |s.workers| && s.shared.life.fault == NoFault
    requires WorkerNext(c, s.shared, s.workers[w]) == Some(WorkerEffect(worker, g, multiset{}))
    ensures Next(c, s, Work(w)) == Some(Pool.State(g, s.workers[w := worker], s.calls, s.executed))
  {
    assert s.executed + multiset{} == s.executed;
  }

  class WorkerPool {
    const conf: Conf

    var numberOfCurrentWorker: int32
    var numberOfIdleWorker: int32

    var jobQueue: seq<Job>
    var jobQueueClosed: bool
    var quitClosed: bool
    var isRunning: bool
    var workersWg: int

    // where every goroutine is
    ghost var run: RunLoop
    ghost var waitBegun: bool
    ghost var startStopMu: RWLock
    ghost var workers: seq<Worker>
    ghost var calls: seq<Call>
    ghost var executed: multiset<Job>

    ghost function State(): State
      reads this
    {
      Pool.State(Shared(Counts(numberOfCurrentWorker, numberOfIdleWorker, workersWg),
                        Channels(jobQueue, jobQueueClosed, quitClosed),
                        Life(isRunning, run, waitBegun, NoFault),
                        startStopMu),
                 workers, calls, executed)
    }

    ghost predicate Valid()
      reads this
    {
      conf.Valid() && Inv(conf, State())
    }

    ghost predicate CanTake(step: Step)
      reads this
    {
      Valid() && Next(conf, State(), step).Some?
    }

    constructor (raw: Conf)
      requires raw.IsInt32()
      ensures Valid() && State() == Initial && conf == Normalise(raw)
    {
      conf := Normalise(raw);
      numberOfCurrentWorker, numberOfIdleWorker := 0, 0;
      jobQueue, jobQueueClosed, quitClosed := [], false, false;
      isRunning, workersWg := false, 0;
      run, waitBegun, startStopMu := NotStarted, false, FREE;
      workers, calls, executed := [], [], multiset{};
      new;
      InvHoldsInitially(conf);
    }

    // ----- the counter sections, each under numberOfWorkerMu -----

    method NumberOfAvailableWorker() returns (n: int32)
      requires Valid()
      ensures n == conf.maxWorkers - Busy(workers) && 0 <= n <= conf.maxWorkers
    {
      SumMonotone(workers, BusyWeight, RegisteredWeight);
      var unused: int32 := conf.maxWorkers - numberOfCurrentWorker;
      n := unused + numberOfIdleWorker;
    }

    method AddNumberOfCurrentAndIdleWorker(num: int32)
      requires -MAX_INT32 <= numberOfCurrentWorker + num <= MAX_INT32
      requires -MAX_INT32 <= numberOfIdleWorker + num <= MAX_INT32
      modifies this`numberOfCurrentWorker, this`numberOfIdleWorker
      ensures numberOfCurrentWorker == old(numberOfCurrentWorker) + num
      ensures numberOfIdleWorker == old(numberOfIdleWorker) + num
    {
      numberOfCurrentWorker := numberOfCurrentWorker + num;
      numberOfIdleWorker := numberOfIdleWorker + num;
    }

    method AddNumberOfIdleWorker(num: int32)
      requires -MAX_INT32 <= numberOfIdleWorker + num <= MAX_INT32
      modifies this`numberOfIdleWorker
      ensures numberOfIdleWorker == old(numberOfIdleWorker) + num
    {
      numberOfIdleWorker := numberOfIdleWorker + num;
    }

    method CompareAndIncrementCurrentWorker() returns (incremented: bool)
      requires conf.Valid() && numberOfIdleWorker <= numberOfCurrentWorker
      modifies this`numberOfCurrentWorker, this`numberOfIdleWorker
      ensures incremented <==> old(numberOfCurrentWorker) < conf.maxWorkers
      ensures numberOfCurrentWorker == old(numberOfCurrentWorker) + (if incremented then 1 else 0)
      ensures numberOfIdleWorker == old(numberOfIdleWorker) + (if incremented then 1 else 0)
    {
      if numberOfCurrentWorker < conf.maxWorkers {
        numberOfCurrentWorker := numberOfCurrentWorker + 1;
        numberOfIdleWorker := numberOfIdleWorker + 1;
        return true;
      }
      return false;
    }

    method CompareAndDecrementCurrentWorker() returns (decremented: bool)
      requires conf.Valid() && numberOfIdleWorker >= 0
      modifies this`numberOfCurrentWorker, this`numberOfIdleWorker
      ensures decremented <==> old(numberOfCurrentWorker) > conf.minWorkers
      ensures numberOfCurrentWorker == old(numberOfCurrentWorker) - (if decremented then 1 else 0)
      ensures numberOfIdleWorker == old(numberOfIdleWorker) - (if decremented then 1 else 0)
    {
      if numberOfCurrentWorker > conf.minWorkers {
        numberOfCurrentWorker := numberOfCurrentWorker - 1;
        numberOfIdleWorker := numberOfIdleWorker - 1;
        return true;
      }
      return false;
    }

    lemma CountersInRange()
      requires Valid()
      ensures 0 <= numberOfIdleWorker <= numberOfCurrentWorker <= conf.maxWorkers
    {
      SumMonotone(workers, BusyWeight, RegisteredWeight);
    }

    lemma Moved(before: State, step: Step)
      requires conf.Valid() && Inv(conf, before) && Next(conf, before, step) == Some(State())
      ensures Valid()
    {
      StepKeepsInv(conf, before, step, State());
    }

    // ----- the sections of Start -----

    method CheckAndLaunch(ghost k: nat) returns (launched: bool)
      requires CanTake(Advance(k)) && calls[k] == Start(StartLocked)
      modifies this
      ensures Valid() && Next(conf, old(State()), Advance(k)) == Some(State())
      ensures launched <==> !old(isRunning)
    {
      ghost var before := State();
      launched := !isRunning;
      if launched {
        run, isRunning := Watching, true;
        calls := calls[k := Start(StartAccepted)];
      } else {
        calls := calls[k := Start(StartReturning(false))];
      }
      CallTakes(conf, before, k, calls[k], State().shared);
      Moved(before, Advance(k));
    }

    method CountInitialWorkers(ghost k: nat)
      requires CanTake(Advance(k)) && calls[k] == Start(StartAccepted)
      modifies this
      ensures Valid() && Next(conf, old(State()), Advance(k)) == Some(State())
    {
      ghost var before := State();
      assert CallFacts(before.shared, calls[k]);
      CountersInRange();
      AddNumberOfCurrentAndIdleWorker(conf.minWorkers);
      calls := calls[k := Start(StartCounted(conf.minWorkers))];
      CallTakes(conf, before, k, calls[k], State().shared);
      Moved(before, Advance(k));
    }

    /** One turn of the loop that starts the initial workers. */
    method SpawnInitialWorker(ghost left: nat, ghost k: nat)
      requires CanTake(Advance(k)) && calls[k] == Start(StartSpawning(left)) && left > 0
      modifies this
      ensures Valid() && Next(conf, old(State()), Advance(k)) == Some(State())
      ensures workers == old(workers) + [Spawned(None)] && calls == old(calls)[k := Start(StartSpawning(left - 1))]
    {
      ghost var before := State();
      workers := workers + [Spawned(None)];
      calls := calls[k := Start(StartSpawning(left - 1))];
      Moved(before, Advance(k));
    }

    // ----- the sections of Submit -----

    /**
     The select. The job goes to a worker at its receive, if the runtime pairs the send with one (receiver),
     or into the channel if that has room; otherwise the default branch is taken.
     */
    method SendOrDefault(job: Job, receiver: Option<nat>, ghost k: nat) returns (sent: bool)
      requires Valid() && AtSelect(State(), k) && calls[k].job == job
      requires receiver.Some? ==> IsWaiting(State(), receiver.value) && jobQueue == []
      modifies this
      ensures Valid()
      ensures sent <==> receiver.Some? || |old(jobQueue)| < conf.queueSize
      ensures jobQueue == if sent && receiver.None? then old(jobQueue) + [job] else old(jobQueue)
      ensures receiver.Some? ==> workers == old(workers)[receiver.value := Holding(job)]
      ensures calls == old(calls)[k := Submit(job, if sent then SubmitReturning(Accepted)
                                                   else if conf.maxWorkers == conf.minWorkers then SubmitReturning(Refused)
                                                   else SubmitFull)]
      ensures Next(conf, old(State()), if receiver.Some? then HandOff(k, receiver.value) else if sent then Advance(k) else TakeDefault(k))
           == Some(State())
    {
      ghost var before := State();
      if receiver.Some? {
        workers := workers[receiver.value := Holding(job)];
        calls := calls[k := Submit(job, SubmitReturning(Accepted))];
        Moved(before, HandOff(k, receiver.value));
        return true;
      }
      sent := |jobQueue| < conf.queueSize;
      if sent {
        jobQueue := jobQueue + [job];
        calls := calls[k := Submit(job, SubmitReturning(Accepted))];
        CallTakes(conf, before, k, calls[k], State().shared);
        Moved(before, Advance(k));
      } else {
        calls := calls[k := DefaultNext(conf, job)];
        Moved(before, TakeDefault(k));
      }
    }

    method ReserveWorker(job: Job, ghost k: nat) returns (reserved: bool)
      requires CanTake(Advance(k)) && calls[k] == Submit(job, SubmitFull)
      modifies this
      ensures Valid() && Next(conf, old(State()), Advance(k)) == Some(State())
      ensures reserved <==> old(numberOfCurrentWorker) < conf.maxWorkers
      ensures calls == old(calls)[k := Submit(job, if reserved then SubmitReserved else SubmitReturning(Refused))]
    {
      ghost var before := State();
      CountersInRange();
      reserved := CompareAndIncrementCurrentWorker();
      calls := calls[k := Submit(job, if reserved then SubmitReserved else SubmitReturning(Refused))];
      CallTakes(conf, before, k, calls[k], State().shared);
      Moved(before, Advance(k));
    }

    /** workersWg.Add(1); the counter cannot be waited on, so this is never misuse. */
    method CountWorker(job: Job, ghost k: nat)
      requires CanTake(Advance(k)) && calls[k] == Submit(job, SubmitReserved)
      modifies this
      ensures Valid() && Next(conf, old(State()), Advance(k)) == Some(State())
    {
      ghost var before := State();
      assert CallFacts(before.shared, calls[k]);
      assert !waitBegun;
      workersWg := workersWg + 1;
      calls := calls[k := Submit(job, SubmitCounted)];
      CallTakes(conf, before, k, calls[k], State().shared);
      Moved(before, Advance(k));
    }

    /** The go statement: the new worker begins with the job. */
    method SpawnWorker(job: Job, ghost k: nat)
      requires CanTake(Advance(k)) && calls[k] == Submit(job, SubmitCounted)
      modifies this
      ensures Valid() && Next(conf, old(State()), Advance(k)) == Some(State())
      ensures workers == old(workers) + [Spawned(Some(job))] && calls == old(calls)[k := Submit(job, SubmitReturning(Accepted))]
    {
      ghost var before := State();
      workers := workers + [Spawned(Some(job))];
      calls := calls[k := Submit(job, SubmitReturning(Accepted))];
      Moved(before, Advance(k));
    }

    // ----- the sections of Stop and of the run goroutine -----

    method CheckAndClear(ghost k: nat) returns (stopping: bool)
      requires CanTake(Advance(k)) && calls[k] == Stop(StopLocked)
      modifies this
      ensures Valid() && Next(conf, old(State()), Advance(k)) == Some(State())
      ensures stopping == old(isRunning) && !isRunning
    {
      ghost var before := State();
      stopping := isRunning;
      isRunning := false;
      calls := calls[k := Stop(if stopping then StopAccepted else StopReturning(false))];
      CallTakes(conf, before, k, calls[k], State().shared);
      Moved(before, Advance(k));
    }

    /** close(quit); the assertion is that the channel is still open. */
    method CloseQuitChannel(ghost k: nat)
      requires CanTake(Advance(k)) && calls[k] == Stop(StopAccepted)
      modifies this
      ensures Valid() && Next(conf, old(State()), Advance(k)) == Some(State()) && quitClosed
    {
      ghost var before := State();
      assert CallFacts(before.shared, calls[k]);
      assert !quitClosed;
      quitClosed := true;
      calls := calls[k := Stop(StopClosed)];
      CallTakes(conf, before, k, calls[k], State().shared);
      Moved(before, Advance(k));
    }

    /** close(jobQueue), by the run goroutine once it has seen quit. */
    method CloseJobQueue()
      requires CanTake(RunStep) && run.SawQuit?
      modifies this
      ensures Valid() && Next(conf, old(State()), RunStep) == Some(State()) && jobQueueClosed
    {
      ghost var before := State();
      assert !jobQueueClosed;
      jobQueueClosed := true;
      run := QueueClosed;
      Moved(before, RunStep);
    }

    // ----- the sections of a worker -----

    /** The receive of the run loop: the oldest job, or the news that the channel is closed. */
    method Receive(ghost w: nat) returns (job: Job, isOpen: bool)
      requires CanTake(Work(w)) && IsWaiting(State(), w)
      modifies this
      ensures Valid() && Next(conf, old(State()), Work(w)) == Some(State())
      ensures isOpen <==> old(jobQueue) != []
      ensures isOpen ==> old(jobQueue) == [job] + jobQueue && workers[w] == Holding(job)
      ensures !isOpen ==> jobQueueClosed && jobQueue == [] && workers[w] == SawClosed
    {
      ghost var before := State();
      job, isOpen := 0, jobQueue != [];
      if isOpen {
        job := jobQueue[0];
        jobQueue := jobQueue[1..];
        workers := workers[w := Holding(job)];
      } else {
        workers := workers[w := SawClosed];
      }
      WorkerTakes(conf, before, w, workers[w], State().shared);
      Moved(before, Work(w));
    }

    /** doJob's decrement. */
    method BeginJob(job: Job, ghost w: nat)
      requires CanTake(Work(w)) && w < |workers| && workers[w] == Holding(job)
      modifies this
      ensures Valid() && Next(conf, old(State()), Work(w)) == Some(State())
    {
      ghost var before := State();
      CountersInRange();
      AddNumberOfIdleWorker(-1);
      workers := workers[w := Executing(job)];
      WorkerTakes(conf, before, w, workers[w], State().shared);
      Moved(before, Work(w));
    }

    /** doJob's deferred increment. */
    method EndJob(ghost w: nat)
      requires CanTake(Work(w)) && w < |workers| && workers[w] == Finished
      modifies this
      ensures Valid() && Next(conf, old(State()), Work(w)) == Some(State())
    {
      ghost var before := State();
      CountersInRange();
      SumAtLeast(workers, w, BusyWeight);
      AddNumberOfIdleWorker(1);
      workers := workers[w := Waiting];
      WorkerTakes(conf, before, w, workers[w], State().shared);
      Moved(before, Work(w));
    }

    /** The keep-alive ticker has fired: the worker leaves if that keeps the minimum. */
    method LeaveIfSurplus(ghost w: nat) returns (leaves: bool)
      requires CanTake(Work(w)) && w < |workers| && workers[w] == TimedOut
      modifies this
      ensures Valid() && Next(conf, old(State()), Work(w)) == Some(State())
      ensures leaves <==> old(numberOfCurrentWorker) > conf.minWorkers
      ensures numberOfCurrentWorker == old(numberOfCurrentWorker) - (if leaves then 1 else 0) && numberOfCurrentWorker >= 0
      ensures workers == old(workers)[w := if leaves then Leaving else Waiting]
    {
      ghost var before := State();
      CountersInRange();
      leaves := CompareAndDecrementCurrentWorker();
      workers := workers[w := if leaves then Leaving else Waiting];
      WorkerTakes(conf, before, w, workers[w], State().shared);
      Moved(before, Work(w));
    }

    /** The job channel is closed and drained: the worker gives its place back. */
    method Deregister(ghost w: nat)
      requires CanTake(Work(w)) && w < |workers| && workers[w] == SawClosed
      modifies this
      ensures Valid() && Next(conf, old(State()), Work(w)) == Some(State())
    {
      ghost var before := State();
      CountersInRange();
      AddNumberOfCurrentAndIdleWorker(-1);
      workers := workers[w := Leaving];
      WorkerTakes(conf, before, w, workers[w], State().shared);
      Moved(before, Work(w));
    }

    /** workersWg.Done, deferred by work; the assertion is that the count does not go negative. */
    method Done(ghost w: nat)
      requires CanTake(Work(w)) && w < |workers| && workers[w] == Leaving
      modifies this
      ensures Valid() && Next(conf, old(State()), Work(w)) == Some(State())
    {
      ghost var before := State();
      SumAtLeast(workers, w, LiveWeight);
      assert workersWg > 0;
      workersWg := workersWg - 1;
      workers := workers[w := Exited];
      WorkerTakes(conf, before, w, workers[w], State().shared);
      Moved(before, Work(w));
    }
  }
}
