/**
 The inductive invariant of the worker pool protocol and the proof that every step keeps it.
 */
module PoolInvariant {
  import opened Options
  import opened Counting
  import opened ReadWriteLock
  import Runs
  import opened Pool

  // ----- what one worker and one call contribute to the shared counters -----

  /** Counted in numberOfCurrentWorker. */
  function RegisteredWeight(w: Worker): nat { if w.Leaving? || w.Exited? then 0 else 1 }

  /** Between doJob's decrement and its deferred increment. */
  function BusyWeight(w: Worker): nat { if w.Executing? || w.Finished? then 1 else 0 }

  /** Has yet to call workersWg.Done. */
  function LiveWeight(w: Worker): nat { if w.Exited? then 0 else 1 }

  /** The job a worker has and has not finished. */
  function JobOf(w: Worker): Option<Job> {
    match w
    case Spawned(initial) => initial
    case Holding(j) => Some(j)
    case Executing(j) => Some(j)
    case _ => None
  }

  function HeldWeight(j: Job): Worker -> nat {
    (w: Worker) => if JobOf(w) == Some(j) then 1 else 0
  }

  /** Workers a call has counted whose goroutines do not exist yet. */
  function ReservedWeight(call: Call): nat {
    match call
    case Start(StartCounted(n)) => n
    case Start(StartSpawning(left)) => left
    case Submit(_, SubmitReserved) => 1
    case Submit(_, SubmitCounted) => 1
    case _ => 0
  }

  /** The same for the wait group. */
  function PendingWeight(call: Call): nat {
    match call
    case Start(StartSpawning(left)) => left
    case Submit(_, SubmitCounted) => 1
    case _ => 0
  }

  /** The answer of a Submit that has one. */
  function OutcomeOf(at: SubmitAt): Option<Outcome> {
    match at
    case SubmitReturning(o) => Some(o)
    case SubmitReturned(o) => Some(o)
    case _ => None
  }

  function AcceptedWeight(j: Job): Call -> nat {
    (call: Call) => if call.Submit? && call.job == j && OutcomeOf(call.submit) == Some(Accepted) then 1 else 0
  }

  function Registered(workers: seq<Worker>): nat { Sum(workers, RegisteredWeight) }
  function Busy(workers: seq<Worker>): nat { Sum(workers, BusyWeight) }
  function Live(workers: seq<Worker>): nat { Sum(workers, LiveWeight) }
  function Reserved(calls: seq<Call>): nat { Sum(calls, ReservedWeight) }
  function Pending(calls: seq<Call>): nat { Sum(calls, PendingWeight) }

  /** How many Submits of j have answered true, or are about to. */
  function AcceptedCount(calls: seq<Call>, j: Job): nat { Sum(calls, AcceptedWeight(j)) }

  /** How many workers have j and have not finished it. */
  function HeldCount(workers: seq<Worker>, j: Job): nat { Sum(workers, HeldWeight(j)) }

  predicate HoldsWrite(call: Call) {
    match call
    case Start(at) => !at.StartCalled? && !at.StartReturned?
    case Stop(at) => !at.StopCalled? && !at.StopReturned?
    case Submit(_, _) => false
  }

  predicate HoldsRead(call: Call) {
    call.Submit? && !call.submit.SubmitCalled? && !call.submit.SubmitReturned?
  }

  /** Calls that have seen isRunning true and rely on it staying so. */
  predicate ReliesOnRunning(call: Call) {
    match call
    case Start(at) => at.StartAccepted? || at.StartCounted? || at.StartSpawning?
    case Stop(_) => false
    case Submit(_, at) => at.SubmitRunning? || at.SubmitFull? || at.SubmitReserved? || at.SubmitCounted?
  }

  /** A Start that has set isRunning and not yet counted its workers. */
  predicate IsStarting(call: Call) {
    call.Start? && call.start.StartAccepted?
  }

  /** A Stop that has closed quit. */
  predicate HasClosed(call: Call) {
    call.Stop? && (call.stop.StopClosed? || call.stop.StopWaiting? || HasStopped(call))
  }

  /** A Stop that has found the pool running and has seen the wait group reach zero. */
  predicate HasStopped(call: Call) {
    call.Stop? && (call.stop.StopReturning? || call.stop.StopReturned?) && call.stop.ok
  }

  // ----- the invariant -----

  predicate Counters(c: Conf, s: State) {
    var n := s.shared.counts;
    && n.current == Registered(s.workers) + Reserved(s.calls)
    && n.idle == n.current - Busy(s.workers)
    && n.waitGroup == Live(s.workers) + Pending(s.calls)
    && n.current <= c.maxWorkers
  }

  predicate ConservedFor(s: State, j: Job) {
    AcceptedCount(s.calls, j) == multiset(s.shared.channels.buffer)[j] + HeldCount(s.workers, j) + s.executed[j]
  }

  /** Every accepted job is buffered, or some worker has it, or it has been executed, and never two of these. */
  ghost predicate Conserved(s: State) {
    forall j: Job :: ConservedFor(s, j)
  }

  predicate Locks(lock: RWLock, calls: seq<Call>) {
    && Exclusive(lock, |calls|)
    && (forall k :: 0 <= k < |calls| ==> Knows(lock, k, HoldsRead(calls[k]), HoldsWrite(calls[k])))
  }

  predicate Lifecycle(g: Shared) {
    var l, ch := g.life, g.channels;
    && l.fault == NoFault
    && (l.isRunning ==> l.run.Watching? && !ch.quitClosed)
    && (l.run.NotStarted? || l.run.Watching? || ch.quitClosed)
    && (l.run.NotStarted? ==> !ch.quitClosed && g.counts.current == 0)
    && (ch.queueClosed <==> l.run.QueueClosed? || l.run.WaitingWorkers? || l.run.RunEnded?)
    && (l.waitBegun ==> ch.quitClosed)
  }

  predicate CallFacts(g: Shared, call: Call) {
    && (ReliesOnRunning(call) ==> g.life.isRunning)
    && (IsStarting(call) ==> g.counts.current == 0)
    && (call == Stop(StopAccepted) ==> !g.life.isRunning && !g.channels.quitClosed && g.life.run.Watching?)
    && (HasClosed(call) ==> g.channels.quitClosed)
    && (HasStopped(call) ==> g.counts.waitGroup == 0)
  }

  predicate AllCallFacts(g: Shared, calls: seq<Call>) {
    forall k :: 0 <= k < |calls| ==> CallFacts(g, calls[k])
  }

  predicate QueueFacts(c: Conf, ch: Channels, workers: seq<Worker>) {
    && |ch.buffer| <= c.queueSize
    && (forall w :: 0 <= w < |workers| && workers[w].SawClosed? ==> ch.queueClosed && ch.buffer == [])
  }

  predicate Drained(ch: Channels) { ch.queueClosed && ch.buffer == [] }

  /** Once Start has counted its workers the pool keeps the minimum until the job channel is closed and drained. */
  predicate Floor(c: Conf, g: Shared, calls: seq<Call>) {
    g.life.run.NotStarted? || Drained(g.channels) || g.counts.current >= c.minWorkers || exists k :: 0 <= k < |calls| && IsStarting(calls[k])
  }

  ghost predicate Inv(c: Conf, s: State) {
    && Counters(c, s)
    && Conserved(s)
    && Locks(s.shared.lock, s.calls)
    && Lifecycle(s.shared)
    && AllCallFacts(s.shared, s.calls)
    && QueueFacts(c, s.shared.channels, s.workers)
    && Floor(c, s.shared, s.calls)
  }

  // ----- how the sums move -----

  lemma CallChanged(calls: seq<Call>, k: nat, call: Call)
    requires k < |calls|
    ensures Reserved(calls[k := call]) + ReservedWeight(calls[k]) == Reserved(calls) + ReservedWeight(call)
    ensures Pending(calls[k := call]) + PendingWeight(calls[k]) == Pending(calls) + PendingWeight(call)
  {
    SumUpdate(calls, k, call, ReservedWeight);
    SumUpdate(calls, k, call, PendingWeight);
  }

  lemma WorkerChanged(workers: seq<Worker>, w: nat, worker: Worker)
    requires w < |workers|
    ensures Registered(workers[w := worker]) + RegisteredWeight(workers[w]) == Registered(workers) + RegisteredWeight(worker)
    ensures Busy(workers[w := worker]) + BusyWeight(workers[w]) == Busy(workers) + BusyWeight(worker)
    ensures Live(workers[w := worker]) + LiveWeight(workers[w]) == Live(workers) + LiveWeight(worker)
    ensures Registered(workers) >= RegisteredWeight(workers[w]) && Live(workers) >= LiveWeight(workers[w])
  {
    SumUpdate(workers, w, worker, RegisteredWeight);
    SumUpdate(workers, w, worker, BusyWeight);
    SumUpdate(workers, w, worker, LiveWeight);
    SumAtLeast(workers, w, RegisteredWeight);
    SumAtLeast(workers, w, LiveWeight);
  }

  lemma WorkerSpawned(workers: seq<Worker>, initial: Option<Job>)
    ensures Registered(workers + [Spawned(initial)]) == Registered(workers) + 1
    ensures Busy(workers + [Spawned(initial)]) == Busy(workers)
    ensures Live(workers + [Spawned(initial)]) == Live(workers) + 1
  {
    SumAppend(workers, Spawned(initial), RegisteredWeight);
    SumAppend(workers, Spawned(initial), BusyWeight);
    SumAppend(workers, Spawned(initial), LiveWeight);
  }

  lemma CallInvoked(calls: seq<Call>, call: Call)
    requires IsFresh(call)
    ensures Reserved(calls + [call]) == Reserved(calls)
    ensures Pending(calls + [call]) == Pending(calls)
  {
    SumAppend(calls, call, ReservedWeight);
    SumAppend(calls, call, PendingWeight);
  }

  // ----- what a move of one call means for the others -----

  /** A call moved from one phase to the next, and the start/stop lock moved with it. */
  predicate LockMove(lock: RWLock, k: nat, before: Call, after: Call, lock': RWLock) {
    Moves(lock, k, HoldsRead(before), HoldsWrite(before), HoldsRead(after), HoldsWrite(after), lock')
  }

  lemma LockMoveKeepsLocks(lock: RWLock, calls: seq<Call>, k: nat, call: Call, lock': RWLock)
    requires k < |calls| && Locks(lock, calls) && LockMove(lock, k, calls[k], call, lock')
    ensures Locks(lock', calls[k := call])
  {
    MoveKeeps(lock, |calls|, k, HoldsRead(calls[k]), HoldsWrite(calls[k]), HoldsRead(call), HoldsWrite(call), lock');
  }

  /** The shared state changed only under the lock that protects what changed. */
  predicate Guarded(g: Shared, before: Call, g': Shared) {
    && (HoldsWrite(before) || (g'.life.isRunning == g.life.isRunning && g'.life.run == g.life.run && g'.channels.quitClosed == g.channels.quitClosed))
    && (HoldsWrite(before) || HoldsRead(before) || g'.counts.current == g.counts.current)
    && (g.channels.quitClosed ==> g'.channels.quitClosed && g'.counts.waitGroup == g.counts.waitGroup)
  }

  lemma GuardedKeepsCallFacts(g: Shared, calls: seq<Call>, k: nat, call: Call, g': Shared)
    requires k < |calls| && Locks(g.lock, calls) && AllCallFacts(g, calls)
    requires Guarded(g, calls[k], g') && CallFacts(g', call)
    ensures AllCallFacts(g', calls[k := call])
  {
    assert HoldsWrite(calls[k]) <==> g.lock.writer == Some(k);
    assert HoldsRead(calls[k]) <==> k in g.lock.readers;
    forall i | 0 <= i < |calls| && i != k
      ensures CallFacts(g', calls[i])
    {
      assert CallFacts(g, calls[i]);
      assert HoldsWrite(calls[i]) <==> g.lock.writer == Some(i);
      assert HoldsRead(calls[i]) <==> i in g.lock.readers;
    }
  }

  /** What the next action of a call may assume of the shared state. */
  predicate CallReady(g: Shared, call: Call, k: nat) {
    && Lifecycle(g) && CallFacts(g, call)
    && (HoldsWrite(call) <==> g.lock.writer == Some(k))
    && (HoldsRead(call) <==> k in g.lock.readers)
    && (g.lock.writer.Some? ==> g.lock.readers == {})
  }

  /** What the next action of a call achieves: the lock discipline and the phase facts. */
  predicate CallKept(g: Shared, call: Call, k: nat, e: CallEffect) {
    && LockMove(g.lock, k, call, e.call, e.shared.lock)
    && Guarded(g, call, e.shared)
    && Lifecycle(e.shared) && CallFacts(e.shared, e.call)
    && e.shared.channels.queueClosed == g.channels.queueClosed
  }

  predicate IsOneSpawned(spawned: seq<Worker>) {
    |spawned| == 1 && spawned[0].Spawned?
  }

  /** What the next action of a call achieves: every counter is accounted for. */
  predicate CallBalanced(c: Conf, g: Shared, call: Call, e: CallEffect) {
    var n, n' := g.counts, e.shared.counts;
    && (e.spawned == [] || IsOneSpawned(e.spawned))
    && n'.current - n.current == |e.spawned| + ReservedWeight(e.call) - ReservedWeight(call)
    && n'.idle - n.idle == n'.current - n.current
    && n'.waitGroup - n.waitGroup == |e.spawned| + PendingWeight(e.call) - PendingWeight(call)
    && n'.current <= c.maxWorkers
    && |e.shared.channels.buffer| <= c.queueSize
    && (e.shared.channels.buffer != g.channels.buffer ==> !g.channels.queueClosed)
  }

  function SpawnedWeight(spawned: seq<Worker>, j: Job): nat {
    if spawned == [] then 0 else HeldWeight(j)(spawned[0])
  }

  /** What the next action of a call achieves: job j, once accepted, is in the buffer or with a new worker. */
  predicate CallConserves(g: Shared, call: Call, e: CallEffect, j: Job) {
    multiset(e.shared.channels.buffer)[j] + SpawnedWeight(e.spawned, j) + AcceptedWeight(j)(call)
    == multiset(g.channels.buffer)[j] + AcceptedWeight(j)(e.call)
  }

  /** The minimum survives the action, unless the call is the Start that has yet to count its workers. */
  predicate CallKeepsFloor(c: Conf, g: Shared, call: Call, e: CallEffect) {
    && (e.shared.counts.current >= g.counts.current)
    && (IsStarting(call) ==> e.shared.counts.current >= c.minWorkers)
    && (g.life.run.NotStarted? ==> e.shared.life.run.NotStarted? || IsStarting(e.call))
  }

  lemma StartKeeps(c: Conf, g: Shared, at: StartAt, k: nat)
    requires c.Valid() && StartNext(c, g, at, k).Some? && CallReady(g, Start(at), k)
    requires g.counts.current <= c.maxWorkers && |g.channels.buffer| <= c.queueSize
    ensures var e := StartNext(c, g, at, k).value;
            CallKept(g, Start(at), k, e) && CallBalanced(c, g, Start(at), e) && CallKeepsFloor(c, g, Start(at), e)
  {
    if at.StartSpawning? && at.left > 0 {
      assert StartNext(c, g, at, k).value.spawned == [Spawned(None)];
    }
  }

  lemma StopKeeps(c: Conf, g: Shared, at: StopAt, k: nat)
    requires c.Valid() && StopNext(g, at, k).Some? && CallReady(g, Stop(at), k)
    requires g.counts.current <= c.maxWorkers && |g.channels.buffer| <= c.queueSize
    ensures var e := StopNext(g, at, k).value;
            CallKept(g, Stop(at), k, e) && CallBalanced(c, g, Stop(at), e) && CallKeepsFloor(c, g, Stop(at), e)
  {
  }

  lemma SubmitKeeps(c: Conf, g: Shared, j: Job, at: SubmitAt, k: nat)
    requires c.Valid() && SubmitNext(c, g, j, at, k).Some? && CallReady(g, Submit(j, at), k)
    requires g.counts.current <= c.maxWorkers && |g.channels.buffer| <= c.queueSize
    ensures var e := SubmitNext(c, g, j, at, k).value;
            CallKept(g, Submit(j, at), k, e) && CallBalanced(c, g, Submit(j, at), e) && CallKeepsFloor(c, g, Submit(j, at), e)
  {
    if at.SubmitCounted? {
      assert SubmitNext(c, g, j, at, k).value.spawned == [Spawned(Some(j))];
    }
  }

  lemma CallKeeps(c: Conf, g: Shared, call: Call, k: nat)
    requires c.Valid() && CallNext(c, g, call, k).Some? && CallReady(g, call, k)
    requires g.counts.current <= c.maxWorkers && |g.channels.buffer| <= c.queueSize
    ensures var e := CallNext(c, g, call, k).value;
            CallKept(g, call, k, e) && CallBalanced(c, g, call, e) && CallKeepsFloor(c, g, call, e)
  {
    match call
    case Start(at) => StartKeeps(c, g, at, k);
    case Stop(at) => StopKeeps(c, g, at, k);
    case Submit(j, at) => SubmitKeeps(c, g, j, at, k);
  }

  lemma CallKeepsJobs(c: Conf, g: Shared, call: Call, k: nat, j: Job)
    requires c.Valid() && CallNext(c, g, call, k).Some?
    ensures CallConserves(g, call, CallNext(c, g, call, k).value, j)
  {
    match call
    case Start(at) =>
    case Stop(at) =>
    case Submit(job, at) => SubmitKeepsJobs(c, g, job, at, k, j);
  }

  lemma SubmitKeepsJobs(c: Conf, g: Shared, job: Job, at: SubmitAt, k: nat, j: Job)
    requires c.Valid() && SubmitNext(c, g, job, at, k).Some?
    ensures CallConserves(g, Submit(job, at), SubmitNext(c, g, job, at, k).value, j)
  {
    assert multiset(g.channels.buffer + [job])[j] == multiset(g.channels.buffer)[j] + (if job == j then 1 else 0);
    assert SpawnedWeight([], j) == 0;
    if at.SubmitCounted? {
      assert SpawnedWeight([Spawned(Some(job))], j) == (if job == j then 1 else 0);
    }
  }

  lemma WorkersSpawned(workers: seq<Worker>, spawned: seq<Worker>)
    requires spawned == [] || IsOneSpawned(spawned)
    ensures Registered(workers + spawned) == Registered(workers) + |spawned|
    ensures Busy(workers + spawned) == Busy(workers)
    ensures Live(workers + spawned) == Live(workers) + |spawned|
  {
    if spawned == [] {
      assert workers + spawned == workers;
    } else {
      assert spawned == [Spawned(spawned[0].initial)];
      WorkerSpawned(workers, spawned[0].initial);
    }
  }

  /** The counting half: the sums over the tables follow the shared counters. */
  lemma BalancedCallCounts(c: Conf, s: State, k: nat, e: CallEffect)
    requires k < |s.calls| && Counters(c, s) && CallBalanced(c, s.shared, s.calls[k], e)
    ensures Counters(c, ApplyCall(s, k, e))
  {
    CallChanged(s.calls, k, e.call);
    WorkersSpawned(s.workers, e.spawned);
  }

  lemma BalancedCallConserves(s: State, k: nat, e: CallEffect, j: Job)
    requires k < |s.calls| && ConservedFor(s, j) && CallConserves(s.shared, s.calls[k], e, j)
    requires |e.spawned| <= 1
    ensures ConservedFor(ApplyCall(s, k, e), j)
  {
    SumUpdate(s.calls, k, e.call, AcceptedWeight(j));
    if e.spawned == [] {
      assert s.workers + e.spawned == s.workers;
    } else {
      assert e.spawned == [e.spawned[0]];
      SumAppend(s.workers, e.spawned[0], HeldWeight(j));
    }
  }

  lemma FloorAfterCall(c: Conf, g: Shared, calls: seq<Call>, k: nat, e: CallEffect)
    requires k < |calls| && Floor(c, g, calls) && CallKeepsFloor(c, g, calls[k], e)
    requires e.shared.channels.queueClosed == g.channels.queueClosed
    requires e.shared.channels.buffer != g.channels.buffer ==> !g.channels.queueClosed
    ensures Floor(c, e.shared, calls[k := e.call])
  {
    var calls' := calls[k := e.call];
    if IsStarting(e.call) {
      assert IsStarting(calls'[k]);
    } else if i :| 0 <= i < |calls| && IsStarting(calls[i]) && !IsStarting(calls[k]) {
      assert IsStarting(calls'[i]);
    }
  }

  lemma AdvanceKeepsInv(c: Conf, s: State, k: nat, s': State)
    requires c.Valid() && Inv(c, s) && Next(c, s, Advance(k)) == Some(s')
    ensures Inv(c, s')
  {
    var g, call := s.shared, s.calls[k];
    var e := CallNext(c, g, call, k).value;
    assert CallFacts(g, call);
    CallKeeps(c, g, call, k);
    BalancedCallCounts(c, s, k, e);
    forall j: Job
      ensures ConservedFor(s', j)
    {
      assert ConservedFor(s, j);
      CallKeepsJobs(c, g, call, k, j);
      BalancedCallConserves(s, k, e, j);
    }
    LockMoveKeepsLocks(g.lock, s.calls, k, e.call, e.shared.lock);
    GuardedKeepsCallFacts(g, s.calls, k, e.call, e.shared);
    FloorAfterCall(c, g, s.calls, k, e);
  }

  // ----- a worker -----

  /** What the next action of a worker achieves. */
  predicate WorkerBalanced(c: Conf, g: Shared, worker: Worker, e: WorkerEffect) {
    var n, n' := g.counts, e.shared.counts;
    && n'.current - n.current == RegisteredWeight(e.worker) - RegisteredWeight(worker)
    && (n'.current - n'.idle) - (n.current - n.idle) == BusyWeight(e.worker) - BusyWeight(worker)
    && n'.waitGroup - n.waitGroup == LiveWeight(e.worker) - LiveWeight(worker)
    && e.shared.life == g.life && e.shared.lock == g.lock
    && e.shared.channels.queueClosed == g.channels.queueClosed && e.shared.channels.quitClosed == g.channels.quitClosed
    && (e.worker.SawClosed? ==> Drained(g.channels))
    && (n'.current < n.current ==> worker.SawClosed? || n.current > c.minWorkers)
    && (Drained(g.channels) ==> e.shared.channels.buffer == [])
    && |e.shared.channels.buffer| <= |g.channels.buffer|
  }

  /** What the next action of a worker achieves: job j moves from the buffer to the worker to the executed jobs. */
  predicate WorkerConserves(g: Shared, worker: Worker, e: WorkerEffect, j: Job) {
    multiset(e.shared.channels.buffer)[j] + HeldWeight(j)(e.worker) + e.executed[j]
    == multiset(g.channels.buffer)[j] + HeldWeight(j)(worker)
  }

  lemma WorkerKeeps(c: Conf, g: Shared, worker: Worker)
    requires c.Valid() && WorkerNext(c, g, worker).Some? && (worker.Leaving? ==> g.counts.waitGroup > 0)
    requires worker.SawClosed? ==> Drained(g.channels)
    ensures var e := WorkerNext(c, g, worker).value;
            && WorkerBalanced(c, g, worker, e)
            && RegisteredWeight(e.worker) <= RegisteredWeight(worker) && LiveWeight(e.worker) <= LiveWeight(worker)
  {
  }

  lemma WorkerKeepsJobs(c: Conf, g: Shared, worker: Worker, j: Job)
    requires c.Valid() && WorkerNext(c, g, worker).Some?
    ensures WorkerConserves(g, worker, WorkerNext(c, g, worker).value, j)
  {
    var buffer := g.channels.buffer;
    if worker.Waiting? && buffer != [] {
      assert buffer == [buffer[0]] + buffer[1..];
    }
  }

  lemma BalancedWorkerCounts(c: Conf, s: State, w: nat, e: WorkerEffect)
    requires w < |s.workers| && Counters(c, s) && WorkerBalanced(c, s.shared, s.workers[w], e)
    requires RegisteredWeight(e.worker) <= RegisteredWeight(s.workers[w])
    ensures Counters(c, ApplyWorker(s, w, e))
  {
    WorkerChanged(s.workers, w, e.worker);
  }

  lemma BalancedWorkerConserves(s: State, w: nat, e: WorkerEffect, j: Job)
    requires w < |s.workers| && ConservedFor(s, j) && WorkerConserves(s.shared, s.workers[w], e, j)
    ensures ConservedFor(ApplyWorker(s, w, e), j)
  {
    SumUpdate(s.workers, w, e.worker, HeldWeight(j));
  }

  lemma BalancedWorkerFacts(c: Conf, g: Shared, calls: seq<Call>, worker: Worker, e: WorkerEffect)
    requires c.Valid() && Lifecycle(g) && AllCallFacts(g, calls) && WorkerBalanced(c, g, worker, e) && Floor(c, g, calls)
    requires worker.SawClosed? ==> Drained(g.channels)
    requires g.counts.current >= RegisteredWeight(worker) && g.counts.waitGroup >= LiveWeight(worker)
    requires RegisteredWeight(e.worker) <= RegisteredWeight(worker) && LiveWeight(e.worker) <= LiveWeight(worker)
    ensures Lifecycle(e.shared) && AllCallFacts(e.shared, calls) && Floor(c, e.shared, calls)
  {
    forall i | 0 <= i < |calls|
      ensures CallFacts(e.shared, calls[i])
    {
      assert CallFacts(g, calls[i]);
    }
  }

  lemma WorkKeepsInv(c: Conf, s: State, w: nat, s': State)
    requires c.Valid() && Inv(c, s) && Next(c, s, Work(w)) == Some(s')
    ensures Inv(c, s')
  {
    var g, worker := s.shared, s.workers[w];
    var e := WorkerNext(c, g, worker).value;
    WorkerChanged(s.workers, w, e.worker);
    WorkerKeeps(c, g, worker);
    BalancedWorkerCounts(c, s, w, e);
    forall j: Job
      ensures ConservedFor(s', j)
    {
      assert ConservedFor(s, j);
      WorkerKeepsJobs(c, g, worker, j);
      BalancedWorkerConserves(s, w, e, j);
    }
    BalancedWorkerFacts(c, g, s.calls, worker, e);
  }

  // ----- and every other step -----

  lemma InvHoldsInitially(c: Conf)
    requires c.Valid()
    ensures Inv(c, Initial)
  {
  }

  lemma InvokeKeepsInv(c: Conf, s: State, call: Call, s': State)
    requires c.Valid() && Inv(c, s) && Next(c, s, Invoke(call)) == Some(s')
    ensures Inv(c, s')
  {
    CallInvoked(s.calls, call);
    forall j: Job
      ensures ConservedFor(s', j)
    {
      assert ConservedFor(s, j);
      SumAppend(s.calls, call, AcceptedWeight(j));
    }
    if k :| 0 <= k < |s.calls| && IsStarting(s.calls[k]) {
      assert IsStarting(s'.calls[k]);
    }
  }

  lemma TakeDefaultKeepsInv(c: Conf, s: State, k: nat, s': State)
    requires c.Valid() && Inv(c, s) && Next(c, s, TakeDefault(k)) == Some(s')
    ensures Inv(c, s')
  {
    var g, call := s.shared, DefaultNext(c, s.calls[k].job);
    var e := CallEffect(call, g, []);
    assert s' == ApplyCall(s, k, e);
    assert CallFacts(g, s.calls[k]);
    assert HoldsRead(s.calls[k]) <==> k in g.lock.readers;
    BalancedCallCounts(c, s, k, e);
    forall j: Job
      ensures ConservedFor(s', j)
    {
      assert ConservedFor(s, j);
      BalancedCallConserves(s, k, e, j);
    }
    LockMoveKeepsLocks(g.lock, s.calls, k, call, g.lock);
    GuardedKeepsCallFacts(g, s.calls, k, call, g);
    FloorAfterCall(c, g, s.calls, k, e);
  }

  lemma HandOffKeepsInv(c: Conf, s: State, k: nat, w: nat, s': State)
    requires c.Valid() && Inv(c, s) && Next(c, s, HandOff(k, w)) == Some(s')
    ensures Inv(c, s')
  {
    var g, call := s.shared, s'.calls[k];
    assert CallFacts(g, s.calls[k]);
    assert HoldsRead(s.calls[k]) <==> k in g.lock.readers;
    CallChanged(s.calls, k, call);
    WorkerChanged(s.workers, w, s'.workers[w]);
    forall j: Job
      ensures ConservedFor(s', j)
    {
      assert ConservedFor(s, j);
      SumUpdate(s.calls, k, call, AcceptedWeight(j));
      SumUpdate(s.workers, w, s'.workers[w], HeldWeight(j));
    }
    LockMoveKeepsLocks(g.lock, s.calls, k, call, g.lock);
    GuardedKeepsCallFacts(g, s.calls, k, call, g);
    FloorAfterCall(c, g, s.calls, k, CallEffect(call, g, []));
  }

  lemma RunStepKeepsInv(c: Conf, s: State, s': State)
    requires c.Valid() && Inv(c, s) && Next(c, s, RunStep) == Some(s')
    ensures Inv(c, s')
  {
    assert forall j: Job :: ConservedFor(s, j) ==> ConservedFor(s', j);
    forall k | 0 <= k < |s.calls|
      ensures CallFacts(s'.shared, s.calls[k])
    {
      assert CallFacts(s.shared, s.calls[k]);
    }
  }

  lemma TickKeepsInv(c: Conf, s: State, w: nat, s': State)
    requires c.Valid() && Inv(c, s) && Next(c, s, Tick(w)) == Some(s')
    ensures Inv(c, s')
  {
    WorkerChanged(s.workers, w, TimedOut);
    forall j: Job
      ensures ConservedFor(s', j)
    {
      assert ConservedFor(s, j);
      SumUpdate(s.workers, w, TimedOut, HeldWeight(j));
    }
  }

  lemma StepKeepsInv(c: Conf, s: State, step: Step, s': State)
    requires c.Valid() && Inv(c, s) && Next(c, s, step) == Some(s')
    ensures Inv(c, s')
  {
    match step
    case Invoke(call) => InvokeKeepsInv(c, s, call, s');
    case Advance(k) => AdvanceKeepsInv(c, s, k, s');
    case TakeDefault(k) => TakeDefaultKeepsInv(c, s, k, s');
    case HandOff(k, w) => HandOffKeepsInv(c, s, k, w, s');
    case RunStep => RunStepKeepsInv(c, s, s');
    case Work(w) => WorkKeepsInv(c, s, w, s');
    case Tick(w) => TickKeepsInv(c, s, w, s');
  }

  lemma ReachableInv(c: Conf, s: State)
    requires c.Valid() && Reachable(c, s)
    ensures Inv(c, s)
  {
    InvHoldsInitially(c);
    forall t, step | Inv(c, t) && Next(c, t, step).Some?
      ensures Inv(c, Next(c, t, step).value)
    {
      StepKeepsInv(c, t, step, Next(c, t, step).value);
    }
    Runs.Invariant(Steps(c), Initial, s, t => Inv(c, t));
  }
}
