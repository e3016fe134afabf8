/**
 The elastic worker pool as a protocol: any number of goroutines call Start, Stop and Submit while any
 number of workers run, and every step below is one atomic action of one of them. The shared state is
 the two counters, the job channel, the quit channel, the isRunning flag, the start/stop lock and the
 wait group of worker_pool/worker_pool.go.
 */
module Pool {
  import opened Options
  import opened ReadWriteLock
  import Runs

  type Job = nat

  const MAX_INT32: int := 0x7fff_ffff
  const MAX_NUMBER_OF_WORKER: int := 12
  const MIN_NUMBER_OF_WORKER: int := 4
  const QUEUE_SIZE: int := 0
  const KEEP_ALIVE_TIME_IN_MILLIS: int := 6000
  const MONITORING_PERIOD_IN_MILLIS: int := 15000

  datatype Conf = Conf(maxWorkers: int, minWorkers: int, queueSize: int, keepAlive: int, monitoringPeriod: int) {
    predicate IsInt32() {
      && -MAX_INT32 - 1 <= maxWorkers <= MAX_INT32
      && -MAX_INT32 - 1 <= minWorkers <= MAX_INT32
      && -MAX_INT32 - 1 <= queueSize <= MAX_INT32
    }

    /** What the rest of the pool relies on. */
    predicate Valid() {
      && 1 <= maxWorkers <= MAX_INT32
      && 0 <= minWorkers <= maxWorkers
      && 0 <= queueSize <= MAX_INT32
      && keepAlive > 0
      && monitoringPeriod > 0
    }
  }

  /** The settings New writes back into the configuration it is given. */
  function Normalise(raw: Conf): (c: Conf)
    requires raw.IsInt32()
    ensures c.Valid()
    ensures raw.Valid() ==> c == raw
    ensures c.maxWorkers == raw.maxWorkers || (raw.maxWorkers <= 0 && c.maxWorkers == 12)
    ensures 0 <= raw.minWorkers <= c.maxWorkers ==> c.minWorkers == raw.minWorkers
    ensures raw.minWorkers < 0 ==> c.minWorkers == 4 || c.minWorkers == c.maxWorkers < 4
    ensures raw.minWorkers > c.maxWorkers ==> c.minWorkers == c.maxWorkers
    ensures c.queueSize == raw.queueSize || (raw.queueSize < 0 && c.queueSize == 0)
    ensures c.keepAlive == raw.keepAlive || (raw.keepAlive <= 0 && c.keepAlive == 6000)
    ensures c.monitoringPeriod == raw.monitoringPeriod || (raw.monitoringPeriod <= 0 && c.monitoringPeriod == 15000)
  {
    var max := if raw.maxWorkers <= 0 then MAX_NUMBER_OF_WORKER else raw.maxWorkers;
    var min := if raw.minWorkers < 0 then MIN_NUMBER_OF_WORKER else raw.minWorkers;
    Conf(max,
         if min > max then max else min,
         if raw.queueSize < 0 then QUEUE_SIZE else raw.queueSize,
         if raw.keepAlive <= 0 then KEEP_ALIVE_TIME_IN_MILLIS else raw.keepAlive,
         if raw.monitoringPeriod <= 0 then MONITORING_PERIOD_IN_MILLIS else raw.monitoringPeriod)
  }

  /** Where one worker goroutine is. */
  datatype Worker =
    | Spawned(initial: Option<Job>)  // the go statement has run, work(initialJob) has not
    | Waiting                        // at the select of its run loop
    | Holding(job: Job)              // has a job, doJob has not yet taken 1 off the idle counter
    | Executing(job: Job)            // between that decrement and the return of job.Execute
    | Finished                       // Execute has returned, the deferred increment has not run
    | TimedOut                       // the keep-alive ticker fired, the counters are not yet compared
    | SawClosed                      // the receive reported a closed, drained channel
    | Leaving                        // its counters are given back, workersWg.Done has not run
    | Exited

  datatype Outcome = Accepted | Refused | NotRunning

  /** Where a call of Start is. */
  datatype StartAt =
    | StartCalled
    | StartLocked
    | StartAccepted                  // run is launched and isRunning set
    | StartCounted(n: nat)           // n workers counted, the wait group not yet
    | StartSpawning(left: nat)
    | StartReturning(ok: bool)
    | StartReturned(ok: bool)

  /** Where a call of Stop is. */
  datatype StopAt =
    | StopCalled
    | StopLocked
    | StopAccepted                   // isRunning cleared, quit still open
    | StopClosed                     // quit closed
    | StopWaiting                    // inside workersWg.Wait
    | StopReturning(ok: bool)
    | StopReturned(ok: bool)

  /** Where a call of Submit is. */
  datatype SubmitAt =
    | SubmitCalled
    | SubmitLocked
    | SubmitRunning                  // isRunning was true, at the select
    | SubmitFull                     // default branch of an elastic pool
    | SubmitReserved                 // counted a new worker, the wait group not yet
    | SubmitCounted                  // the wait group counted too, the goroutine not yet
    | SubmitReturning(outcome: Outcome)
    | SubmitReturned(outcome: Outcome)

  datatype Call = Start(start: StartAt) | Stop(stop: StopAt) | Submit(job: Job, submit: SubmitAt)

  /** The goroutine that closes the job channel. */
  datatype RunLoop = NotStarted | Watching | SawQuit | QueueClosed | WaitingWorkers | RunEnded

  /** What the Go runtime would panic or misbehave on. */
  datatype Fault = NoFault | SendOnClosed | CloseOfClosed | AddAfterWait | NegativeWaitGroup

  datatype Counts = Counts(
    current: int,                    // numberOfCurrentWorker
    idle: int,                       // numberOfIdleWorker
    waitGroup: int)                  // workersWg

  datatype Channels = Channels(
    buffer: seq<Job>,                // what jobQueue holds, oldest first
    queueClosed: bool,
    quitClosed: bool)

  datatype Life = Life(isRunning: bool, run: RunLoop, waitBegun: bool, fault: Fault)

  /** Everything the goroutines share; the lock is startStopMu, held by calls. */
  datatype Shared = Shared(counts: Counts, channels: Channels, life: Life, lock: RWLock)

  datatype State = State(
    shared: Shared,
    workers: seq<Worker>,
    calls: seq<Call>,
    executed: multiset<Job>)         // one entry per return of Execute

  const Initial: State :=
    State(Shared(Counts(0, 0, 0), Channels([], false, false), Life(false, NotStarted, false, NoFault), FREE),
          [], [], multiset{})

  datatype Step =
    | Invoke(call: Call)             // a goroutine calls Start, Stop or Submit
    | Advance(k: nat)                // call k takes its next action; at Submit's select this is the send
    | TakeDefault(k: nat)            // Submit's select takes its default branch
    | HandOff(k: nat, w: nat)        // Submit's send meets the receive of waiting worker w
    | RunStep                        // the run goroutine takes its next action
    | Work(w: nat)                   // worker w takes its next action; at its select this is the receive
    | Tick(w: nat)                   // the keep-alive ticker of waiting worker w fires

  // ----- actions on the shared state -----

  function Register(g: Shared, n: int): Shared {
    g.(counts := g.counts.(current := g.counts.current + n, idle := g.counts.idle + n))
  }

  function AddIdle(g: Shared, n: int): Shared {
    g.(counts := g.counts.(idle := g.counts.idle + n))
  }

  function Panic(g: Shared, fault: Fault): Shared {
    g.(life := g.life.(fault := fault))
  }

  /** workersWg.Add(n): counting up while somebody already waits is the misuse the sync package warns of. */
  function WaitGroupAdd(g: Shared, n: nat): Shared {
    if g.life.waitBegun then Panic(g, AddAfterWait) else g.(counts := g.counts.(waitGroup := g.counts.waitGroup + n))
  }

  function WaitGroupDone(g: Shared): Shared {
    if g.counts.waitGroup <= 0 then Panic(g, NegativeWaitGroup)
    else g.(counts := g.counts.(waitGroup := g.counts.waitGroup - 1))
  }

  function CloseQuit(g: Shared): Shared {
    if g.channels.quitClosed then Panic(g, CloseOfClosed) else g.(channels := g.channels.(quitClosed := true))
  }

  function CloseQueue(g: Shared): Shared {
    if g.channels.queueClosed then Panic(g, CloseOfClosed) else g.(channels := g.channels.(queueClosed := true))
  }

  function SetBuffer(g: Shared, buffer: seq<Job>): Shared {
    g.(channels := g.channels.(buffer := buffer))
  }

  function TakeWrite(g: Shared, k: nat): Shared { g.(lock := g.lock.Lock(k)) }
  function ReleaseWrite(g: Shared): Shared { g.(lock := g.lock.Unlock()) }
  function TakeRead(g: Shared, k: nat): Shared { g.(lock := g.lock.RLock(k)) }
  function ReleaseRead(g: Shared, k: nat): Shared { g.(lock := g.lock.RUnlock(k)) }

  // ----- the next action of a call -----

  /** Where the call is afterwards, what it did to the shared state, and the goroutines it started. */
  datatype CallEffect = CallEffect(call: Call, shared: Shared, spawned: seq<Worker>)

  function StartNext(c: Conf, g: Shared, at: StartAt, k: nat): Option<CallEffect>
    requires c.Valid()
  {
    match at
    case StartCalled =>
      if g.lock.CanWrite() then Some(CallEffect(Start(StartLocked), TakeWrite(g, k), [])) else None
    case StartLocked =>
      if g.life.isRunning then Some(CallEffect(Start(StartReturning(false)), g, []))
      else if g.life.run.NotStarted?
      then Some(CallEffect(Start(StartAccepted), g.(life := g.life.(run := Watching, isRunning := true)), []))
      else None // starting again after a Stop: jobQueue and quit are never made anew, so this is outside the model
    case StartAccepted => Some(CallEffect(Start(StartCounted(c.minWorkers)), Register(g, c.minWorkers), []))
    case StartCounted(n) => Some(CallEffect(Start(StartSpawning(n)), WaitGroupAdd(g, n), []))
    case StartSpawning(left) =>
      if left == 0 then Some(CallEffect(Start(StartReturning(true)), g, []))
      else Some(CallEffect(Start(StartSpawning(left - 1)), g, [Spawned(None)]))
    case StartReturning(ok) => Some(CallEffect(Start(StartReturned(ok)), ReleaseWrite(g), []))
    case StartReturned(_) => None
  }

  function StopNext(g: Shared, at: StopAt, k: nat): Option<CallEffect> {
    match at
    case StopCalled =>
      if g.lock.CanWrite() then Some(CallEffect(Stop(StopLocked), TakeWrite(g, k), [])) else None
    case StopLocked =>
      if g.life.isRunning then Some(CallEffect(Stop(StopAccepted), g.(life := g.life.(isRunning := false)), []))
      else Some(CallEffect(Stop(StopReturning(false)), g, []))
    case StopAccepted => Some(CallEffect(Stop(StopClosed), CloseQuit(g), []))
    case StopClosed => Some(CallEffect(Stop(StopWaiting), g.(life := g.life.(waitBegun := true)), []))
    case StopWaiting => if g.counts.waitGroup == 0 then Some(CallEffect(Stop(StopReturning(true)), g, [])) else None
    case StopReturning(ok) => Some(CallEffect(Stop(StopReturned(ok)), ReleaseWrite(g), []))
    case StopReturned(_) => None
  }

  function SubmitNext(c: Conf, g: Shared, j: Job, at: SubmitAt, k: nat): Option<CallEffect>
    requires c.Valid()
  {
    match at
    case SubmitCalled =>
      if g.lock.CanRead() then Some(CallEffect(Submit(j, SubmitLocked), TakeRead(g, k), [])) else None
    case SubmitLocked =>
      Some(CallEffect(Submit(j, if g.life.isRunning then SubmitRunning else SubmitReturning(NotRunning)), g, []))
    case SubmitRunning =>
      if g.channels.queueClosed then Some(CallEffect(Submit(j, SubmitRunning), Panic(g, SendOnClosed), []))
      else if |g.channels.buffer| < c.queueSize
      then Some(CallEffect(Submit(j, SubmitReturning(Accepted)), SetBuffer(g, g.channels.buffer + [j]), []))
      else None
    case SubmitFull =>
      if g.counts.current < c.maxWorkers then Some(CallEffect(Submit(j, SubmitReserved), Register(g, 1), []))
      else Some(CallEffect(Submit(j, SubmitReturning(Refused)), g, []))
    case SubmitReserved => Some(CallEffect(Submit(j, SubmitCounted), WaitGroupAdd(g, 1), []))
    case SubmitCounted => Some(CallEffect(Submit(j, SubmitReturning(Accepted)), g, [Spawned(Some(j))]))
    case SubmitReturning(o) => Some(CallEffect(Submit(j, SubmitReturned(o)), ReleaseRead(g, k), []))
    case SubmitReturned(_) => None
  }

  function CallNext(c: Conf, g: Shared, call: Call, k: nat): Option<CallEffect>
    requires c.Valid()
  {
    match call
    case Start(at) => StartNext(c, g, at, k)
    case Stop(at) => StopNext(g, at, k)
    case Submit(j, at) => SubmitNext(c, g, j, at, k)
  }

  /** Submit's default branch: a pool of fixed size refuses, an elastic one looks for room for a new worker. */
  function DefaultNext(c: Conf, j: Job): Call {
    Submit(j, if c.maxWorkers == c.minWorkers then SubmitReturning(Refused) else SubmitFull)
  }

  // ----- the next action of a worker -----

  datatype WorkerEffect = WorkerEffect(worker: Worker, shared: Shared, executed: multiset<Job>)

  function WorkerNext(c: Conf, g: Shared, worker: Worker): Option<WorkerEffect>
    requires c.Valid()
  {
    match worker
    case Spawned(initial) =>
      Some(WorkerEffect(if initial.Some? then Holding(initial.value) else Waiting, g, multiset{}))
    case Waiting =>
      if g.channels.buffer != []
      then Some(WorkerEffect(Holding(g.channels.buffer[0]), SetBuffer(g, g.channels.buffer[1..]), multiset{}))
      else if g.channels.queueClosed then Some(WorkerEffect(SawClosed, g, multiset{}))
      else None
    case Holding(j) => Some(WorkerEffect(Executing(j), AddIdle(g, -1), multiset{}))
    case Executing(j) => Some(WorkerEffect(Finished, g, multiset{j}))
    case Finished => Some(WorkerEffect(Waiting, AddIdle(g, 1), multiset{}))
    case TimedOut =>
      if g.counts.current > c.minWorkers then Some(WorkerEffect(Leaving, Register(g, -1), multiset{}))
      else Some(WorkerEffect(Waiting, g, multiset{}))
    case SawClosed => Some(WorkerEffect(Leaving, Register(g, -1), multiset{}))
    case Leaving => Some(WorkerEffect(Exited, WaitGroupDone(g), multiset{}))
    case Exited => None
  }

  // ----- the next action of the run goroutine -----

  function RunNext(g: Shared): Option<Shared> {
    match g.life.run
    case NotStarted => None
    case Watching => if g.channels.quitClosed then Some(g.(life := g.life.(run := SawQuit))) else None
    case SawQuit => Some(CloseQueue(g.(life := g.life.(run := QueueClosed))))
    case QueueClosed => Some(g.(life := g.life.(run := WaitingWorkers, waitBegun := true)))
    case WaitingWorkers => if g.counts.waitGroup == 0 then Some(g.(life := g.life.(run := RunEnded))) else None
    case RunEnded => None
  }

  // ----- the steps of the whole pool -----

  predicate IsFresh(call: Call) {
    match call
    case Start(at) => at.StartCalled?
    case Stop(at) => at.StopCalled?
    case Submit(_, at) => at.SubmitCalled?
  }

  predicate AtSelect(s: State, k: nat) {
    k < |s.calls| && s.calls[k].Submit? && s.calls[k].submit.SubmitRunning? && !s.shared.channels.queueClosed
  }

  predicate IsWaiting(s: State, w: nat) {
    w < |s.workers| && s.workers[w].Waiting?
  }

  function ApplyCall(s: State, k: nat, e: CallEffect): State
    requires k < |s.calls|
  {
    State(e.shared, s.workers + e.spawned, s.calls[k := e.call], s.executed)
  }

  function ApplyWorker(s: State, w: nat, e: WorkerEffect): State
    requires w < |s.workers|
  {
    State(e.shared, s.workers[w := e.worker], s.calls, s.executed + e.executed)
  }

  /** The state after a step, or None where the step is not enabled. */
  function Next(c: Conf, s: State, step: Step): (r: Option<State>)
    requires c.Valid()
  {
    if s.shared.life.fault != NoFault then None else
    match step
    case Invoke(call) => if IsFresh(call) then Some(s.(calls := s.calls + [call])) else None
    case Advance(k) =>
      if k >= |s.calls| then None else
      var e := CallNext(c, s.shared, s.calls[k], k);
      if e.Some? then Some(ApplyCall(s, k, e.value)) else None
    case TakeDefault(k) =>
      if AtSelect(s, k) && |s.shared.channels.buffer| >= c.queueSize
      then Some(s.(calls := s.calls[k := DefaultNext(c, s.calls[k].job)]))
      else None
    case HandOff(k, w) =>
      if AtSelect(s, k) && IsWaiting(s, w) && s.shared.channels.buffer == [] then
        var j := s.calls[k].job;
        Some(s.(calls := s.calls[k := Submit(j, SubmitReturning(Accepted))], workers := s.workers[w := Holding(j)]))
      else None
    case RunStep =>
      var g := RunNext(s.shared);
      if g.Some? then Some(s.(shared := g.value)) else None
    case Work(w) =>
      if w >= |s.workers| then None else
      var e := WorkerNext(c, s.shared, s.workers[w]);
      if e.Some? then Some(ApplyWorker(s, w, e.value)) else None
    case Tick(w) =>
      if IsWaiting(s, w) && c.minWorkers != c.maxWorkers then Some(s.(workers := s.workers[w := TimedOut])) else None
  }

  function Steps(c: Conf): (State, Step) -> Option<State>
    requires c.Valid()
  {
    (s, step) => Next(c, s, step)
  }

  ghost predicate Reachable(c: Conf, s: State)
    requires c.Valid()
  {
    Runs.Reachable(Steps(c), Initial, s)
  }

  lemma Initially(c: Conf)
    requires c.Valid()
    ensures Reachable(c, Initial)
  {
    Runs.Initially(Steps(c), Initial);
  }

  lemma Take(c: Conf, s: State, step: Step) returns (s': State)
    requires c.Valid() && Reachable(c, s) && Next(c, s, step).Some?
    ensures s' == Next(c, s, step).value && Reachable(c, s')
  {
    s' := Next(c, s, step).value;
    Runs.Further(Steps(c), Initial, s, step);
  }
}
