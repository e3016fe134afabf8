/**
 The order in which the processor starts and stops its parts: queue/processor.go's Start and Stop, its run
 and pull goroutines and the run loops of the pollers, around the worker pool's own protocol. The processor's
 Start and Stop hold one mutex from beginning to end, so one main thread of control stands for all callers.
 */
module Lifecycle {
  import opened Options
  import Runs
  import opened Pool

  datatype Main =
    | Idle                           // never started, or every Start so far has failed
    | Prepared(hasRepositories: bool) // has a token and the repositories
    | CallingPool                    // the pull goroutine is launched, if there is anything to pull
    | StartingPool                   // inside workerPool.Start
    | FirstRefresh                   // inside refreshPollers
    | Up
    | AwaitingGoroutines             // quit closed, inside isRunningWg.Wait
    | StoppingPool                   // inside workerPool.Stop
    | Removing                       // inside repositories.RemoveAll
    | Down

  /** The run goroutine. */
  datatype Runner =
    | NotLaunched
    | Looping
    | Refreshing
    | StoppingOne(p: nat)            // inside Stop of a poller that a refresh drops
    | Quitting
    | QuittingOne(p: nat)            // inside Stop of a poller after quit
    | RunnerDone

  /** The goroutine that pulls the repositories. */
  datatype Puller = NoPuller | PullLooping | Pulling | PullerDone

  datatype LoopAt =
    | LoopTop                        // about to check quit
    | Polling
    | Submitting(call: nat)
    | Pausing                        // inside wait
    | LoopEnded

  datatype PollerLife = PollerLife(at: LoopAt, quit: bool, pollsAfterQuit: nat)

  datatype PoolCalls = PoolCalls(start: Option<nat>, stop: Option<nat>)

  datatype Proc = Proc(main: Main, runner: Runner, puller: Puller, quit: bool, made: PoolCalls)

  datatype State = State(
    pool: Pool.State,
    proc: Proc,
    pollers: seq<PollerLife>,
    owner: map<nat, nat>)            // for each Submit, the poller that made it

  const Initial: State := State.State(Pool.Initial, Proc(Idle, NotLaunched, NoPuller, false, PoolCalls(None, None)), [], map[])

  datatype Step =
    | Prepare(ok: bool, hasRepositories: bool) // Start receives a token and downloads the repositories, or fails
    | MainStep                                 // the next action of Start, or of a Stop already under way
    | CallStop                                 // Stop is called and closes quit
    | AddPoller                                // a refresh adds and starts a poller
    | RunnerTick                               // the refresh ticker fires and a token arrives
    | RunnerSeesQuit
    | StopPoller(p: nat)                       // the runner closes the poller's quit and waits
    | RunnerStep                               // the wait is over, or the refresh or the quitting is
    | PullTick
    | PullEnds
    | PullerSeesQuit
    | Loop(p: nat, expired: bool)              // the top of a poller's loop, or the end of its wait
    | PollSubmits(p: nat, job: Job)
    | SubmitReturns(p: nat)
    | PollEnds(p: nat, shouldWait: bool)
    | PoolStep(step: Pool.Step)

  function InvokePool(c: Conf, s: State, call: Call): Option<Pool.State>
    requires c.Valid()
  {
    Pool.Next(c, s.pool, Invoke(call))
  }

  predicate GoroutinesDone(proc: Proc) {
    proc.runner.RunnerDone? && (proc.puller.NoPuller? || proc.puller.PullerDone?)
  }

  function Return(calls: seq<Call>, k: Option<nat>): Option<Call> {
    if k.Some? && k.value < |calls| then Some(calls[k.value]) else None
  }

  function MainNext(c: Conf, s: State): Option<State>
    requires c.Valid()
  {
    var proc := s.proc;
    var k := |s.pool.calls|;
    match proc.main
    case Prepared(hasRepositories) =>
      Some(s.(proc := proc.(main := CallingPool, puller := if hasRepositories then PullLooping else NoPuller)))
    case CallingPool =>
      var pool := InvokePool(c, s, Start(StartCalled));
      if pool.None? then None else
      Some(s.(pool := pool.value, proc := proc.(main := StartingPool, made := proc.made.(start := Some(k)))))
    case StartingPool =>
      match Return(s.pool.calls, proc.made.start) {
        case Some(Start(StartReturned(_))) => Some(s.(proc := proc.(main := FirstRefresh)))
        case _ => None
      }
    case FirstRefresh => Some(s.(proc := proc.(main := Up, runner := Looping)))
    case AwaitingGoroutines =>
      var pool := InvokePool(c, s, Stop(StopCalled));
      if !GoroutinesDone(proc) || pool.None? then None else
      Some(s.(pool := pool.value, proc := proc.(main := StoppingPool, made := proc.made.(stop := Some(k)))))
    case StoppingPool =>
      match Return(s.pool.calls, proc.made.stop) {
        case Some(Stop(StopReturned(_))) => Some(s.(proc := proc.(main := Removing)))
        case _ => None
      }
    case Removing => Some(s.(proc := proc.(main := Down)))
    case _ => None
  }

  function SetRunner(s: State, runner: Runner): State {
    s.(proc := s.proc.(runner := runner))
  }

  function SetPuller(s: State, puller: Puller): State {
    s.(proc := s.proc.(puller := puller))
  }

  function SetPoller(s: State, p: nat, life: PollerLife): State
    requires p < |s.pollers|
  {
    s.(pollers := s.pollers[p := life])
  }

  predicate AllQuit(pollers: seq<PollerLife>) {
    forall p :: 0 <= p < |pollers| ==> pollers[p].quit
  }

  function RunnerNext(s: State): Option<State> {
    match s.proc.runner
    case Refreshing => Some(SetRunner(s, Looping))
    case StoppingOne(p) =>
      if p < |s.pollers| && s.pollers[p].at.LoopEnded? then Some(SetRunner(s, Refreshing)) else None
    case QuittingOne(p) =>
      if p < |s.pollers| && s.pollers[p].at.LoopEnded? then Some(SetRunner(s, Quitting)) else None
    case Quitting => if AllQuit(s.pollers) then Some(SetRunner(s, RunnerDone)) else None
    case _ => None
  }

  /** The end of one poll. */
  function AfterPoll(life: PollerLife, shouldWait: bool): PollerLife {
    PollerLife(if shouldWait then Pausing else LoopTop, life.quit, life.pollsAfterQuit + (if life.quit then 1 else 0))
  }

  function PollerNext(c: Conf, s: State, p: nat, step: Step): Option<State>
    requires c.Valid() && p < |s.pollers|
  {
    var life := s.pollers[p];
    match step
    case Loop(_, expired) =>
      if life.at.Pausing? then Some(SetPoller(s, p, life.(at := LoopTop)))
      else if !life.at.LoopTop? then None
      else Some(SetPoller(s, p, life.(at := if life.quit then LoopEnded else if expired then Pausing else Polling)))
    case PollSubmits(_, job) =>
      var pool := InvokePool(c, s, Submit(job, SubmitCalled));
      if !life.at.Polling? || pool.None? then None else
      var k := |s.pool.calls|;
      Some(SetPoller(s, p, life.(at := Submitting(k))).(pool := pool.value, owner := s.owner[k := p]))
    case SubmitReturns(_) =>
      if !life.at.Submitting? then None else
      match Return(s.pool.calls, Some(life.at.call)) {
        case Some(Submit(_, SubmitReturned(NotRunning))) => Some(SetPoller(s, p, AfterPoll(life, true)))
        case Some(Submit(_, SubmitReturned(_))) => Some(SetPoller(s, p, life.(at := Polling)))
        case _ => None
      }
    case PollEnds(_, shouldWait) =>
      if life.at.Polling? then Some(SetPoller(s, p, AfterPoll(life, shouldWait))) else None
    case _ => None
  }

  function Next(c: Conf, s: State, step: Step): Option<State>
    requires c.Valid()
  {
    var proc := s.proc;
    match step
    case Prepare(ok, hasRepositories) =>
      if !proc.main.Idle? then None
      else if ok then Some(s.(proc := proc.(main := Prepared(hasRepositories)))) else Some(s)
    case MainStep => MainNext(c, s)
    case CallStop => if proc.main.Up? then Some(s.(proc := proc.(main := AwaitingGoroutines, quit := true))) else None
    case AddPoller =>
      if proc.main.FirstRefresh? || proc.runner.Refreshing?
      then Some(s.(pollers := s.pollers + [PollerLife(LoopTop, false, 0)]))
      else None
    case RunnerTick => if proc.runner.Looping? then Some(SetRunner(s, Refreshing)) else None
    case RunnerSeesQuit => if proc.runner.Looping? && proc.quit then Some(SetRunner(s, Quitting)) else None
    case StopPoller(p) =>
      if p < |s.pollers| && !s.pollers[p].quit && (proc.runner.Refreshing? || proc.runner.Quitting?)
      then Some(SetRunner(SetPoller(s, p, s.pollers[p].(quit := true)), if proc.runner.Refreshing? then StoppingOne(p) else QuittingOne(p)))
      else None
    case RunnerStep => RunnerNext(s)
    case PullTick => if proc.puller.PullLooping? then Some(SetPuller(s, Pulling)) else None
    case PullEnds => if proc.puller.Pulling? then Some(SetPuller(s, PullLooping)) else None
    case PullerSeesQuit => if proc.puller.PullLooping? && proc.quit then Some(SetPuller(s, PullerDone)) else None
    case Loop(p, _) => if p < |s.pollers| then PollerNext(c, s, p, step) else None
    case PollSubmits(p, _) => if p < |s.pollers| then PollerNext(c, s, p, step) else None
    case SubmitReturns(p) => if p < |s.pollers| then PollerNext(c, s, p, step) else None
    case PollEnds(p, _) => if p < |s.pollers| then PollerNext(c, s, p, step) else None
    case PoolStep(st) =>
      if st.Invoke? then None else
      var pool := Pool.Next(c, s.pool, st);
      if pool.Some? then Some(s.(pool := pool.value)) else None
  }

  function Steps(c: Conf): (State, Step) -> Option<State>
    requires c.Valid()
  {
    (s, step) => Next(c, s, step)
  }

  ghost predicate Reachable(c: Conf, s: State)
    requires c.Valid()
  {
    Runs.Reachable(Steps(c), Initial, s)
  }
}
