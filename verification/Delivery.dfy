/**
 Pollers, the worker pool and the jobs run together: from the receipt of a batch of messages to the end of
 Execute, over every interleaving. The pool and every job take the steps of their own protocols; this file
 adds the pollers, and ties a worker that is inside doJob to a call of Execute on the job it has.
 */
module Delivery {
  import opened Options
  import Runs
  import opened Pool
  import J = JobProtocol

  /** Where one poller is in its batch; the messages i..hi are still its responsibility. */
  datatype PollerAt =
    | Idle
    | AtMessage(i: nat, hi: nat)             // about to make the job of message i and submit it
    | InSubmit(i: nat, hi: nat, call: nat)   // waiting for that Submit to return
    | ReleasingOne(i: nat, hi: nat)          // message i was refused
    | ReleasingRest(i: nat, hi: nat)         // Submit reported an error: messages i..hi are given up

  /** One received message, named by its position, and the job made for it. */
  datatype Received = Received(
    message: J.Message,
    poller: nat,                                 // the poller that received it
    call: Option<nat>,                       // its Submit
    releases: nat,                           // how often its visibility was asked to end
    job: J.State)

  datatype State = State(
    pool: Pool.State,
    msgs: seq<Received>,
    pollers: seq<PollerAt>,
    running: map<nat, nat>)                  // for a worker inside Execute, which call on its job that is

  const Initial: State := State.State(Pool.Initial, [], [], map[])

  datatype Step =
    | AddPoller
    | Receive(p: nat, batch: seq<J.Message>)
    | CallSubmit(p: nat)
    | SubmitAnswered(p: nat)
    | Release(p: nat)
    | PoolStep(step: Pool.Step)
    | BeginExecute(w: nat)
    | JobStep(m: nat, jobStep: J.Step)
    | EndExecute(w: nat)

  function Fresh(batch: seq<J.Message>, p: nat): (r: seq<Received>)
    ensures |r| == |batch|
    ensures forall i :: 0 <= i < |r| ==> r[i] == Received(batch[i], p, None, 0, J.Initial)
  {
    seq(|batch|, i requires 0 <= i < |batch| => Received(batch[i], p, None, 0, J.Initial))
  }

  function From(i: nat, hi: nat): PollerAt {
    if i < hi then AtMessage(i, hi) else Idle
  }

  function SetPoller(d: State, p: nat, at: PollerAt): State
    requires p < |d.pollers|
  {
    d.(pollers := d.pollers[p := at])
  }

  function SetMsg(d: State, m: nat, r: Received): State
    requires m < |d.msgs|
  {
    d.(msgs := d.msgs[m := r])
  }

  predicate IsExecuting(d: State, w: nat) {
    w < |d.pool.workers| && d.pool.workers[w].Executing?
  }

  /** Pool steps that belong to a poller or to the end of an Execute are taken with those. */
  predicate IsPoolsOwn(d: State, step: Pool.Step) {
    match step
    case Invoke(call) => !call.Submit?
    case Work(w) => !IsExecuting(d, w)
    case _ => true
  }

  function PollerNext(c: Conf, d: State, p: nat, step: Step): Option<State>
    requires c.Valid() && p < |d.pollers|
  {
    var at := d.pollers[p];
    match step
    case Receive(_, batch) =>
      if at.Idle? then
        Some(SetPoller(d, p, From(|d.msgs|, |d.msgs| + |batch|)).(msgs := d.msgs + Fresh(batch, p)))
      else None
    case CallSubmit(_) =>
      if at.AtMessage? && at.i < |d.msgs| then
        var k := |d.pool.calls|;
        var pool := Pool.Next(c, d.pool, Invoke(Submit(at.i, SubmitCalled)));
        if pool.None? then None else
        Some(SetMsg(SetPoller(d, p, InSubmit(at.i, at.hi, k)), at.i, d.msgs[at.i].(call := Some(k))).(pool := pool.value))
      else None
    case SubmitAnswered(_) =>
      if at.InSubmit? && at.call < |d.pool.calls| then
        match d.pool.calls[at.call] {
          case Submit(_, SubmitReturned(Accepted)) => Some(SetPoller(d, p, From(at.i + 1, at.hi)))
          case Submit(_, SubmitReturned(Refused)) => Some(SetPoller(d, p, ReleasingOne(at.i, at.hi)))
          case Submit(_, SubmitReturned(NotRunning)) => Some(SetPoller(d, p, ReleasingRest(at.i, at.hi)))
          case _ => None
        }
      else None
    case Release(_) =>
      if (at.ReleasingOne? || at.ReleasingRest?) && at.i < |d.msgs| then
        var next := if at.ReleasingRest? && at.i + 1 < at.hi then ReleasingRest(at.i + 1, at.hi) else From(at.i + 1, at.hi);
        Some(SetMsg(SetPoller(d, p, next), at.i, d.msgs[at.i].(releases := d.msgs[at.i].releases + 1)))
      else None
    case _ => None
  }

  function StepJob(d: State, m: nat, step: J.Step): Option<State>
    requires m < |d.msgs|
  {
    var job := J.Next(d.msgs[m].message, d.msgs[m].job, step);
    if job.Some? then Some(SetMsg(d, m, d.msgs[m].(job := job.value))) else None
  }

  function Next(c: Conf, d: State, step: Step): Option<State>
    requires c.Valid()
  {
    match step
    case AddPoller => Some(d.(pollers := d.pollers + [Idle]))
    case Receive(p, _) => if p < |d.pollers| then PollerNext(c, d, p, step) else None
    case CallSubmit(p) => if p < |d.pollers| then PollerNext(c, d, p, step) else None
    case SubmitAnswered(p) => if p < |d.pollers| then PollerNext(c, d, p, step) else None
    case Release(p) => if p < |d.pollers| then PollerNext(c, d, p, step) else None
    case PoolStep(st) =>
      if !IsPoolsOwn(d, st) then None else
      var pool := Pool.Next(c, d.pool, st);
      if pool.Some? then Some(d.(pool := pool.value)) else None
    case BeginExecute(w) =>
      if IsExecuting(d, w) && w !in d.running && d.pool.workers[w].job < |d.msgs| then
        var m := d.pool.workers[w].job;
        var k := |d.msgs[m].job.calls|;
        var d' := StepJob(d, m, J.Invoke);
        Some(d'.value.(running := d.running[w := k]))
      else None
    case JobStep(m, st) => if m < |d.msgs| && !st.Invoke? then StepJob(d, m, st) else None
    case EndExecute(w) =>
      if IsExecuting(d, w) && w in d.running && d.pool.workers[w].job < |d.msgs|
         && d.running[w] < |d.msgs[d.pool.workers[w].job].job.calls|
         && d.msgs[d.pool.workers[w].job].job.calls[d.running[w]].Done? then
        var pool := Pool.Next(c, d.pool, Work(w));
        if pool.Some? then Some(d.(pool := pool.value, running := d.running - {w})) else None
      else None
  }

  function Steps(c: Conf): (State, Step) -> Option<State>
    requires c.Valid()
  {
    (d, step) => Next(c, d, step)
  }

  ghost predicate Reachable(c: Conf, d: State)
    requires c.Valid()
  {
    Runs.Reachable(Steps(c), Initial, d)
  }
}
