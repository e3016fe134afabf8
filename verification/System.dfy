/**
 The whole program: the processor with its pool and the loops of its pollers, as in Lifecycle, and the messages
 those pollers receive with their jobs, as in Delivery. The two protocols move in step: what concerns both is
 one step of each, and they share one pool.
 */
module System {
  import opened Options
  import Runs
  import Pool
  import J = JobProtocol
  import L = Lifecycle
  import D = Delivery

  datatype State = State(
    life: L.State,
    delivery: D.State,
    polled: set<nat>)                // pollers that have received the messages of the poll they are in

  const Initial: State := State(L.Initial, D.Initial, {})

  datatype Step =
    | Process(step: L.Step)          // of the processor and the loops, with no message and no pool involved
    | Main
    | AddPoller
    | Receive(p: nat, batch: seq<J.Message>)
    | Submit(p: nat)                 // the poller submits the job of the message it is at
    | SubmitReturns(p: nat)
    | Release(p: nat)
    | PollEnds(p: nat, shouldWait: bool)
    | PoolStep(poolStep: Pool.Step)
    | BeginExecute(w: nat)
    | JobStep(m: nat, jobStep: J.Step)
    | EndExecute(w: nat)

  /** Steps of the processor and the loops that touch neither pool nor messages. */
  predicate IsProcessOnly(step: L.Step) {
    !step.MainStep? && !step.AddPoller? && !step.PollSubmits? && !step.SubmitReturns? && !step.PollEnds? && !step.PoolStep?
  }

  predicate IsPolling(s: State, p: nat) {
    p < |s.life.pollers| && s.life.pollers[p].at.Polling?
  }

  predicate HasMessage(s: State, p: nat) {
    p < |s.delivery.pollers| && s.delivery.pollers[p].AtMessage?
  }

  /** What the loop of a poller adds to when a step may be taken: one receipt in a poll, which ends when the batch is done. */
  predicate Allowed(s: State, step: Step) {
    match step
    case Process(st) => IsProcessOnly(st)
    case Receive(p, _) => IsPolling(s, p) && p !in s.polled
    case Submit(p) => HasMessage(s, p)
    case PollEnds(p, _) => p < |s.delivery.pollers| && s.delivery.pollers[p].Idle?
    case _ => true
  }

  /** The step as Lifecycle sees it, if it does. */
  function LifeStep(s: State, step: Step): Option<L.Step>
    requires Allowed(s, step)
  {
    match step
    case Process(st) => Some(st)
    case Main => Some(L.MainStep)
    case AddPoller => Some(L.AddPoller)
    case Submit(p) => Some(L.PollSubmits(p, s.delivery.pollers[p].i))
    case SubmitReturns(p) => Some(L.SubmitReturns(p))
    case PollEnds(p, shouldWait) => Some(L.PollEnds(p, shouldWait))
    case PoolStep(st) => Some(L.PoolStep(st))
    case EndExecute(w) => Some(L.PoolStep(Pool.Work(w)))
    case _ => None
  }

  /** The step as Delivery sees it, if it does. */
  function DeliveryStep(s: State, step: Step): Option<D.Step> {
    match step
    case Process(_) => None
    case Main =>
      if s.life.proc.main.CallingPool? then Some(D.PoolStep(Pool.Invoke(Pool.Start(Pool.StartCalled))))
      else if s.life.proc.main.AwaitingGoroutines? then Some(D.PoolStep(Pool.Invoke(Pool.Stop(Pool.StopCalled))))
      else None
    case AddPoller => Some(D.AddPoller)
    case Receive(p, batch) => Some(D.Receive(p, batch))
    case Submit(p) => Some(D.CallSubmit(p))
    case SubmitReturns(p) => Some(D.SubmitAnswered(p))
    case Release(p) => Some(D.Release(p))
    case PollEnds(_, _) => None
    case PoolStep(st) => Some(D.PoolStep(st))
    case BeginExecute(w) => Some(D.BeginExecute(w))
    case JobStep(m, st) => Some(D.JobStep(m, st))
    case EndExecute(w) => Some(D.EndExecute(w))
  }

  function LifeNext(c: Pool.Conf, life: L.State, step: Option<L.Step>): Option<L.State>
    requires c.Valid()
  {
    if step.None? then Some(life) else L.Next(c, life, step.value)
  }

  function DeliveryNext(c: Pool.Conf, delivery: D.State, step: Option<D.Step>): Option<D.State>
    requires c.Valid()
  {
    if step.None? then Some(delivery) else D.Next(c, delivery, step.value)
  }

  function Polled(s: State, step: Step): set<nat> {
    match step
    case Receive(p, _) => s.polled + {p}
    case PollEnds(p, _) => s.polled - {p}
    case _ => s.polled
  }

  function Next(c: Pool.Conf, s: State, step: Step): Option<State>
    requires c.Valid()
  {
    if !Allowed(s, step) then None else
    var life := LifeNext(c, s.life, LifeStep(s, step));
    var delivery := DeliveryNext(c, s.delivery, DeliveryStep(s, step));
    if life.Some? && delivery.Some? then Some(State(life.value, delivery.value, Polled(s, step))) else None
  }

  function Steps(c: Pool.Conf): (State, Step) -> Option<State>
    requires c.Valid()
  {
    (s, step) => Next(c, s, step)
  }

  ghost predicate Reachable(c: Pool.Conf, s: State)
    requires c.Valid()
  {
    Runs.Reachable(Steps(c), Initial, s)
  }

  lemma Initially(c: Pool.Conf)
    requires c.Valid()
    ensures Reachable(c, Initial)
  {
    Runs.Initially(Steps(c), Initial);
  }

  lemma Take(c: Pool.Conf, s: State, step: Step) returns (s': State)
    requires c.Valid() && Reachable(c, s) && Next(c, s, step).Some?
    ensures s' == Next(c, s, step).value && Reachable(c, s')
  {
    s' := Next(c, s, step).value;
    Runs.Further(Steps(c), Initial, s, step);
  }
}
