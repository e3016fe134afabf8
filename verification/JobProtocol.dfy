/**
 One job of queue/job.go as a protocol: any number of goroutines call Execute on it, and the goroutine that
 sends the action result runs beside them and shares the variable err with the call that started it.
 */
module JobProtocol {
  import opened Options
  import opened Counting
  import Runs

  datatype JobState = JobInitial | JobExecuting | JobFinished | JobError

  /** The two attributes a message is accepted by, and the owner the poller works for. */
  datatype Attributes = Attributes(owner: string, channel: string)
  datatype Message = Message(attributes: Option<Attributes>, ownerId: string)

  predicate IsForOwner(m: Message) {
    m.attributes.Some? && (m.attributes.value.owner == m.ownerId || m.attributes.value.channel == m.ownerId)
  }

  datatype Return = Ok | AlreadyRun | DeleteFailed | Invalid | ProcessFailed

  /** Where one call of Execute is. */
  datatype Exec =
    | Entered                        // executeMutex not yet taken
    | Locked                         // taken, the state not yet checked
    | Deleting                       // inside DeleteMessage
    | Checking                       // deleted, the attributes not yet checked
    | Handling                       // inside Handle
    | Handled                        // Handle has returned, the sender is not yet started
    | Judging                        // before err is read to decide the state
    | Unlocking(ret: Return)
    | Done(ret: Return)

  datatype Sender = NoSender | Sending | Sent

  datatype Shared = Shared(
    state: JobState,
    holder: Option<nat>,             // who holds executeMutex
    failed: bool,                    // err != nil, the variable shared with the sender
    sender: Sender)

  /** What the calls into other components answered. */
  datatype Answers = Answers(
    deleteOk: bool,
    hasResult: bool,
    handleFailed: bool,
    early: Option<bool>)             // the sender's error, if it was written before err was read

  datatype Effects = Effects(deletes: nat, handles: nat)

  datatype State = State(shared: Shared, answers: Answers, effects: Effects, calls: seq<Exec>)

  const Initial: State :=
    State(Shared(JobInitial, None, false, NoSender), Answers(false, false, false, None), Effects(0, 0), [])

  datatype Step =
    | Invoke
    | Advance(k: nat)
    | DeleteReturns(k: nat, ok: bool)
    | HandleReturns(k: nat, hasResult: bool, failed: bool)
    | SendReturns(failed: bool)

  datatype Effect = Effect(call: Exec, shared: Shared, effects: Effects)

  /** The next action of a call that waits for no other component. */
  function ExecNext(m: Message, s: State, k: nat): Option<Effect>
    requires k < |s.calls|
  {
    var g, n := s.shared, s.effects;
    match s.calls[k]
    case Entered => if g.holder == None then Some(Effect(Locked, g.(holder := Some(k)), n)) else None
    case Locked =>
      if g.state != JobInitial then Some(Effect(Unlocking(AlreadyRun), g, n))
      else Some(Effect(Deleting, g.(state := JobExecuting), n.(deletes := n.deletes + 1)))
    case Deleting => None
    case Checking =>
      if IsForOwner(m) then Some(Effect(Handling, g, n.(handles := n.handles + 1)))
      else Some(Effect(Unlocking(Invalid), g.(state := JobError), n))
    case Handling => None
    case Handled => Some(Effect(Judging, g.(sender := if s.answers.hasResult then Sending else NoSender), n))
    case Judging =>
      if g.failed then Some(Effect(Unlocking(ProcessFailed), g.(state := JobError), n))
      else Some(Effect(Unlocking(Ok), g.(state := JobFinished), n))
    case Unlocking(ret) => Some(Effect(Done(ret), g.(holder := None), n))
    case Done(_) => None
  }

  predicate At(s: State, k: nat, at: Exec) {
    k < |s.calls| && s.calls[k] == at
  }

  function Next(m: Message, s: State, step: Step): Option<State> {
    match step
    case Invoke => Some(s.(calls := s.calls + [Entered]))
    case Advance(k) =>
      if k >= |s.calls| then None else
      var e := ExecNext(m, s, k);
      if e.Some? then Some(State(e.value.shared, s.answers, e.value.effects, s.calls[k := e.value.call])) else None
    case DeleteReturns(k, ok) =>
      if !At(s, k, Deleting) then None else
      Some(State(if ok then s.shared else s.shared.(state := JobError),
                 s.answers.(deleteOk := ok), s.effects, s.calls[k := if ok then Checking else Unlocking(DeleteFailed)]))
    case HandleReturns(k, hasResult, failed) =>
      if !At(s, k, Handling) then None else
      Some(State(s.shared.(failed := failed), s.answers.(hasResult := hasResult, handleFailed := failed),
                 s.effects, s.calls[k := Handled]))
    case SendReturns(failed) =>
      if s.shared.sender != Sending then None else
      Some(State(s.shared.(failed := failed, sender := Sent),
                 if s.shared.state == JobExecuting then s.answers.(early := Some(failed)) else s.answers,
                 s.effects, s.calls))
  }

  function Steps(m: Message): (State, Step) -> Option<State> {
    (s, step) => Next(m, s, step)
  }

  ghost predicate Reachable(m: Message, s: State) {
    Runs.Reachable(Steps(m), Initial, s)
  }

  lemma Initially(m: Message)
    ensures Reachable(m, Initial)
  {
    Runs.Initially(Steps(m), Initial);
  }

  lemma Take(m: Message, s: State, step: Step) returns (s': State)
    requires Reachable(m, s) && Next(m, s, step).Some?
    ensures s' == Next(m, s, step).value && Reachable(m, s')
  {
    s' := Next(m, s, step).value;
    Runs.Further(Steps(m), Initial, s, step);
  }

  // ----- what a lone Execute does -----

  /** The error the outcome is judged by: the sender's, if it was there first, else Handle's. */
  function JudgedError(a: Answers): bool {
    if a.early.Some? then a.early.value else a.handleFailed
  }

  function FinalState(m: Message, a: Answers): JobState {
    if a.deleteOk && IsForOwner(m) && !JudgedError(a) then JobFinished else JobError
  }

  function FinalReturn(m: Message, a: Answers): Return {
    if !a.deleteOk then DeleteFailed
    else if !IsForOwner(m) then Invalid
    else if JudgedError(a) then ProcessFailed
    else Ok
  }

  // ----- the invariant -----

  predicate HoldsMutex(call: Exec) {
    !call.Entered? && !call.Done?
  }

  /** Past the state check, and not yet decided. */
  predicate IsRunning(call: Exec) {
    call.Deleting? || call.Checking? || call.Handling? || call.Handled? || call.Judging?
  }

  function ReturnOf(call: Exec): Option<Return> {
    match call
    case Unlocking(ret) => Some(ret)
    case Done(ret) => Some(ret)
    case _ => None
  }

  /** Passed the state check. */
  function WinnerWeight(call: Exec): nat {
    if IsRunning(call) || (ReturnOf(call).Some? && ReturnOf(call) != Some(AlreadyRun)) then 1 else 0
  }

  predicate IsTerminal(state: JobState) {
    state == JobFinished || state == JobError
  }

  /** What has happened by the time a call is in a given phase. */
  predicate Progress(m: Message, s: State, call: Exec) {
    var g, a, n := s.shared, s.answers, s.effects;
    match call
    case Deleting => n == Effects(1, 0) && g.sender == NoSender && a.early == None
    case Checking => n == Effects(1, 0) && g.sender == NoSender && a.early == None && a.deleteOk
    case Handling => n == Effects(1, 1) && g.sender == NoSender && a.early == None && a.deleteOk && IsForOwner(m)
    case Handled =>
      n == Effects(1, 1) && g.sender == NoSender && a.early == None && a.deleteOk && IsForOwner(m) && g.failed == a.handleFailed
    case Judging => n == Effects(1, 1) && a.deleteOk && IsForOwner(m) && g.failed == JudgedError(a)
    case _ => true
  }

  predicate CallFacts(m: Message, s: State, call: Exec) {
    && (IsRunning(call) ==> s.shared.state == JobExecuting && Progress(m, s, call))
    && (ReturnOf(call).Some? ==>
          IsTerminal(s.shared.state) && (ReturnOf(call) == Some(AlreadyRun) || ReturnOf(call) == Some(FinalReturn(m, s.answers))))
  }

  predicate StateFacts(m: Message, s: State) {
    match s.shared.state
    case JobInitial => s.effects == Effects(0, 0) && s.shared.sender == NoSender && s.answers.early == None
    case JobExecuting => s.shared.holder.Some? && IsRunningAt(s, s.shared.holder.value) && s.effects.deletes == 1
    case _ =>
      && s.effects == Effects(1, if s.answers.deleteOk && IsForOwner(m) then 1 else 0)
      && s.shared.state == FinalState(m, s.answers)
  }

  /** Call k is past the state check and not yet decided. */
  predicate IsRunningAt(s: State, k: nat) {
    k < |s.calls| && IsRunning(s.calls[k])
  }

  predicate Inv(m: Message, s: State) {
    && (forall k :: 0 <= k < |s.calls| ==> (HoldsMutex(s.calls[k]) <==> s.shared.holder == Some(k)))
    && (s.shared.holder.Some? ==> s.shared.holder.value < |s.calls|)
    && (forall k :: 0 <= k < |s.calls| ==> CallFacts(m, s, s.calls[k]))
    && StateFacts(m, s)
    && (s.answers.early.Some? || s.shared.sender != NoSender ==> s.answers.hasResult)
    && Sum(s.calls, WinnerWeight) == s.effects.deletes
  }

  lemma AdvanceKeepsInv(m: Message, s: State, k: nat, s': State)
    requires Inv(m, s) && Next(m, s, Advance(k)) == Some(s')
    ensures Inv(m, s')
  {
    assert CallFacts(m, s, s.calls[k]);
    assert HoldsMutex(s.calls[k]) <==> s.shared.holder == Some(k);
    SumUpdate(s.calls, k, s'.calls[k], WinnerWeight);
    AdvanceKeepsCalls(m, s, k, s');
  }

  lemma AdvanceKeepsCalls(m: Message, s: State, k: nat, s': State)
    requires Inv(m, s) && Next(m, s, Advance(k)) == Some(s')
    ensures forall i :: 0 <= i < |s'.calls| ==> CallFacts(m, s', s'.calls[i])
  {
    assert CallFacts(m, s, s.calls[k]);
    assert HoldsMutex(s.calls[k]) <==> s.shared.holder == Some(k);
    forall i | 0 <= i < |s'.calls|
      ensures CallFacts(m, s', s'.calls[i])
    {
      assert CallFacts(m, s, s.calls[i]);
      assert HoldsMutex(s.calls[i]) <==> s.shared.holder == Some(i);
    }
  }

  lemma AnswerKeepsInv(m: Message, s: State, k: nat, step: Step, s': State)
    requires Inv(m, s) && Next(m, s, step) == Some(s')
    requires (step.DeleteReturns? || step.HandleReturns?) && step.k == k
    ensures Inv(m, s')
  {
    assert CallFacts(m, s, s.calls[k]);
    assert HoldsMutex(s.calls[k]) <==> s.shared.holder == Some(k);
    SumUpdate(s.calls, k, s'.calls[k], WinnerWeight);
    forall i | 0 <= i < |s'.calls|
      ensures CallFacts(m, s', s'.calls[i])
    {
      assert CallFacts(m, s, s.calls[i]);
      assert HoldsMutex(s.calls[i]) <==> s.shared.holder == Some(i);
    }
  }

  lemma SendKeepsInv(m: Message, s: State, failed: bool, s': State)
    requires Inv(m, s) && Next(m, s, SendReturns(failed)) == Some(s')
    ensures Inv(m, s')
  {
    forall i | 0 <= i < |s'.calls|
      ensures CallFacts(m, s', s'.calls[i])
    {
      assert CallFacts(m, s, s.calls[i]);
    }
  }

  lemma StepKeepsInv(m: Message, s: State, step: Step, s': State)
    requires Inv(m, s) && Next(m, s, step) == Some(s')
    ensures Inv(m, s')
  {
    match step
    case Invoke => SumAppend(s.calls, Entered, WinnerWeight);
    case Advance(k) => AdvanceKeepsInv(m, s, k, s');
    case DeleteReturns(k, _) => AnswerKeepsInv(m, s, k, step, s');
    case HandleReturns(k, _, _) => AnswerKeepsInv(m, s, k, step, s');
    case SendReturns(failed) => SendKeepsInv(m, s, failed, s');
  }

  lemma ReachableInv(m: Message, s: State)
    requires Reachable(m, s)
    ensures Inv(m, s)
  {
    forall t, step | Inv(m, t) && Next(m, t, step).Some?
      ensures Inv(m, Next(m, t, step).value)
    {
      StepKeepsInv(m, t, step, Next(m, t, step).value);
    }
    Runs.Invariant(Steps(m), Initial, s, t => Inv(m, t));
  }
}
