/**
 What the job protocol promises: a job runs once however often Execute is called, and when its final state
 can be trusted to say what the handler said.
 */
module JobTheorems {
  import opened Options
  import opened Counting
  import opened JobProtocol

  /**
   However many goroutines call Execute: one message deletion, one handling, and that only of a message
   this owner accepts and after its deletion has succeeded.
   */
  lemma OneShot(m: Message, s: State)
    requires Reachable(m, s)
    ensures s.effects.deletes <= 1 && s.effects.handles <= s.effects.deletes
    ensures Sum(s.calls, WinnerWeight) == s.effects.deletes
    ensures s.effects.handles == 1 ==>
              s.answers.deleteOk && m.attributes.Some?
              && (m.attributes.value.owner == m.ownerId || m.attributes.value.channel == m.ownerId)
  {
    ReachableInv(m, s);
    OneShotInv(m, s);
  }

  lemma OneShotInv(m: Message, s: State)
    requires Inv(m, s)
    ensures s.effects.deletes <= 1 && s.effects.handles <= s.effects.deletes
    ensures s.effects.handles == 1 ==> s.answers.deleteOk && IsForOwner(m)
  {
    if s.shared.state == JobExecuting {
      assert CallFacts(m, s, s.calls[s.shared.holder.value]);
    }
  }

  /** A call that has its answer found the job finished or failed: one call decided that, all others were turned away. */
  lemma OneCallDecides(m: Message, s: State, k: nat)
    requires Reachable(m, s) && k < |s.calls| && s.calls[k].Done?
    ensures IsTerminal(s.shared.state) && Sum(s.calls, WinnerWeight) == 1
    ensures s.calls[k].ret == AlreadyRun || s.calls[k].ret == FinalReturn(m, s.answers)
    ensures s.shared.state == FinalState(m, s.answers)
    ensures s.calls[k].ret != AlreadyRun ==> (s.calls[k].ret == Ok <==> s.shared.state == JobFinished)
    ensures s.effects.deletes == 1
    ensures s.effects.handles == 1 <==>
              s.answers.deleteOk && m.attributes.Some?
              && (m.attributes.value.owner == m.ownerId || m.attributes.value.channel == m.ownerId)
    ensures s.shared.state == JobFinished <==>
              s.effects.handles == 1 && !(s.answers.early == Some(true) || (s.answers.early == None && s.answers.handleFailed))
  {
    ReachableInv(m, s);
    assert CallFacts(m, s, s.calls[k]);
  }

  /** The state only moves from initial to executing to finished or failed, and the last two are final. */
  predicate Moves(before: JobState, after: JobState) {
    || after == before
    || (before == JobInitial && after == JobExecuting)
    || (before == JobExecuting && IsTerminal(after))
  }

  lemma StateMoves(m: Message, s: State, step: Step)
    requires Reachable(m, s) && Next(m, s, step).Some?
    ensures Moves(s.shared.state, Next(m, s, step).value.shared.state)
  {
    ReachableInv(m, s);
    InvMoves(m, s, step);
  }

  lemma InvMoves(m: Message, s: State, step: Step)
    requires Inv(m, s) && Next(m, s, step).Some?
    ensures Moves(s.shared.state, Next(m, s, step).value.shared.state)
  {
    if !step.Invoke? && !step.SendReturns? && step.k < |s.calls| {
      assert CallFacts(m, s, s.calls[step.k]);
    }
  }

  // ----- when the final state tells what the handler said -----

  /** The job is marked finished exactly if the handler reported no error. */
  predicate TellsHandlersAnswer(s: State) {
    s.shared.state == JobFinished <==> !s.answers.handleFailed
  }

  /**
   The sender shares the variable the outcome is read from, so the mark can be trusted exactly if the
   sender's answer did not arrive before the read, or agreed with the handler's.
   */
  lemma TellsHandlersAnswerExactlyWhen(m: Message, s: State)
    requires Reachable(m, s) && IsTerminal(s.shared.state) && s.effects.handles == 1
    ensures TellsHandlersAnswer(s) <==> s.answers.early == None || s.answers.early.value == s.answers.handleFailed
  {
    ReachableInv(m, s);
  }

  /** A lone call of Execute up to the point where the result is being sent and err is about to be read. */
  lemma LoneHandling(m: Message, failed: bool) returns (s: State)
    requires IsForOwner(m)
    ensures Reachable(m, s)
    ensures s == State(Shared(JobExecuting, Some(0), failed, Sending), Answers(true, true, failed, None), Effects(1, 1), [Judging])
  {
    Initially(m);
    s := Take(m, Initial, Invoke);
    s := Take(m, s, Advance(0));
    s := Take(m, s, Advance(0));
    s := Take(m, s, DeleteReturns(0, true));
    s := Take(m, s, Advance(0));
    s := Take(m, s, HandleReturns(0, true, failed));
    s := Take(m, s, Advance(0));
  }

  /** The race in both directions: a handled job marked failed, and a failed one marked finished. */
  lemma SenderCanOverruleHandler(m: Message, failed: bool) returns (s: State)
    requires IsForOwner(m)
    ensures Reachable(m, s) && s.effects.handles == 1 && s.answers.handleFailed == failed
    ensures s.answers.hasResult && s.shared.state == (if failed then JobFinished else JobError) && !TellsHandlersAnswer(s)
  {
    s := LoneHandling(m, failed);
    s := Take(m, s, SendReturns(!failed));
    s := Take(m, s, Advance(0));
  }

  /** Whenever a job of message m has been handled, with or without a result, its mark tells the handler's answer. */
  ghost predicate AlwaysTells(m: Message, hasResult: bool) {
    forall s :: Reachable(m, s) && IsTerminal(s.shared.state) && s.effects.handles == 1 && s.answers.hasResult == hasResult ==>
      TellsHandlersAnswer(s)
  }

  /** The mark can be trusted in every run exactly if Handle returns no result, or never runs for this message. */
  lemma AlwaysTellsExactlyWhen(m: Message, hasResult: bool)
    ensures AlwaysTells(m, hasResult) <==> !hasResult || !IsForOwner(m)
  {
    if hasResult && IsForOwner(m) {
      var s := SenderCanOverruleHandler(m, true);
      assert !AlwaysTells(m, hasResult);
    } else {
      forall s | Reachable(m, s) && IsTerminal(s.shared.state) && s.effects.handles == 1 && s.answers.hasResult == hasResult
        ensures TellsHandlersAnswer(s)
      {
        ReachableInv(m, s);
      }
    }
  }

  // ----- handled, whichever attribute it is -----

  /** A lone call of Execute on a message one of whose attributes names the owner, with or without a result. */
  lemma LoneExecuteHandles(m: Message, hasResult: bool, failed: bool) returns (s: State)
    requires m.attributes.Some? && (m.attributes.value.owner == m.ownerId || m.attributes.value.channel == m.ownerId)
    ensures Reachable(m, s) && s.effects == Effects(1, 1) && |s.calls| == 1
    ensures s.answers == Answers(true, hasResult, failed, None)
    ensures s.calls[0] == Done(if failed then ProcessFailed else Ok) && s.shared.state == if failed then JobError else JobFinished
  {
    s := LoneUpToHandle(m);
    s := Take(m, s, HandleReturns(0, hasResult, failed));
    s := Take(m, s, Advance(0));
    s := Take(m, s, Advance(0));
    s := Take(m, s, Advance(0));
  }

  lemma LoneUpToHandle(m: Message) returns (s: State)
    requires m.attributes.Some? && (m.attributes.value.owner == m.ownerId || m.attributes.value.channel == m.ownerId)
    ensures Reachable(m, s)
    ensures s == State(Shared(JobExecuting, Some(0), false, NoSender), Answers(true, false, false, None), Effects(1, 1), [Handling])
  {
    Initially(m);
    s := Take(m, Initial, Invoke);
    s := Take(m, s, Advance(0));
    s := Take(m, s, Advance(0));
    s := Take(m, s, DeleteReturns(0, true));
    s := Take(m, s, Advance(0));
  }

  /** Some run handles the message exactly if one of its two attributes names the owner; either alone will do. */
  lemma CanBeHandledExactlyWhen(m: Message)
    ensures (exists s :: Reachable(m, s) && s.effects.handles == 1)
       <==> m.attributes.Some? && (m.attributes.value.owner == m.ownerId || m.attributes.value.channel == m.ownerId)
  {
    if m.attributes.Some? && (m.attributes.value.owner == m.ownerId || m.attributes.value.channel == m.ownerId) {
      var s := LoneExecuteHandles(m, false, false);
    } else if s :| Reachable(m, s) && s.effects.handles == 1 {
      OneShot(m, s);
    }
  }

  /** However many calls there are, one that is not finished can go on, or waits for one that can, or for another component. */
  lemma NobodyIsStuck(m: Message, s: State, k: nat) returns (step: Step)
    requires Reachable(m, s) && k < |s.calls| && !s.calls[k].Done?
    ensures !step.Invoke? && Next(m, s, step).Some?
  {
    ReachableInv(m, s);
    var i := if s.calls[k].Entered? && s.shared.holder.Some? then s.shared.holder.value else k;
    assert HoldsMutex(s.calls[i]) <==> s.shared.holder == Some(i);
    step := if s.calls[i].Deleting? then DeleteReturns(i, true)
            else if s.calls[i].Handling? then HandleReturns(i, false, false)
            else Advance(i);
  }
}
