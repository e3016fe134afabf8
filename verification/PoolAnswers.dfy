/**
 What Submit answers, and why: over every run, an answer says what was the case when it was decided, and a
 caller that is not disturbed gets the answer the configuration and the counters call for.
 */
module PoolAnswers {
  import opened Options
  import Runs
  import opened Pool
  import opened PoolInvariant

  /** Call k is a Submit of j that has answered o, or is about to. */
  predicate Answers(s: State, k: nat, j: Job, o: Outcome) {
    k < |s.calls| && (s.calls[k] == Submit(j, SubmitReturning(o)) || s.calls[k] == Submit(j, SubmitReturned(o)))
  }

  /** What a step may have done for a job whose Submit it makes answer true. */
  predicate IsTakenOn(c: Conf, s: State, s': State, j: Job) {
    || (|s.shared.channels.buffer| < c.queueSize && s'.shared.channels.buffer == s.shared.channels.buffer + [j])
    || (exists w :: 0 <= w < |s.workers| && s.workers[w] == Waiting && s'.workers == s.workers[w := Holding(j)])
    || s'.workers == s.workers + [Spawned(Some(j))]
  }

  lemma AdvanceAnswers(c: Conf, s: State, k: nat, j: Job, o: Outcome)
    requires c.Valid() && Inv(c, s) && k < |s.calls| && Next(c, s, Advance(k)).Some?
    requires !Answers(s, k, j, o) && Answers(Next(c, s, Advance(k)).value, k, j, o)
    ensures o == NotRunning <==> !s.shared.life.isRunning
    ensures o == Refused ==> s.shared.counts.current == c.maxWorkers
    ensures o == Accepted ==> IsTakenOn(c, s, Next(c, s, Advance(k)).value, j)
  {
    assert CallFacts(s.shared, s.calls[k]);
    assert s.workers + [] == s.workers;
  }

  /** The step in which a Submit gets its answer. */
  lemma AnswerIsRight(c: Conf, s: State, step: Step, k: nat, j: Job, o: Outcome)
    requires c.Valid() && Reachable(c, s) && Next(c, s, step).Some?
    requires !Answers(s, k, j, o) && Answers(Next(c, s, step).value, k, j, o)
    ensures o == NotRunning <==> !s.shared.life.isRunning
    ensures o == Refused ==>
              || (c.minWorkers == c.maxWorkers && |s.shared.channels.buffer| == c.queueSize)
              || s.shared.counts.current == c.maxWorkers
    ensures o == Accepted ==> IsTakenOn(c, s, Next(c, s, step).value, j)
  {
    ReachableInv(c, s);
    assert k < |s.calls|;
    assert CallFacts(s.shared, s.calls[k]);
    var s' := Next(c, s, step).value;
    match step
    case Invoke(_) =>
    case Advance(i) => AdvanceAnswers(c, s, k, j, o);
    case TakeDefault(i) =>
    case HandOff(i, w) => assert s.workers[w] == Waiting;
    case RunStep =>
    case Work(_) =>
    case Tick(_) =>
  }

  /** Submit passes its select without having placed the job only if the channel has no room for it. */
  lemma DefaultOnlyWhenFull(c: Conf, s: State, step: Step, k: nat, j: Job)
    requires c.Valid() && Reachable(c, s) && Next(c, s, step).Some? && k < |s.calls| && s.calls[k] == Submit(j, SubmitRunning)
    ensures var s' := Next(c, s, step).value;
            k < |s'.calls| && (s'.calls[k] == s.calls[k] || Answers(s', k, j, Accepted) || |s.shared.channels.buffer| == c.queueSize)
  {
    ReachableInv(c, s);
    assert CallFacts(s.shared, s.calls[k]);
  }

  // ----- undisturbed -----

  /** An elastic pool that has a place left grows by a worker for the job. */
  lemma LoneSubmitGrows(c: Conf, s: State, k: nat) returns (s': State)
    requires c.Valid() && Reachable(c, s) && AtSelect(s, k) && |s.shared.channels.buffer| == c.queueSize
    requires c.minWorkers < c.maxWorkers && s.shared.counts.current < c.maxWorkers
    ensures Runs.Run(Steps(c), s, [TakeDefault(k), Advance(k), Advance(k), Advance(k)], s')
    ensures Answers(s', k, s.calls[k].job, Accepted) && s'.workers == s.workers + [Spawned(Some(s.calls[k].job))]
    ensures s'.shared.counts.current == s.shared.counts.current + 1 && s'.shared.counts.waitGroup == s.shared.counts.waitGroup + 1
  {
    ReachableInv(c, s);
    assert CallFacts(s.shared, s.calls[k]);
    var s1 := Next(c, s, TakeDefault(k)).value;
    var s2 := Next(c, s1, Advance(k)).value;
    var s3 := Next(c, s2, Advance(k)).value;
    s' := Next(c, s3, Advance(k)).value;
    assert s.workers + [] == s.workers;
    RunOfFour(c, s, k, s1, s2, s3, s');
  }

  lemma RunOfFour(c: Conf, s: State, k: nat, s1: State, s2: State, s3: State, s4: State)
    requires c.Valid() && Next(c, s, TakeDefault(k)) == Some(s1) && Next(c, s1, Advance(k)) == Some(s2)
    requires Next(c, s2, Advance(k)) == Some(s3) && Next(c, s3, Advance(k)) == Some(s4)
    ensures Runs.Run(Steps(c), s, [TakeDefault(k), Advance(k), Advance(k), Advance(k)], s4)
  {
    var steps := [TakeDefault(k), Advance(k), Advance(k), Advance(k)];
    assert Runs.Run(Steps(c), s4, [], s4);
    assert Runs.Run(Steps(c), s3, steps[3..], s4);
    assert steps[2..][1..] == steps[3..];
    assert Runs.Run(Steps(c), s2, steps[2..], s4);
    assert steps[1..][1..] == steps[2..];
    assert Runs.Run(Steps(c), s1, steps[1..], s4);
  }

  /** One that has none left, and a pool of fixed size, refuse. */
  lemma LoneSubmitIsRefused(c: Conf, s: State, k: nat) returns (steps: seq<Step>, s': State)
    requires c.Valid() && Reachable(c, s) && AtSelect(s, k) && |s.shared.channels.buffer| == c.queueSize
    requires c.minWorkers == c.maxWorkers || s.shared.counts.current == c.maxWorkers
    ensures steps == if c.minWorkers == c.maxWorkers then [TakeDefault(k)] else [TakeDefault(k), Advance(k)]
    ensures Runs.Run(Steps(c), s, steps, s') && Answers(s', k, s.calls[k].job, Refused) && s'.workers == s.workers
  {
    ReachableInv(c, s);
    var s1 := Next(c, s, TakeDefault(k)).value;
    if c.minWorkers == c.maxWorkers {
      steps, s' := [TakeDefault(k)], s1;
      assert Runs.Run(Steps(c), s1, steps[1..], s1);
    } else {
      steps := [TakeDefault(k), Advance(k)];
      s' := Next(c, s1, Advance(k)).value;
      assert s.workers + [] == s.workers;
      assert Runs.Run(Steps(c), s', steps[1..][1..], s');
      assert Runs.Run(Steps(c), s1, steps[1..], s');
    }
  }

  /** With room in the channel the job goes there, and with a worker at its receive it may go to that. */
  lemma LoneSubmitIsPlaced(c: Conf, s: State, k: nat)
    requires c.Valid() && Reachable(c, s) && AtSelect(s, k)
    ensures var j := s.calls[k].job;
            |s.shared.channels.buffer| < c.queueSize ==>
              var s' := Next(c, s, Advance(k));
              s'.Some? && Answers(s'.value, k, j, Accepted) && s'.value.shared.channels.buffer == s.shared.channels.buffer + [j]
    ensures var j := s.calls[k].job;
            s.shared.channels.buffer == [] ==> forall w :: 0 <= w < |s.workers| && s.workers[w] == Waiting ==>
              var s' := Next(c, s, HandOff(k, w));
              s'.Some? && Answers(s'.value, k, j, Accepted) && s'.value.workers == s.workers[w := Holding(j)]
  {
    ReachableInv(c, s);
  }
}
