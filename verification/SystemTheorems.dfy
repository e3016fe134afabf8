/**
 What becomes of every message in the whole program, and a run that shows for which configurations only: a
 pool without a minimum buffers a message for which it never has a worker.
 */
module SystemTheorems {
  import opened Options
  import opened ReadWriteLock
  import Pool
  import J = JobProtocol
  import L = Lifecycle
  import D = Delivery
  import S = System
  import opened System
  import opened SystemProof

  // ----- the run in which a message is lost -----

  function PoolWith(buffer: seq<Pool.Job>, life: Pool.Life, calls: seq<Pool.Call>): Pool.State {
    Pool.State(Pool.Shared(Pool.Counts(0, 0, 0), Pool.Channels(buffer, false, false), life, FREE), [], calls, multiset{})
  }

  /** The pool once it is started, with no worker, and whatever has been submitted in its buffer. */
  function RunningPool(buffer: seq<Pool.Job>, submits: seq<Pool.Call>): Pool.State {
    PoolWith(buffer, Pool.Life(true, Pool.Watching, false, Pool.NoFault), [Pool.Start(Pool.StartReturned(true))] + submits)
  }

  function Serving(pool: Pool.State, loop: L.LoopAt, owner: map<nat, nat>): L.State {
    L.State(pool, L.Proc(L.Up, L.Looping, L.NoPuller, false, L.PoolCalls(Some(0), None)), [L.PollerLife(loop, false, 0)], owner)
  }

  const ACCEPTED: Pool.Call := Pool.Submit(0, Pool.SubmitReturned(Pool.Accepted))

  function LostMessage(message: J.Message): D.Received {
    D.Received(message, 0, Some(1), 0, J.Initial)
  }

  function WithPool(s: S.State, pool: Pool.State): S.State {
    S.State(s.life.(pool := pool), s.delivery.(pool := pool), s.polled)
  }

  /** n actions of call k, one after the other. */
  function Advances(c: Pool.Conf, pool: Pool.State, k: nat, n: nat): Option<Pool.State>
    requires c.Valid()
    decreases n
  {
    if n == 0 then Some(pool) else
    var next := Pool.Next(c, pool, Pool.Advance(k));
    if next.None? then None else Advances(c, next.value, k, n - 1)
  }

  lemma PoolAdvancesOnce(c: Pool.Conf, s: S.State, k: nat) returns (s': S.State)
    requires c.Valid() && S.Reachable(c, s) && s.life.pool == s.delivery.pool && Pool.Next(c, s.life.pool, Pool.Advance(k)).Some?
    ensures S.Reachable(c, s') && s' == WithPool(s, Pool.Next(c, s.life.pool, Pool.Advance(k)).value)
  {
    s' := S.Take(c, s, PoolStep(Pool.Advance(k)));
  }

  lemma {:induction false} PoolAdvances(c: Pool.Conf, s: S.State, k: nat, n: nat) returns (s': S.State)
    requires c.Valid() && S.Reachable(c, s) && s.life.pool == s.delivery.pool && Advances(c, s.life.pool, k, n).Some?
    ensures S.Reachable(c, s') && s' == WithPool(s, Advances(c, s.life.pool, k, n).value)
    decreases n
  {
    s' := s;
    if n > 0 {
      s' := PoolAdvancesOnce(c, s, k);
      s' := PoolAdvances(c, s', k, n - 1);
    }
  }

  lemma StartAdvances(c: Pool.Conf)
    requires c.Valid() && c.minWorkers == 0
    ensures Advances(c, PoolWith([], Pool.Life(false, Pool.NotStarted, false, Pool.NoFault), [Pool.Start(Pool.StartCalled)]), 0, 6)
         == Some(RunningPool([], []))
  {
    var p0 := PoolWith([], Pool.Life(false, Pool.NotStarted, false, Pool.NoFault), [Pool.Start(Pool.StartCalled)]);
    var p1 := Pool.Next(c, p0, Pool.Advance(0)).value;
    var p2 := Pool.Next(c, p1, Pool.Advance(0)).value;
    var p3 := Pool.Next(c, p2, Pool.Advance(0)).value;
    var p4 := Pool.Next(c, p3, Pool.Advance(0)).value;
    var p5 := Pool.Next(c, p4, Pool.Advance(0)).value;
    var p6 := Pool.Next(c, p5, Pool.Advance(0)).value;
    assert p6.workers == [] && p6.calls == RunningPool([], []).calls;
    assert p6 == RunningPool([], []);
    assert Advances(c, p5, 0, 1) == Some(RunningPool([], []));
    assert Advances(c, p4, 0, 2) == Some(RunningPool([], []));
    assert Advances(c, p3, 0, 3) == Some(RunningPool([], []));
    assert Advances(c, p2, 0, 4) == Some(RunningPool([], []));
    assert Advances(c, p1, 0, 5) == Some(RunningPool([], []));
  }

  lemma SubmitAdvances(c: Pool.Conf)
    requires c.Valid() && c.minWorkers == 0 && c.queueSize > 0
    ensures Advances(c, RunningPool([], [Pool.Submit(0, Pool.SubmitCalled)]), 1, 4) == Some(RunningPool([0], [ACCEPTED]))
  {
    var p0 := RunningPool([], [Pool.Submit(0, Pool.SubmitCalled)]);
    var p1 := Pool.Next(c, p0, Pool.Advance(1)).value;
    var p2 := Pool.Next(c, p1, Pool.Advance(1)).value;
    var p3 := Pool.Next(c, p2, Pool.Advance(1)).value;
    var p4 := Pool.Next(c, p3, Pool.Advance(1)).value;
    assert p4.workers == [] && p4.calls == RunningPool([0], [ACCEPTED]).calls;
    assert p4 == RunningPool([0], [ACCEPTED]);
    assert Advances(c, p3, 1, 1) == Some(RunningPool([0], [ACCEPTED]));
    assert Advances(c, p2, 1, 2) == Some(RunningPool([0], [ACCEPTED]));
    assert Advances(c, p1, 1, 3) == Some(RunningPool([0], [ACCEPTED]));
  }

  function StoppedPool(): Pool.State {
    Pool.State(Pool.Shared(Pool.Counts(0, 0, 0), Pool.Channels([0], false, true), Pool.Life(false, Pool.Watching, true, Pool.NoFault), FREE),
               [], [Pool.Start(Pool.StartReturned(true)), ACCEPTED, Pool.Stop(Pool.StopReturned(true))], multiset{})
  }

  lemma StopAdvances(c: Pool.Conf)
    requires c.Valid()
    ensures Advances(c, RunningPool([0], [ACCEPTED, Pool.Stop(Pool.StopCalled)]), 2, 6) == Some(StoppedPool())
  {
    var p0 := RunningPool([0], [ACCEPTED, Pool.Stop(Pool.StopCalled)]);
    var p1 := Pool.Next(c, p0, Pool.Advance(2)).value;
    var p2 := Pool.Next(c, p1, Pool.Advance(2)).value;
    var p3 := Pool.Next(c, p2, Pool.Advance(2)).value;
    var p4 := Pool.Next(c, p3, Pool.Advance(2)).value;
    var p5 := Pool.Next(c, p4, Pool.Advance(2)).value;
    var p6 := Pool.Next(c, p5, Pool.Advance(2)).value;
    assert p6.workers == [] && p6.calls == StoppedPool().calls;
    assert p6 == StoppedPool();
    assert Advances(c, p5, 2, 1) == Some(StoppedPool());
    assert Advances(c, p4, 2, 2) == Some(StoppedPool());
    assert Advances(c, p3, 2, 3) == Some(StoppedPool());
    assert Advances(c, p2, 2, 4) == Some(StoppedPool());
    assert Advances(c, p1, 2, 5) == Some(StoppedPool());
  }

  /** The steps of the processor alone, one after the other. */
  function Processed(c: Pool.Conf, life: L.State, steps: seq<L.Step>): Option<L.State>
    requires c.Valid()
    decreases |steps|
  {
    if steps == [] then Some(life) else
    var next := L.Next(c, life, steps[0]);
    if next.None? then None else Processed(c, next.value, steps[1..])
  }

  lemma {:induction false} Processes(c: Pool.Conf, s: S.State, steps: seq<L.Step>) returns (s': S.State)
    requires c.Valid() && S.Reachable(c, s) && Processed(c, s.life, steps).Some?
    requires forall i :: 0 <= i < |steps| ==> IsProcessOnly(steps[i])
    ensures S.Reachable(c, s') && s' == s.(life := Processed(c, s.life, steps).value)
    decreases |steps|
  {
    s' := s;
    if steps != [] {
      s' := S.Take(c, s, Process(steps[0]));
      s' := Processes(c, s', steps[1..]);
    }
  }

  /** The processor starts its pool, which has no worker to begin with. */
  lemma PoolStarts(c: Pool.Conf) returns (s: S.State)
    requires c.Valid() && c.minWorkers == 0
    ensures S.Reachable(c, s)
    ensures s == S.State(L.State(RunningPool([], []), L.Proc(L.StartingPool, L.NotLaunched, L.NoPuller, false, L.PoolCalls(Some(0), None)), [], map[]),
                         D.State(RunningPool([], []), [], [], map[]), {})
  {
    S.Initially(c);
    s := S.Take(c, S.Initial, Process(L.Prepare(true, false)));
    s := S.Take(c, s, Main);
    s := S.Take(c, s, Main);
    assert s.life.pool == PoolWith([], Pool.Life(false, Pool.NotStarted, false, Pool.NoFault), [Pool.Start(Pool.StartCalled)]);
    StartAdvances(c);
    s := PoolAdvances(c, s, 0, 6);
  }

  /** It starts a poller. */
  lemma PollerStarts(c: Pool.Conf) returns (s: S.State)
    requires c.Valid() && c.minWorkers == 0
    ensures S.Reachable(c, s)
    ensures s == S.State(Serving(RunningPool([], []), L.LoopTop, map[]), D.State(RunningPool([], []), [], [D.Idle], map[]), {})
  {
    s := PoolStarts(c);
    s := S.Take(c, s, Main);
    s := S.Take(c, s, AddPoller);
    s := S.Take(c, s, Main);
  }

  lemma PollBegins(c: Pool.Conf) returns (s: S.State)
    requires c.Valid() && c.minWorkers == 0
    ensures S.Reachable(c, s)
    ensures s == S.State(Serving(RunningPool([], []), L.Polling, map[]), D.State(RunningPool([], []), [], [D.Idle], map[]), {})
  {
    s := PollerStarts(c);
    s := S.Take(c, s, Process(L.Loop(0, false)));
  }

  /** Which receives a message. */
  lemma MessageArrives(c: Pool.Conf, message: J.Message) returns (s: S.State)
    requires c.Valid() && c.minWorkers == 0
    ensures S.Reachable(c, s)
    ensures s == S.State(Serving(RunningPool([], []), L.Polling, map[]),
                         D.State(RunningPool([], []), [D.Received(message, 0, None, 0, J.Initial)], [D.AtMessage(0, 1)], map[]), {0})
  {
    s := PollBegins(c);
    s := S.Take(c, s, Receive(0, [message]));
  }

  /** And submits it: the pool takes it into its buffer. */
  lemma MessageIsSubmitted(c: Pool.Conf, message: J.Message) returns (s: S.State)
    requires c.Valid() && c.minWorkers == 0 && c.queueSize > 0
    ensures S.Reachable(c, s)
    ensures s == S.State(Serving(RunningPool([0], [ACCEPTED]), L.Submitting(1), map[1 := 0]),
                         D.State(RunningPool([0], [ACCEPTED]), [LostMessage(message)], [D.InSubmit(0, 1, 1)], map[]), {0})
  {
    s := MessageArrives(c, message);
    s := S.Take(c, s, Submit(0));
    SubmitAdvances(c);
    assert s.life.pool == RunningPool([], [Pool.Submit(0, Pool.SubmitCalled)]);
    s := PoolAdvances(c, s, 1, 4);
  }

  lemma SubmitIsDone(c: Pool.Conf, message: J.Message) returns (s: S.State)
    requires c.Valid() && c.minWorkers == 0 && c.queueSize > 0
    ensures S.Reachable(c, s)
    ensures s == S.State(Serving(RunningPool([0], [ACCEPTED]), L.Polling, map[1 := 0]),
                         D.State(RunningPool([0], [ACCEPTED]), [LostMessage(message)], [D.Idle], map[]), {0})
  {
    s := MessageIsSubmitted(c, message);
    s := S.Take(c, s, SubmitReturns(0));
  }

  lemma PollIsDone(c: Pool.Conf, message: J.Message) returns (s: S.State)
    requires c.Valid() && c.minWorkers == 0 && c.queueSize > 0
    ensures S.Reachable(c, s)
    ensures s == S.State(Serving(RunningPool([0], [ACCEPTED]), L.Pausing, map[1 := 0]),
                         D.State(RunningPool([0], [ACCEPTED]), [LostMessage(message)], [D.Idle], map[]), {})
  {
    s := SubmitIsDone(c, message);
    s := S.Take(c, s, PollEnds(0, true));
  }

  function Quitting(pool: Pool.State, runner: L.Runner, loop: L.LoopAt, quit: bool): L.State {
    L.State(pool, L.Proc(L.AwaitingGoroutines, runner, L.NoPuller, true, L.PoolCalls(Some(0), None)), [L.PollerLife(loop, quit, 0)], map[1 := 0])
  }

  /** What Stop makes of the processor before it stops the pool. */
  lemma QuitProcessed(c: Pool.Conf, pool: Pool.State)
    requires c.Valid()
    ensures Processed(c, Serving(pool, L.Pausing, map[1 := 0]), [L.CallStop, L.RunnerSeesQuit, L.StopPoller(0)])
         == Some(Quitting(pool, L.QuittingOne(0), L.Pausing, true))
    ensures Processed(c, Quitting(pool, L.QuittingOne(0), L.Pausing, true), [L.Loop(0, false), L.Loop(0, false), L.RunnerStep, L.RunnerStep])
         == Some(Quitting(pool, L.RunnerDone, L.LoopEnded, true))
  {
    var a0 := Serving(pool, L.Pausing, map[1 := 0]);
    var a1 := L.Next(c, a0, L.CallStop).value;
    var a2 := L.Next(c, a1, L.RunnerSeesQuit).value;
    var a3 := L.Next(c, a2, L.StopPoller(0)).value;
    assert a3.pollers == [L.PollerLife(L.Pausing, true, 0)];
    assert Processed(c, a2, [L.StopPoller(0)]) == Some(Quitting(pool, L.QuittingOne(0), L.Pausing, true));
    assert [L.RunnerSeesQuit, L.StopPoller(0)][1..] == [L.StopPoller(0)];
    assert [L.CallStop, L.RunnerSeesQuit, L.StopPoller(0)][1..] == [L.RunnerSeesQuit, L.StopPoller(0)];
    var b0 := Quitting(pool, L.QuittingOne(0), L.Pausing, true);
    var b1 := L.Next(c, b0, L.Loop(0, false)).value;
    var b2 := L.Next(c, b1, L.Loop(0, false)).value;
    var b3 := L.Next(c, b2, L.RunnerStep).value;
    assert b2.pollers == [L.PollerLife(L.LoopEnded, true, 0)];
    assert Processed(c, b3, [L.RunnerStep]) == Some(Quitting(pool, L.RunnerDone, L.LoopEnded, true));
    assert [L.RunnerStep, L.RunnerStep][1..] == [L.RunnerStep];
    assert [L.Loop(0, false), L.RunnerStep, L.RunnerStep][1..] == [L.RunnerStep, L.RunnerStep];
    assert [L.Loop(0, false), L.Loop(0, false), L.RunnerStep, L.RunnerStep][1..] == [L.Loop(0, false), L.RunnerStep, L.RunnerStep];
  }

  lemma PollerEnds(c: Pool.Conf, message: J.Message) returns (s: S.State)
    requires c.Valid() && c.minWorkers == 0 && c.queueSize > 0
    ensures S.Reachable(c, s)
    ensures s == S.State(Quitting(RunningPool([0], [ACCEPTED]), L.RunnerDone, L.LoopEnded, true),
                         D.State(RunningPool([0], [ACCEPTED]), [LostMessage(message)], [D.Idle], map[]), {})
  {
    s := PollIsDone(c, message);
    QuitProcessed(c, s.life.pool);
    s := Processes(c, s, [L.CallStop, L.RunnerSeesQuit, L.StopPoller(0)]);
    s := Processes(c, s, [L.Loop(0, false), L.Loop(0, false), L.RunnerStep, L.RunnerStep]);
  }

  function Stopping(pool: Pool.State): L.State {
    L.State(pool, L.Proc(L.StoppingPool, L.RunnerDone, L.NoPuller, true, L.PoolCalls(Some(0), Some(2))), [L.PollerLife(L.LoopEnded, true, 0)], map[1 := 0])
  }

  lemma PoolStopIsCalled(c: Pool.Conf, message: J.Message) returns (s: S.State)
    requires c.Valid() && c.minWorkers == 0 && c.queueSize > 0
    ensures S.Reachable(c, s)
    ensures var pool := RunningPool([0], [ACCEPTED, Pool.Stop(Pool.StopCalled)]);
            s == S.State(Stopping(pool), D.State(pool, [LostMessage(message)], [D.Idle], map[]), {})
  {
    s := PollerEnds(c, message);
    s := S.Take(c, s, Main);
    assert s.life.pool == RunningPool([0], [ACCEPTED, Pool.Stop(Pool.StopCalled)]);
  }

  /** At last the pool is stopped, which has no worker to wait for. */
  lemma PoolStops(c: Pool.Conf, message: J.Message) returns (s: S.State)
    requires c.Valid() && c.minWorkers == 0 && c.queueSize > 0
    ensures S.Reachable(c, s)
    ensures s == S.State(Stopping(StoppedPool()), D.State(StoppedPool(), [LostMessage(message)], [D.Idle], map[]), {})
  {
    s := PoolStopIsCalled(c, message);
    StopAdvances(c);
    s := PoolAdvances(c, s, 2, 6);
  }

  lemma MessageIsLost(c: Pool.Conf, message: J.Message) returns (s: S.State)
    requires c.Valid() && c.minWorkers == 0 && c.queueSize > 0
    ensures S.Reachable(c, s) && IsOver(s)
    ensures s.delivery.msgs == [LostMessage(message)] && s.delivery.pool.executed == multiset{}
  {
    s := PoolStops(c, message);
    s := S.Take(c, s, Main);
  }

  ghost predicate AlwaysSettles(c: Pool.Conf)
    requires c.Valid()
  {
    forall s, m :: S.Reachable(c, s) && 0 <= m < |s.delivery.msgs| && IsOver(s) ==> IsSettled(s.delivery, m)
  }

  /** Every message is settled in every run exactly for the configurations with a minimum or without a buffer. */
  lemma SettlesExactlyWhen(c: Pool.Conf)
    requires c.Valid()
    ensures AlwaysSettles(c) <==> c.minWorkers >= 1 || c.queueSize == 0
  {
    if c.minWorkers >= 1 || c.queueSize == 0 {
      forall s, m | S.Reachable(c, s) && 0 <= m < |s.delivery.msgs| && IsOver(s)
        ensures IsSettled(s.delivery, m)
      {
        EveryMessageIsSettled(c, s, m);
      }
    } else {
      var s := MessageIsLost(c, J.Message(None, ""));
      assert !IsSettled(s.delivery, 0);
    }
  }
}
