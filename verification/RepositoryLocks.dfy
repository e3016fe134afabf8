/**
 The per-repository reader/writer locks of git/repository.go as a protocol: any number of message handlers,
 pulls and removals run at once. A handler of a git action holds the read lock from before it assembles the
 command until after the script has returned.
 */
module RepositoryLocks {
  import opened Options
  import opened ReadWriteLock
  import Runs

  type Repo = nat

  datatype Source = Git(url: Repo) | Local | Unknown

  datatype Thread =
    | HandlerCalled(source: Source)
    | HandlerWaiting(repo: Repo)         // before RLock
    | HandlerLocked(repo: Repo)          // RLock held, the script not yet started
    | ScriptRunning(repo: Repo)
    | HandlerReturning(repo: Repo)       // the script has ended one way or the other, RUnlock is deferred
    | LocalRunning                       // a script that belongs to no repository
    | HandlerDone(ran: bool)
    | PullCalled(repo: Repo)             // before Lock
    | Fetching(repo: Repo)
    | Chmodding(repo: Repo)              // the deferred chmod, which runs before the deferred Unlock
    | PullDone
    | RemoveCalled(repo: Repo)
    | Removing(repo: Repo)
    | RemoveDone

  datatype State = State(locks: map<Repo, RWLock>, threads: seq<Thread>)

  datatype Step = Invoke(thread: Thread) | Advance(i: nat)

  /** The repositories are downloaded before anything else runs, and none is added later. */
  function Initial(repos: set<Repo>): State {
    State(map r | r in repos :: FREE, [])
  }

  /** A handler may ask for any repository; pulls and removals go over those there are. */
  predicate IsCall(s: State, t: Thread) {
    t.HandlerCalled? || ((t.PullCalled? || t.RemoveCalled?) && t.repo in s.locks)
  }

  function Put(s: State, i: nat, t: Thread): State
    requires i < |s.threads|
  {
    s.(threads := s.threads[i := t])
  }

  /** Thread i goes on, with the lock of r as it leaves it. */
  function PutLocked(s: State, i: nat, t: Thread, r: Repo, lock: RWLock): State
    requires i < |s.threads|
  {
    State(s.locks[r := lock], s.threads[i := t])
  }

  function ReadLock(s: State, i: nat, r: Repo, t: Thread): Option<State>
    requires i < |s.threads|
  {
    if r in s.locks && s.locks[r].CanRead() then Some(PutLocked(s, i, t, r, s.locks[r].RLock(i))) else None
  }

  function ReadUnlock(s: State, i: nat, r: Repo, t: Thread): Option<State>
    requires i < |s.threads|
  {
    if r in s.locks then Some(PutLocked(s, i, t, r, s.locks[r].RUnlock(i))) else None
  }

  function WriteLock(s: State, i: nat, r: Repo, t: Thread): Option<State>
    requires i < |s.threads|
  {
    if r in s.locks && s.locks[r].CanWrite() then Some(PutLocked(s, i, t, r, s.locks[r].Lock(i))) else None
  }

  function WriteUnlock(s: State, i: nat, r: Repo, t: Thread): Option<State>
    requires i < |s.threads|
  {
    if r in s.locks then Some(PutLocked(s, i, t, r, s.locks[r].Unlock())) else None
  }

  function ThreadNext(s: State, i: nat): Option<State>
    requires i < |s.threads|
  {
    match s.threads[i]
    case HandlerCalled(Git(r)) => Some(Put(s, i, if r in s.locks then HandlerWaiting(r) else HandlerDone(false)))
    case HandlerCalled(Local) => Some(Put(s, i, LocalRunning))
    case HandlerCalled(Unknown) => Some(Put(s, i, HandlerDone(false)))
    case HandlerWaiting(r) => ReadLock(s, i, r, HandlerLocked(r))
    case HandlerLocked(r) => Some(Put(s, i, ScriptRunning(r)))
    case ScriptRunning(r) => Some(Put(s, i, HandlerReturning(r)))
    case HandlerReturning(r) => ReadUnlock(s, i, r, HandlerDone(true))
    case LocalRunning => Some(Put(s, i, HandlerDone(true)))
    case HandlerDone(_) => None
    case PullCalled(r) => WriteLock(s, i, r, Fetching(r))
    case Fetching(r) => Some(Put(s, i, Chmodding(r)))
    case Chmodding(r) => WriteUnlock(s, i, r, PullDone)
    case PullDone => None
    case RemoveCalled(r) => WriteLock(s, i, r, Removing(r))
    case Removing(r) => WriteUnlock(s, i, r, RemoveDone)
    case RemoveDone => None
  }

  function Next(s: State, step: Step): Option<State> {
    match step
    case Invoke(t) => if IsCall(s, t) then Some(s.(threads := s.threads + [t])) else None
    case Advance(i) => if i < |s.threads| then ThreadNext(s, i) else None
  }

  ghost predicate Reachable(s: State) {
    exists repos :: Runs.Reachable(Next, Initial(repos), s)
  }

  // ----- the invariant -----

  predicate Reads(t: Thread, r: Repo) {
    (t.HandlerLocked? || t.ScriptRunning? || t.HandlerReturning?) && t.repo == r
  }

  predicate Writes(t: Thread, r: Repo) {
    (t.Fetching? || t.Chmodding? || t.Removing?) && t.repo == r
  }

  predicate LockFacts(lock: RWLock, threads: seq<Thread>, r: Repo) {
    && Exclusive(lock, |threads|)
    && (forall i :: 0 <= i < |threads| ==> Knows(lock, i, Reads(threads[i], r), Writes(threads[i], r)))
  }

  predicate HoldsLock(t: Thread) {
    t.HandlerLocked? || t.ScriptRunning? || t.HandlerReturning? || t.Fetching? || t.Chmodding? || t.Removing?
  }

  predicate WaitsForLock(t: Thread) {
    t.HandlerWaiting? || t.PullCalled? || t.RemoveCalled?
  }

  predicate HeldAreKnown(s: State) {
    forall i :: 0 <= i < |s.threads| && (HoldsLock(s.threads[i]) || WaitsForLock(s.threads[i])) ==> s.threads[i].repo in s.locks
  }

  predicate Inv(s: State) {
    HeldAreKnown(s) && forall r :: r in s.locks ==> LockFacts(s.locks[r], s.threads, r)
  }

  lemma AdvanceKeepsKnown(s: State, i: nat, s': State)
    requires HeldAreKnown(s) && Next(s, Advance(i)) == Some(s')
    ensures HeldAreKnown(s') && s'.locks.Keys == s.locks.Keys
  {
  }

  lemma ThreadMoves(s: State, i: nat, r: Repo, s': State)
    requires i < |s.threads| && ThreadNext(s, i) == Some(s') && r in s.locks && LockFacts(s.locks[r], s.threads, r)
    ensures s'.threads == s.threads[i := s'.threads[i]] && s'.locks.Keys == s.locks.Keys
    ensures Moves(s.locks[r], i, Reads(s.threads[i], r), Writes(s.threads[i], r), Reads(s'.threads[i], r), Writes(s'.threads[i], r), s'.locks[r])
  {
    assert Knows(s.locks[r], i, Reads(s.threads[i], r), Writes(s.threads[i], r));
  }

  lemma AdvanceKeepsInv(s: State, i: nat, s': State)
    requires Inv(s) && Next(s, Advance(i)) == Some(s')
    ensures Inv(s')
  {
    AdvanceKeepsKnown(s, i, s');
    forall r | r in s'.locks
      ensures LockFacts(s'.locks[r], s'.threads, r)
    {
      ThreadMoves(s, i, r, s');
      MoveKeeps(s.locks[r], |s.threads|, i, Reads(s.threads[i], r), Writes(s.threads[i], r),
                Reads(s'.threads[i], r), Writes(s'.threads[i], r), s'.locks[r]);
    }
  }

  lemma InvokeKeepsInv(s: State, t: Thread, s': State)
    requires Inv(s) && Next(s, Invoke(t)) == Some(s')
    ensures Inv(s')
  {
    forall r | r in s'.locks
      ensures LockFacts(s'.locks[r], s'.threads, r)
    {
      assert LockFacts(s.locks[r], s.threads, r);
    }
  }

  lemma StepKeepsInv(s: State, step: Step, s': State)
    requires Inv(s) && Next(s, step) == Some(s')
    ensures Inv(s')
  {
    match step
    case Invoke(t) => InvokeKeepsInv(s, t, s');
    case Advance(i) => AdvanceKeepsInv(s, i, s');
  }

  lemma ReachableInv(s: State)
    requires Reachable(s)
    ensures Inv(s)
  {
    var repos :| Runs.Reachable(Next, Initial(repos), s);
    forall t, step | Inv(t) && Next(t, step).Some?
      ensures Inv(Next(t, step).value)
    {
      StepKeepsInv(t, step, Next(t, step).value);
    }
    Runs.Invariant(Next, Initial(repos), s, Inv);
  }

  // ----- exclusion -----

  /** No script of a repository runs while that repository is fetched, chmodded or removed, and only one of those happens at a time. */
  lemma ScriptsExcludeWriters(s: State, i: nat, k: nat, r: Repo)
    requires Reachable(s) && i < |s.threads| && k < |s.threads| && i != k
    ensures !(Reads(s.threads[i], r) && Writes(s.threads[k], r))
    ensures !(Writes(s.threads[i], r) && Writes(s.threads[k], r))
    ensures s.threads[i] == ScriptRunning(r) ==> s.threads[k] != Fetching(r) && s.threads[k] != Chmodding(r) && s.threads[k] != Removing(r)
  {
    ReachableInv(s);
    assert HoldsLock(s.threads[k]) ==> s.threads[k].repo in s.locks;
    assert r in s.locks ==> LockFacts(s.locks[r], s.threads, r);
  }

  /** On every way out of a handler, a pull and a removal the lock is given back: when all are done it is free. */
  lemma LocksAreGivenBack(s: State, r: Repo)
    requires Reachable(s) && r in s.locks
    requires forall i :: 0 <= i < |s.threads| ==> s.threads[i].HandlerDone? || s.threads[i].PullDone? || s.threads[i].RemoveDone?
    ensures s.locks[r] == FREE
  {
    ReachableInv(s);
    assert LockFacts(s.locks[r], s.threads, r);
    forall i | 0 <= i < |s.threads|
      ensures i !in s.locks[r].readers && s.locks[r].writer != Some(i)
    {
      assert !Reads(s.threads[i], r) && !Writes(s.threads[i], r);
    }
  }

  // ----- nothing waits for ever -----

  predicate IsDone(t: Thread) {
    t.HandlerDone? || t.PullDone? || t.RemoveDone?
  }

  /** A handler, pull or removal that is not done can go on, or waits for a lock whose holder can. */
  lemma NobodyIsStuck(s: State, i: nat) returns (k: nat)
    requires Reachable(s) && i < |s.threads| && !IsDone(s.threads[i])
    ensures Next(s, Advance(k)).Some?
  {
    ReachableInv(s);
    k := i;
    if WaitsForLock(s.threads[i]) {
      var r := s.threads[i].repo;
      assert LockFacts(s.locks[r], s.threads, r);
      if s.locks[r].writer.Some? {
        k := s.locks[r].writer.value;
        assert Knows(s.locks[r], k, Reads(s.threads[k], r), Writes(s.threads[k], r));
      } else if !s.threads[i].HandlerWaiting? && s.locks[r].readers != {} {
        k :| k in s.locks[r].readers;
        assert Knows(s.locks[r], k, Reads(s.threads[k], r), Writes(s.threads[k], r));
      }
    }
  }

  /** A handler of a repository that nobody writes to takes the read lock, runs its script under it and gives it back. */
  lemma HandlerCanRun(s: State, i: nat, r: Repo) returns (running: State, done: State)
    requires Reachable(s) && i < |s.threads| && s.threads[i] == HandlerCalled(Git(r)) && r in s.locks && s.locks[r].CanRead()
    ensures Runs.Run(Next, s, [Advance(i), Advance(i), Advance(i)], running)
    ensures running.threads == s.threads[i := ScriptRunning(r)] && r in running.locks && i in running.locks[r].readers
    ensures Runs.Run(Next, running, [Advance(i), Advance(i)], done)
    ensures done.threads == s.threads[i := HandlerDone(true)] && done.locks == s.locks
  {
    ReachableInv(s);
    assert LockFacts(s.locks[r], s.threads, r);
    assert Knows(s.locks[r], i, Reads(s.threads[i], r), Writes(s.threads[i], r));
    var s1 := Next(s, Advance(i)).value;
    var s2 := Next(s1, Advance(i)).value;
    running := Next(s2, Advance(i)).value;
    RunOf(s2, i, running);
    assert [Advance(i), Advance(i)][1..] == [Advance(i)];
    assert Runs.Run(Next, s1, [Advance(i), Advance(i)], running);
    assert [Advance(i), Advance(i), Advance(i)][1..] == [Advance(i), Advance(i)];
    var s4 := Next(running, Advance(i)).value;
    done := Next(s4, Advance(i)).value;
    RunOf(s4, i, done);
    assert s.locks[r].readers + {i} - {i} == s.locks[r].readers;
    assert done.locks == s.locks;
  }

  /** A script of no repository runs whatever is locked. */
  lemma LocalCanRun(s: State, i: nat) returns (running: State, done: State)
    requires i < |s.threads| && s.threads[i] == HandlerCalled(Local)
    ensures Runs.Run(Next, s, [Advance(i)], running) && running == s.(threads := s.threads[i := LocalRunning])
    ensures Runs.Run(Next, running, [Advance(i)], done) && done == s.(threads := s.threads[i := HandlerDone(true)])
  {
    running := Next(s, Advance(i)).value;
    done := Next(running, Advance(i)).value;
    RunOf(s, i, running);
    RunOf(running, i, done);
  }

  /** A pull of a repository that nobody uses takes the write lock, fetches and chmods under it and gives it back. */
  lemma PullCanRun(s: State, i: nat, r: Repo) returns (fetching: State, chmodding: State, done: State)
    requires Reachable(s) && i < |s.threads| && s.threads[i] == PullCalled(r) && r in s.locks && s.locks[r] == FREE
    ensures Runs.Run(Next, s, [Advance(i)], fetching)
    ensures fetching == State(s.locks[r := RWLock(Some(i), {})], s.threads[i := Fetching(r)])
    ensures Runs.Run(Next, fetching, [Advance(i)], chmodding)
    ensures chmodding == State(s.locks[r := RWLock(Some(i), {})], s.threads[i := Chmodding(r)])
    ensures Runs.Run(Next, chmodding, [Advance(i)], done) && done == s.(threads := s.threads[i := PullDone])
  {
    fetching := Next(s, Advance(i)).value;
    chmodding := Next(fetching, Advance(i)).value;
    done := Next(chmodding, Advance(i)).value;
    RunOf(s, i, fetching);
    RunOf(fetching, i, chmodding);
    RunOf(chmodding, i, done);
    assert done.locks == s.locks;
  }

  lemma RemoveCanRun(s: State, i: nat, r: Repo) returns (removing: State, done: State)
    requires Reachable(s) && i < |s.threads| && s.threads[i] == RemoveCalled(r) && r in s.locks && s.locks[r] == FREE
    ensures Runs.Run(Next, s, [Advance(i)], removing)
    ensures removing == State(s.locks[r := RWLock(Some(i), {})], s.threads[i := Removing(r)])
    ensures Runs.Run(Next, removing, [Advance(i)], done) && done == s.(threads := s.threads[i := RemoveDone])
  {
    removing := Next(s, Advance(i)).value;
    done := Next(removing, Advance(i)).value;
    RunOf(s, i, removing);
    RunOf(removing, i, done);
    assert done.locks == s.locks;
  }

  lemma RunOf(s: State, i: nat, s': State)
    requires Next(s, Advance(i)) == Some(s')
    ensures Runs.Run(Next, s, [Advance(i)], s')
  {
    assert Runs.Run(Next, s', [], s');
    assert [Advance(i)][1..] == [];
  }

  /** A handler of an unknown repository, or of no known kind of source, runs nothing. */
  lemma HandlerCannotRun(s: State, i: nat, source: Source)
    requires i < |s.threads| && s.threads[i] == HandlerCalled(source)
    requires source == Unknown || (source.Git? && source.url !in s.locks)
    ensures Next(s, Advance(i)) == Some(s.(threads := s.threads[i := HandlerDone(false)]))
  {
  }
}
