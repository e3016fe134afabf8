/**
 The expiry flag of queue/sqs_provider.go as a protocol: any number of client calls and refreshes run
 against one provider, which has one lock for the client and another for the flag.
 */
module ExpiryFlag {
  import opened Options
  import opened ReadWriteLock
  import Runs

  datatype Thread =
    // a ChangeMessageVisibility, DeleteMessage or ReceiveMessage
    | CallEntered                        // refreshClientMu not yet read-locked
    | CallLocked                         // read-locked, inside the client's call
    | CallReturned(client: nat, expired: bool) // the client answered, checkExpiration has not run
    | CallChecked                        // checkExpiration has run, the lock is still held
    | CallDone
    // a RefreshClient
    | RefreshEntered                     // inside NewSession
    | RefreshReady                       // has a session, refreshClientMu not yet locked
    | RefreshLocked                      // locked, the client not yet replaced
    | RefreshSwapped                     // replaced, still locked
    | RefreshUnlocked                    // before the flag is cleared
    | RefreshDone(ok: bool)

  /** Clients are numbered in the order they are installed; the lock is refreshClientMu. */
  datatype Shared = Shared(client: nat, isTokenExpired: bool, lock: RWLock)

  datatype State = State(
    shared: Shared,
    threads: seq<Thread>,
    expired: set<nat>,                   // clients that have answered ExpiredToken
    quiet: set<nat>)                     // those of them that were recorded while no refresh was under way

  const Initial: State := State(Shared(0, false, FREE), [], {}, {})

  datatype Step =
    | Invoke(thread: Thread)
    | Advance(i: nat)
    | ClientAnswers(i: nat, expired: bool)
    | SessionAnswers(i: nat, ok: bool)

  /** Between the replacement of the client and the clearing of the flag. */
  predicate IsBetween(t: Thread) {
    t.RefreshSwapped? || t.RefreshUnlocked?
  }

  predicate NoneBetween(threads: seq<Thread>) {
    forall i :: 0 <= i < |threads| ==> !IsBetween(threads[i])
  }

  predicate At(s: State, i: nat, t: Thread) {
    i < |s.threads| && s.threads[i] == t
  }

  function Put(s: State, i: nat, t: Thread, g: Shared): State
    requires i < |s.threads|
  {
    s.(threads := s.threads[i := t], shared := g)
  }

  function ThreadNext(s: State, i: nat): Option<State>
    requires i < |s.threads|
  {
    var g := s.shared;
    match s.threads[i]
    case CallEntered =>
      if g.lock.CanRead() then Some(Put(s, i, CallLocked, g.(lock := g.lock.RLock(i)))) else None
    case CallLocked => None
    case CallReturned(client, expired) =>
      if expired
      then Some(Put(s, i, CallChecked, g.(isTokenExpired := true)).(quiet := if NoneBetween(s.threads) then s.quiet + {client} else s.quiet))
      else Some(Put(s, i, CallChecked, g))
    case CallChecked => Some(Put(s, i, CallDone, g.(lock := g.lock.RUnlock(i))))
    case CallDone => None
    case RefreshEntered => None
    case RefreshReady =>
      if g.lock.CanWrite() then Some(Put(s, i, RefreshLocked, g.(lock := g.lock.Lock(i)))) else None
    case RefreshLocked => Some(Put(s, i, RefreshSwapped, g.(client := g.client + 1)))
    case RefreshSwapped => Some(Put(s, i, RefreshUnlocked, g.(lock := g.lock.Unlock())))
    case RefreshUnlocked => Some(Put(s, i, RefreshDone(true), g.(isTokenExpired := false)))
    case RefreshDone(_) => None
  }

  function Next(s: State, step: Step): Option<State> {
    match step
    case Invoke(t) => if t.CallEntered? || t.RefreshEntered? then Some(s.(threads := s.threads + [t])) else None
    case Advance(i) => if i < |s.threads| then ThreadNext(s, i) else None
    case ClientAnswers(i, expired) =>
      if At(s, i, CallLocked)
      then Some(Put(s, i, CallReturned(s.shared.client, expired), s.shared)
                .(expired := if expired then s.expired + {s.shared.client} else s.expired))
      else None
    case SessionAnswers(i, ok) =>
      if At(s, i, RefreshEntered) then Some(Put(s, i, if ok then RefreshReady else RefreshDone(false), s.shared)) else None
  }

  ghost predicate Reachable(s: State) {
    Runs.Reachable(Next, Initial, s)
  }

  // ----- the invariant -----

  predicate HoldsRead(t: Thread) { t.CallLocked? || t.CallReturned? || t.CallChecked? }
  predicate HoldsWrite(t: Thread) { t.RefreshLocked? || t.RefreshSwapped? }

  predicate Locks(lock: RWLock, threads: seq<Thread>) {
    && Exclusive(lock, |threads|)
    && (forall i :: 0 <= i < |threads| ==> Knows(lock, i, HoldsRead(threads[i]), HoldsWrite(threads[i])))
  }

  /** An answer still to be checked came through the client that is installed now. */
  predicate AnswersAreCurrent(s: State) {
    forall i :: 0 <= i < |s.threads| && s.threads[i].CallReturned? ==>
      s.threads[i].client == s.shared.client && (s.threads[i].expired ==> s.shared.client in s.expired)
  }

  predicate FlagFacts(s: State) {
    && (forall c :: c in s.expired ==> c <= s.shared.client)
    && s.quiet <= s.expired
    && (s.shared.isTokenExpired ==> s.shared.client in s.quiet || !NoneBetween(s.threads))
    && (s.shared.client in s.quiet ==> s.shared.isTokenExpired && NoneBetween(s.threads))
  }

  predicate Inv(s: State) {
    Locks(s.shared.lock, s.threads) && AnswersAreCurrent(s) && FlagFacts(s)
  }

  lemma BetweenAfter(threads: seq<Thread>, i: nat, t: Thread)
    requires i < |threads|
    ensures IsBetween(t) ==> !NoneBetween(threads[i := t])
    ensures !IsBetween(t) && NoneBetween(threads) ==> NoneBetween(threads[i := t])
    ensures !IsBetween(threads[i]) && !NoneBetween(threads) ==> !NoneBetween(threads[i := t])
  {
    var threads' := threads[i := t];
    if IsBetween(t) {
      assert IsBetween(threads'[i]);
    }
    if k :| 0 <= k < |threads| && IsBetween(threads[k]) && k != i {
      assert IsBetween(threads'[k]);
    }
  }

  lemma AdvanceKeepsInv(s: State, i: nat, s': State)
    requires Inv(s) && Next(s, Advance(i)) == Some(s')
    ensures Inv(s')
  {
    MoveKeeps(s.shared.lock, |s.threads|, i, HoldsRead(s.threads[i]), HoldsWrite(s.threads[i]),
              HoldsRead(s'.threads[i]), HoldsWrite(s'.threads[i]), s'.shared.lock);
    BetweenAfter(s.threads, i, s'.threads[i]);
    forall k | 0 <= k < |s'.threads| && s'.threads[k].CallReturned?
      ensures s'.threads[k].client == s'.shared.client && (s'.threads[k].expired ==> s'.shared.client in s'.expired)
    {
      assert Knows(s.shared.lock, k, HoldsRead(s.threads[k]), HoldsWrite(s.threads[k]));
    }
  }

  lemma AnswerKeepsInv(s: State, step: Step, s': State)
    requires Inv(s) && Next(s, step) == Some(s') && (step.ClientAnswers? || step.SessionAnswers?)
    ensures Inv(s')
  {
    BetweenAfter(s.threads, step.i, s'.threads[step.i]);
  }

  lemma InvokeKeepsInv(s: State, t: Thread, s': State)
    requires Inv(s) && Next(s, Invoke(t)) == Some(s')
    ensures Inv(s')
  {
    if k :| 0 <= k < |s.threads| && IsBetween(s.threads[k]) {
      assert IsBetween(s'.threads[k]);
    }
  }

  lemma StepKeepsInv(s: State, step: Step, s': State)
    requires Inv(s) && Next(s, step) == Some(s')
    ensures Inv(s')
  {
    match step
    case Invoke(t) => InvokeKeepsInv(s, t, s');
    case Advance(i) => AdvanceKeepsInv(s, i, s');
    case _ => AnswerKeepsInv(s, step, s');
  }

  lemma ReachableInv(s: State)
    requires Reachable(s)
    ensures Inv(s)
  {
    forall t, step | Inv(t) && Next(t, step).Some?
      ensures Inv(Next(t, step).value)
    {
      StepKeepsInv(t, step, Next(t, step).value);
    }
    Runs.Invariant(Next, Initial, s, Inv);
  }

  // ----- what the flag says -----

  /**
   Unless a refresh is between replacing the client and clearing the flag, the flag is set exactly if the
   client installed now has answered ExpiredToken and that was recorded while no refresh was in between.
   */
  lemma FlagIsExact(s: State)
    requires Reachable(s) && NoneBetween(s.threads)
    ensures s.shared.isTokenExpired <==> s.shared.client in s.quiet
    ensures s.quiet <= s.expired
  {
    ReachableInv(s);
  }

  /**
   Unless a refresh is between replacing the client and clearing the flag, a set flag means that the client
   installed now has answered ExpiredToken; no failure of an earlier client survives.
   */
  lemma FlagIsNotStale(s: State)
    requires Reachable(s) && NoneBetween(s.threads) && s.shared.isTokenExpired
    ensures s.shared.client in s.expired
  {
    ReachableInv(s);
  }

  /** An expiry recorded while no refresh is under way stays recorded until that client is replaced. */
  lemma QuietExpiryIsKept(s: State)
    requires Reachable(s) && s.shared.client in s.quiet
    ensures s.shared.isTokenExpired && NoneBetween(s.threads) && s.shared.client in s.expired
  {
    ReachableInv(s);
  }

  /** The answer of a call counts for the client it went through, which is still installed when it is checked. */
  lemma ExpiredAnswerIsFlagged(s: State, i: nat, client: nat)
    requires Reachable(s) && i < |s.threads| && s.threads[i] == CallReturned(client, true)
    ensures client == s.shared.client && client in s.expired
    ensures var s' := Next(s, Advance(i));
            s'.Some? && s'.value.shared.isTokenExpired && s'.value.shared.client == client
            && (NoneBetween(s.threads) ==> client in s'.value.quiet)
  {
    ReachableInv(s);
  }

  /** A call that holds the lock gets its answer from the installed client, and it is remembered if that is expiry. */
  lemma AnswerIsTheClients(s: State, i: nat, expired: bool)
    requires Reachable(s) && i < |s.threads| && s.threads[i] == CallLocked
    ensures var s' := Next(s, ClientAnswers(i, expired));
            s'.Some? && s'.value.threads[i] == CallReturned(s.shared.client, expired)
            && (expired ==> s.shared.client in s'.value.expired)
  {
  }

  /** A refresh that gets no session ends with nothing changed; one that gets one goes on to install a client. */
  lemma SessionDecides(s: State, i: nat, ok: bool)
    requires Reachable(s) && i < |s.threads| && s.threads[i] == RefreshEntered
    ensures Next(s, SessionAnswers(i, ok)) == Some(s.(threads := s.threads[i := if ok then RefreshReady else RefreshDone(false)]))
  {
  }

  /** A refresh that has a session installs a new client and, at its end, clears the flag. */
  lemma RefreshReplacesAndClears(s: State, i: nat)
    requires Reachable(s) && i < |s.threads|
    ensures s.threads[i] == RefreshLocked ==>
              var s' := Next(s, Advance(i)); s'.Some? && s'.value.shared.client !in s'.value.expired && s'.value.shared.client != s.shared.client
    ensures s.threads[i] == RefreshUnlocked ==>
              var s' := Next(s, Advance(i)); s'.Some? && !s'.value.shared.isTokenExpired
  {
    ReachableInv(s);
  }

  /** A call or refresh that is not done can go on, or waits for one that can, or for the client or session. */
  lemma NobodyIsStuck(s: State, i: nat) returns (step: Step)
    requires Reachable(s) && i < |s.threads| && !s.threads[i].CallDone? && !s.threads[i].RefreshDone?
    ensures !step.Invoke? && Next(s, step).Some?
  {
    ReachableInv(s);
    var k := i;
    var lock := s.shared.lock;
    if (s.threads[i].CallEntered? || s.threads[i].RefreshReady?) && lock.writer.Some? {
      k := lock.writer.value;
      assert Knows(lock, k, HoldsRead(s.threads[k]), HoldsWrite(s.threads[k]));
    } else if s.threads[i].RefreshReady? && lock.readers != {} {
      k :| k in lock.readers;
      assert Knows(lock, k, HoldsRead(s.threads[k]), HoldsWrite(s.threads[k]));
    }
    step := if s.threads[k].CallLocked? then ClientAnswers(k, false)
            else if s.threads[k].RefreshEntered? then SessionAnswers(k, true)
            else Advance(k);
  }

  lemma Take(s: State, step: Step) returns (s': State)
    requires Reachable(s) && Next(s, step).Some?
    ensures s' == Next(s, step).value && Reachable(s')
  {
    s' := Next(s, step).value;
    Runs.Further(Next, Initial, s, step);
  }

  /** One refresh up to the moment its new client is usable and the flag not yet cleared. */
  lemma LoneSwap() returns (s: State)
    ensures Reachable(s) && s == State(Shared(1, false, FREE), [RefreshUnlocked], {}, {})
  {
    Runs.Initially(Next, Initial);
    s := Take(Initial, Invoke(RefreshEntered));
    s := Take(s, SessionAnswers(0, true));
    s := Take(s, Advance(0));
    s := Take(s, Advance(0));
    s := Take(s, Advance(0));
  }

  /**
   The converse of FlagIsNotStale fails: an expiry of the new client that is recorded before the refresh
   clears the flag is lost.
   */
  lemma ExpiryCanBeLost() returns (s: State)
    ensures Reachable(s) && NoneBetween(s.threads)
    ensures s.shared.client in s.expired && !s.shared.isTokenExpired
  {
    s := LoneSwap();
    s := Take(s, Invoke(CallEntered));
    s := Take(s, Advance(1));
    s := Take(s, ClientAnswers(1, true));
    s := Take(s, Advance(1));
    s := Take(s, Advance(1));
    s := Take(s, Advance(0));
  }
}
