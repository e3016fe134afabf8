/** The poller of queue/poller.go: its start and stop, and what one poll does with the messages it receives. */
module Poller {
  import opened Options
  import opened Pool
  import PoolTheorems
  import opened SqsProvider

  const MAX_NUMBER_OF_MESSAGES: int := 10
  const POLLING_WAIT_INTERVAL_IN_MILLIS: int := 100
  const VISIBILITY_TIMEOUT_IN_SEC: int := 30

  datatype PollerConf = PollerConf(maxNumberOfMessages: int, pollingWaitInterval: int, visibilityTimeout: int)

  /** The poller settings NewProcessor writes back into the configuration. */
  function Clamp(raw: PollerConf): (c: PollerConf)
    ensures c.maxNumberOfMessages >= 1 && c.pollingWaitInterval >= 1 && c.visibilityTimeout >= 15
    ensures raw.maxNumberOfMessages >= 1 && raw.pollingWaitInterval >= 1 && raw.visibilityTimeout >= 15 ==> c == raw
    ensures c.maxNumberOfMessages == raw.maxNumberOfMessages || (raw.maxNumberOfMessages <= 0 && c.maxNumberOfMessages == 10)
    ensures c.pollingWaitInterval == raw.pollingWaitInterval || (raw.pollingWaitInterval <= 0 && c.pollingWaitInterval == 100)
    ensures c.visibilityTimeout == raw.visibilityTimeout || (raw.visibilityTimeout < 15 && c.visibilityTimeout == 30)
  {
    PollerConf(if raw.maxNumberOfMessages <= 0 then MAX_NUMBER_OF_MESSAGES else raw.maxNumberOfMessages,
               if raw.pollingWaitInterval <= 0 then POLLING_WAIT_INTERVAL_IN_MILLIS else raw.pollingWaitInterval,
               if raw.visibilityTimeout < 15 then VISIBILITY_TIMEOUT_IN_SEC else raw.visibilityTimeout)
  }

  function Min(x: int, y: int): (m: int)
    ensures m <= x && m <= y && (m == x || m == y)
  {
    if x > y then y else x
  }

  /** What ReceiveMessage is called with. */
  datatype ReceiveRequest = ReceiveRequest(maxNumberOfMessages: int, visibilityTimeout: int)

  // ----- what becomes of a batch -----

  /** The first message whose Submit reports that the pool is not running, or n. */
  function FirstError(submit: nat -> Outcome, n: nat): (e: nat)
    ensures e <= n && (e < n ==> submit(e) == NotRunning)
    ensures forall i :: 0 <= i < e ==> submit(i) != NotRunning
  {
    if n == 0 then 0
    else if FirstError(submit, n - 1) < n - 1 then FirstError(submit, n - 1)
    else if submit(n - 1) == NotRunning then n - 1
    else n
  }

  /** Of the first n messages, in order, those whose Submit gave the answer o. */
  function Answered(submit: nat -> Outcome, n: nat, o: Outcome): seq<nat> {
    if n == 0 then [] else Answered(submit, n - 1, o) + (if submit(n - 1) == o then [n - 1] else [])
  }

  function Range(lo: nat, hi: nat): (r: seq<nat>)
    requires lo <= hi
    ensures |r| == hi - lo && forall i :: 0 <= i < |r| ==> r[i] == lo + i
  {
    seq(hi - lo, i requires 0 <= i => lo + i)
  }

  lemma RangeExtend(lo: nat, hi: nat)
    requires lo <= hi
    ensures Range(lo, hi + 1) == Range(lo, hi) + [hi]
  {
  }

  lemma {:induction false} AnsweredOnce(submit: nat -> Outcome, n: nat, o: Outcome, i: nat)
    ensures multiset(Answered(submit, n, o))[i] == (if i < n && submit(i) == o then 1 else 0)
  {
    if n == 0 {
      assert Answered(submit, n, o) == [];
    } else {
      AnsweredOnce(submit, n - 1, o, i);
      AnsweredGrows(submit, n - 1, o, i);
      var before, now := multiset(Answered(submit, n - 1, o))[i], multiset(Answered(submit, n, o))[i];
      assert now == before + (if submit(n - 1) == o && i == n - 1 then 1 else 0);
    }
  }

  lemma AnsweredGrows(submit: nat -> Outcome, n: nat, o: Outcome, i: nat)
    ensures multiset(Answered(submit, n + 1, o))[i]
         == multiset(Answered(submit, n, o))[i] + (if submit(n) == o && i == n then 1 else 0)
  {
    var rest := Answered(submit, n, o);
    OneMore(rest, n, i);
    assert Answered(submit, n + 1, o) == if submit(n) == o then rest + [n] else rest;
  }

  lemma OneMore(s: seq<nat>, x: nat, i: nat)
    ensures multiset(s + [x])[i] == multiset(s)[i] + (if x == i then 1 else 0)
  {
    assert multiset(s + [x]) == multiset(s) + multiset{x};
  }

  lemma {:induction false} RangeOnce(lo: nat, hi: nat, i: nat)
    requires lo <= hi
    ensures multiset(Range(lo, hi))[i] == (if lo <= i < hi then 1 else 0)
    decreases hi
  {
    if lo < hi {
      RangeExtend(lo, hi - 1);
      RangeOnce(lo, hi - 1, i);
    } else {
      assert Range(lo, hi) == [];
    }
  }

  /** In the order of the batch. */
  predicate IsAscending(s: seq<nat>) {
    forall i, k :: 0 <= i < k < |s| ==> s[i] < s[k]
  }

  lemma {:induction false} AnsweredAscends(submit: nat -> Outcome, n: nat, o: Outcome)
    ensures IsAscending(Answered(submit, n, o)) && forall i :: 0 <= i < |Answered(submit, n, o)| ==> Answered(submit, n, o)[i] < n
  {
    if n > 0 {
      AnsweredAscends(submit, n - 1, o);
    }
  }

  /** The messages poll releases: those refused before the first error, then everything from the error on. */
  function Released(submit: nat -> Outcome, n: nat): seq<nat> {
    var e := FirstError(submit, n);
    Answered(submit, e, Refused) + Range(e, n)
  }

  function AcceptedOf(submit: nat -> Outcome, n: nat): seq<nat> {
    Answered(submit, FirstError(submit, n), Accepted)
  }

  /** Every received message is accepted or released, once, and not both; after an error all the rest are released. */
  lemma BatchIsPartitioned(submit: nat -> Outcome, n: nat, i: nat)
    ensures i < n ==> multiset(AcceptedOf(submit, n))[i] + multiset(Released(submit, n))[i] == 1
    ensures i >= n ==> i !in AcceptedOf(submit, n) && i !in Released(submit, n)
    ensures i in AcceptedOf(submit, n) <==> i < FirstError(submit, n) && submit(i) == Accepted
    ensures FirstError(submit, n) <= i < n ==> i in Released(submit, n)
  {
    var e := FirstError(submit, n);
    AnsweredOnce(submit, e, Accepted, i);
    AnsweredOnce(submit, e, Refused, i);
    RangeOnce(e, n, i);
    assert multiset(Released(submit, n)) == multiset(Answered(submit, e, Refused)) + multiset(Range(e, n));
  }

  /** Both are in the order of the batch. */
  lemma BatchIsInOrder(submit: nat -> Outcome, n: nat)
    ensures IsAscending(AcceptedOf(submit, n)) && IsAscending(Released(submit, n))
  {
    AnsweredAscends(submit, FirstError(submit, n), Accepted);
    AnsweredAscends(submit, FirstError(submit, n), Refused);
  }

  /** A poller never asks for more messages than the pool has workers, nor for none. */
  lemma RequestIsBounded(c: Conf, s: State, conf: PollerConf)
    requires c.Valid() && Reachable(c, s) && conf.maxNumberOfMessages >= 1
    ensures var available := PoolTheorems.NumberOfAvailableWorker(c, s.shared.counts);
            available > 0 ==>
              var r := Min(conf.maxNumberOfMessages, available);
              1 <= r && r <= conf.maxNumberOfMessages && r <= available && r <= c.maxWorkers
              && (r == conf.maxNumberOfMessages || r == available)
  {
    PoolTheorems.AvailabilityIsExact(c, s);
  }

  datatype StopResult = Ended | WasNotRunning | Panicked

  class Poller {
    const queueProvider: SqsProvider
    const conf: PollerConf

    var isRunning: bool
    var quitClosed: bool
    var wakeUpClosed: bool

    ghost var starts: nat
    ghost var stops: nat

    /** Each Stop that ended ended a Start; the channels, once closed, are never made anew. */
    ghost predicate Valid()
      reads this
    {
      && quitClosed == wakeUpClosed
      && (quitClosed <==> stops > 0)
      && starts == stops + (if isRunning then 1 else 0)
    }

    constructor (queueProvider: SqsProvider, conf: PollerConf)
      ensures Valid() && this.queueProvider == queueProvider && this.conf == conf && starts == 0 && stops == 0
    {
      this.queueProvider := queueProvider;
      this.conf := conf;
      isRunning, quitClosed, wakeUpClosed := false, false, false;
      starts, stops := 0, 0;
    }

    method Start() returns (ok: bool)
      requires Valid()
      modifies this`isRunning, this`starts
      ensures Valid() && isRunning && ok == !old(isRunning)
      ensures starts == old(starts) + (if ok then 1 else 0)
    {
      if isRunning {
        return false;
      }
      starts := starts + 1;
      isRunning := true;
      return true;
    }

    /**
     Ends the poller by closing quit and wakeUp. For a poller that was started again after a Stop they are
     closed already, so that closing them panics; a poller started once never does.
     */
    method Stop() returns (r: StopResult)
      requires Valid()
      modifies this`isRunning, this`quitClosed, this`wakeUpClosed, this`stops
      ensures Valid()
      ensures r == if !old(isRunning) then WasNotRunning else if old(quitClosed) then Panicked else Ended
      ensures r == Panicked ==> starts > 1
      ensures isRunning <==> r == Panicked
      ensures quitClosed <==> old(quitClosed) || r == Ended
      ensures stops == old(stops) + (if r == Ended then 1 else 0)
    {
      if !isRunning {
        return WasNotRunning;
      }
      if quitClosed {
        return Panicked;
      }
      quitClosed := true;
      assert !wakeUpClosed;
      wakeUpClosed := true;
      isRunning := false;
      stops := stops + 1;
      return Ended;
    }

    /**
     Asks for the visibility of messages lo..hi to end, one by one, whatever each answer is;
     terminated collects those for which the queue agreed.
     */
    method TerminateMessageVisibility(lo: nat, hi: nat, changed: nat -> bool) returns (attempted: seq<nat>, terminated: seq<nat>)
      requires lo <= hi
      ensures attempted == Range(lo, hi)
      ensures forall i :: i in terminated <==> lo <= i < hi && changed(i)
    {
      attempted, terminated := [], [];
      for i := lo to hi
        invariant attempted == Range(lo, i)
        invariant forall k :: k in terminated <==> lo <= k < i && changed(k)
      {
        RangeExtend(lo, i);
        attempted := attempted + [i];
        if changed(i) {
          terminated := terminated + [i];
        }
      }
    }

    /**
     One poll. The pool's availability, the number of messages received (None for an error), the answer of
     each Submit and of each visibility change are given; messages are named by their place in the batch.
     */
    method Poll(available: int, received: Option<nat>, submit: nat -> Outcome, changed: nat -> bool)
      returns (shouldWait: bool, requested: Option<ReceiveRequest>, submitted: seq<nat>, accepted: seq<nat>, released: seq<nat>)
      ensures requested.Some? <==> available > 0
      ensures requested.Some? ==>
                var r := requested.value.maxNumberOfMessages;
                && r <= available && r <= conf.maxNumberOfMessages && (r == available || r == conf.maxNumberOfMessages)
                && requested.value.visibilityTimeout == conf.visibilityTimeout
      ensures available <= 0 || received == None || received == Some(0) ==>
                shouldWait && submitted == [] && accepted == [] && released == []
      ensures available > 0 && received.Some? && received.value > 0 ==>
                var n := received.value;
                var e := FirstError(submit, n);
                && accepted == AcceptedOf(submit, n)
                && released == Released(submit, n)
                && submitted == Range(0, if e < n then e + 1 else n)
                && shouldWait == (e < n)
    {
      submitted, accepted, released := [], [], [];
      if !(available > 0) {
        return true, None, submitted, accepted, released;
      }
      requested := Some(ReceiveRequest(Min(conf.maxNumberOfMessages, available), conf.visibilityTimeout));
      if received == None || received.value == 0 {
        return true, requested, submitted, accepted, released;
      }
      var n := received.value;
      for i := 0 to n
        invariant forall k :: 0 <= k < i ==> submit(k) != NotRunning
        invariant submitted == Range(0, i)
        invariant accepted == Answered(submit, i, Accepted)
        invariant released == Answered(submit, i, Refused)
      {
        RangeExtend(0, i);
        submitted := submitted + [i];
        match submit(i) {
          case NotRunning =>
            FirstErrorIs(submit, n, i);
            var rest, terminated := TerminateMessageVisibility(i, n, changed);
            released := released + rest;
            return true, requested, submitted, accepted, released;
          case Refused =>
            var one, terminated := TerminateMessageVisibility(i, i + 1, changed);
            assert one == [i];
            released := released + one;
          case Accepted =>
            accepted := accepted + [i];
        }
      }
      FirstErrorIs(submit, n, n);
      assert Range(n, n) == [];
      return false, requested, submitted, accepted, released;
    }
  }

  lemma {:induction false} FirstErrorIs(submit: nat -> Outcome, n: nat, e: nat)
    requires e <= n && (forall i :: 0 <= i < e ==> submit(i) != NotRunning) && (e < n ==> submit(e) == NotRunning)
    ensures FirstError(submit, n) == e
  {
    var f := FirstError(submit, n);
    assert e <= f;
    assert e < n ==> f <= e;
  }
}
