/** The retry loop of retryer/retryer.go, for any limit on the number of attempts. */
module Retryer {
  import opened Options

  type Byte = b: int | 0 <= b < 256

  const MAX_RETRY_COUNT: nat := 5

  /** How one client.Do ends: every error of an http.Client is a net.Error, which is a timeout or is not. */
  datatype Attempt = Response(status: int) | TimeoutError | OtherError

  datatype Result =
    | Answered(status: int)
    | Failed                             // an error that is no timeout
    | SeekFailed                         // the body could not be rewound
    | Exhausted(last: Attempt)           // the limit is reached

  predicate ShouldRetry(status: int) {
    500 <= status <= 599 || status == 429
  }

  predicate IsRetried(a: Attempt) {
    a.TimeoutError? || (a.Response? && ShouldRetry(a.status))
  }

  function Pow2(n: nat): (p: nat)
    ensures p >= 1
  {
    if n == 0 then 1 else 2 * Pow2(n - 1)
  }

  /** In milliseconds. */
  function GetWaitTime(retryCount: nat): nat { Pow2(retryCount) * 100 }

  function Waits(n: nat): (w: seq<nat>)
    ensures |w| == n && forall i :: 0 <= i < n ==> w[i] == GetWaitTime(i)
  {
    if n == 0 then [] else Waits(n - 1) + [GetWaitTime(n - 1)]
  }

  function Total(waits: seq<nat>): nat {
    if waits == [] then 0 else Total(waits[..|waits| - 1]) + waits[|waits| - 1]
  }

  /** n waits last 100 * (2^n - 1) ms together. */
  lemma {:induction false} TotalWait(n: nat)
    ensures Total(Waits(n)) == 100 * (Pow2(n) - 1)
  {
    if n > 0 {
      assert Waits(n)[..n - 1] == Waits(n - 1);
      TotalWait(n - 1);
    }
  }

  /** A request that is given up has slept for a second and a half. */
  lemma LongestWait()
    ensures Total(Waits(MAX_RETRY_COUNT - 1)) == 1500
  {
    TotalWait(MAX_RETRY_COUNT - 1);
  }

  /** The first attempt below the limit that is not retried, or the limit. */
  function FirstFinal(answers: nat -> Attempt, limit: nat): (n: nat)
    ensures n <= limit && (n < limit ==> !IsRetried(answers(n)))
    ensures forall i :: 0 <= i < n ==> IsRetried(answers(i))
  {
    if limit == 0 then 0
    else if FirstFinal(answers, limit - 1) < limit - 1 then FirstFinal(answers, limit - 1)
    else if IsRetried(answers(limit - 1)) then limit
    else limit - 1
  }

  lemma FirstFinalIs(answers: nat -> Attempt, limit: nat, n: nat)
    requires n <= limit && (forall i :: 0 <= i < n ==> IsRetried(answers(i))) && (n < limit ==> !IsRetried(answers(n)))
    ensures FirstFinal(answers, limit) == n
  {
    var f := FirstFinal(answers, limit);
    assert n <= f;
    assert n < limit ==> f <= n;
  }

  class Request {
    const body: Option<seq<Byte>>
    var position: nat                    // where the body's reader stands

    ghost predicate Valid()
      reads this
    {
      body.Some? ==> position <= |body.value|
    }

    constructor (body: Option<seq<Byte>>, position: nat)
      requires body.Some? ==> position <= |body.value|
      ensures Valid() && this.body == body && this.position == position
    {
      this.body, this.position := body, position;
    }

    /** Seek(0, 0). */
    method Rewind(seekOk: bool) returns (ok: bool)
      requires Valid()
      modifies this
      ensures Valid() && ok == seekOk && (ok ==> position == 0)
    {
      if seekOk {
        position := 0;
      }
      ok := seekOk;
    }

    /** The client sends what is left of the body, and leaves the reader wherever the transport stopped. */
    method Send(stop: nat) returns (sent: seq<Byte>)
      requires Valid()
      modifies this
      ensures Valid() && sent == if body.Some? then body.value[old(position)..] else []
    {
      sent := if body.Some? then body.value[position..] else [];
      if body.Some? {
        position := if stop <= |body.value| then stop else |body.value|;
      }
    }
  }

  /**
   What each attempt answers, whether each rewind succeeds and where each send leaves the body's reader are
   given by the number of the attempt.
   */
  method DoWithExponentialBackoff(limit: nat, request: Request, answers: nat -> Attempt, seekOk: nat -> bool, stop: nat -> nat)
    returns (result: Result, sent: seq<seq<Byte>>, slept: seq<nat>)
    requires request.Valid() && limit >= 1
    modifies request
    ensures |sent| <= limit
    ensures forall i :: 0 <= i < |sent| ==> sent[i] == if request.body.Some? then request.body.value else []
    ensures forall i :: 0 <= i < |sent| - 1 ==>
              answers(i).TimeoutError? || (answers(i).Response? && (500 <= answers(i).status <= 599 || answers(i).status == 429))
    ensures !result.SeekFailed? ==> |sent| >= 1
    ensures |slept| == (if result.SeekFailed? then |sent| else |sent| - 1) && slept == Waits(|slept|)
    ensures (|slept| > 0 ==> slept[0] == 100) && forall i :: 0 <= i < |slept| - 1 ==> slept[i + 1] == 2 * slept[i]
    ensures match result
            case Answered(status) =>
              answers(|sent| - 1) == Response(status) && !(500 <= status <= 599) && status != 429
            case Failed => answers(|sent| - 1) == OtherError
            case SeekFailed => request.body.Some? && !seekOk(|sent|) && (|sent| > 0 ==> IsRetried(answers(|sent| - 1)))
            case Exhausted(last) => |sent| == limit && last == answers(limit - 1) && IsRetried(last)
    ensures !result.SeekFailed? ==>
              var n := FirstFinal(answers, limit);
              |sent| == (if n < limit then n + 1 else limit) && (result.Exhausted? <==> n == limit)
    ensures (request.body.None? || forall i :: 0 <= i < limit ==> seekOk(i)) ==> !result.SeekFailed?
  {
    var retryCount := 0;
    sent, slept := [], [];
    while true
      invariant 0 <= retryCount < limit && |sent| == retryCount && request.Valid()
      invariant slept == Waits(retryCount)
      invariant forall i :: 0 <= i < retryCount ==> sent[i] == if request.body.Some? then request.body.value else []
      invariant forall i :: 0 <= i < retryCount ==> IsRetried(answers(i))
      decreases limit - retryCount
    {
      var attempt := answers(retryCount);
      if request.body.Some? {
        var ok := request.Rewind(seekOk(retryCount));
        if !ok {
          return SeekFailed, sent, slept;
        }
      }
      var bytes := request.Send(stop(retryCount));
      sent := sent + [bytes];
      match attempt {
        case TimeoutError =>
        case OtherError =>
          FirstFinalIs(answers, limit, retryCount);
          return Failed, sent, slept;
        case Response(status) =>
          if !ShouldRetry(status) {
            FirstFinalIs(answers, limit, retryCount);
            return Answered(status), sent, slept;
          }
      }
      retryCount := retryCount + 1;
      if retryCount == limit {
        FirstFinalIs(answers, limit, limit);
        return Exhausted(attempt), sent, slept;
      }
      slept := slept + [GetWaitTime(retryCount - 1)];
    }
  }
}
