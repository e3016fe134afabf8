/** That a Stop of the whole program is never stuck, with messages in every place they can be in. */
module SystemProgress {
  import opened Options
  import Pool
  import PP = PoolProgress
  import L = Lifecycle
  import LG = LifecycleProgress
  import D = Delivery
  import DT = DeliveryTheorems
  import S = System
  import opened System
  import opened SystemProof

  /** What nobody has to do for Stop to return: new calls, tickers, new polls. */
  predicate IsOutside(step: S.Step) {
    match step
    case Process(st) => LG.IsOutside(st)
    case AddPoller => true
    case Receive(_, _) => true
    case PoolStep(st) => PP.IsOutside(st)
    case _ => false
  }

  lemma WorkerGoesOn(c: Pool.Conf, s: S.State, w: nat) returns (step: S.Step)
    requires c.Valid() && S.Reachable(c, s) && Inv(c, s) && D.IsExecuting(s.delivery, w)
    requires L.Next(c, s.life, L.PoolStep(Pool.Work(w))).Some?
    ensures !IsOutside(step) && S.Next(c, s, step).Some?
  {
    var st := DT.WorkerGoesOn(c, s.delivery, w);
    match st
    case BeginExecute(_) => step := BeginExecute(w);
    case EndExecute(_) => step := EndExecute(w);
    case JobStep(m, jobStep) => step := JobStep(m, jobStep);
  }

  /** A poller whose loop is in a poll goes on with its batch, or ends the poll. */
  lemma PollGoesOn(c: Pool.Conf, s: S.State, p: nat) returns (step: S.Step)
    requires c.Valid() && S.Reachable(c, s) && Inv(c, s) && L.Next(c, s.life, L.PollEnds(p, true)).Some?
    ensures !IsOutside(step) && S.Next(c, s, step).Some?
  {
    var d := s.delivery;
    assert InStep(s.life.pollers[p], d.pollers[p], p in s.polled);
    if !d.pollers[p].Idle? {
      DT.PollerGoesOn(c, d, p);
    }
    match d.pollers[p]
    case Idle => step := PollEnds(p, true);
    case AtMessage(_, _) => step := SubmitStep(c, s, p);
    case ReleasingOne(_, _) => step := Release(p);
  }

  lemma SubmitStep(c: Pool.Conf, s: S.State, p: nat) returns (step: S.Step)
    requires c.Valid() && S.Reachable(c, s) && Inv(c, s) && IsPolling(s, p) && HasMessage(s, p)
    requires D.Next(c, s.delivery, D.CallSubmit(p)).Some?
    ensures step == Submit(p) && S.Next(c, s, step).Some?
  {
    step := Submit(p);
  }

  /** The Submit a poller waits for has returned in both protocols. */
  lemma ReturnStep(c: Pool.Conf, s: S.State, p: nat) returns (step: S.Step)
    requires c.Valid() && S.Reachable(c, s) && Inv(c, s) && L.Next(c, s.life, L.SubmitReturns(p)).Some?
    ensures step == SubmitReturns(p) && S.Next(c, s, step).Some?
  {
    assert InStep(s.life.pollers[p], s.delivery.pollers[p], p in s.polled);
    step := SubmitReturns(p);
  }

  /** The pool's own next action, with the job it belongs to if it has one. */
  lemma PoolGoesOn(c: Pool.Conf, s: S.State, st: Pool.Step) returns (step: S.Step)
    requires c.Valid() && S.Reachable(c, s) && Inv(c, s) && !PP.IsOutside(st) && L.Next(c, s.life, L.PoolStep(st)).Some?
    ensures !IsOutside(step) && S.Next(c, s, step).Some?
  {
    if st.Work? && D.IsExecuting(s.delivery, st.w) {
      step := WorkerGoesOn(c, s, st.w);
    } else {
      step := PoolStep(st);
    }
  }

  /**
   From the moment the processor's Stop closes quit until it returns, some goroutine can always take its next
   action, whatever has been received, submitted or executed, and without any new call, poll or ticker.
   */
  lemma StopIsNeverStuck(c: Pool.Conf, s: S.State) returns (step: S.Step)
    requires c.Valid() && S.Reachable(c, s) && LG.IsStopping(s.life)
    ensures !IsOutside(step) && S.Next(c, s, step).Some?
  {
    ReachableInv(c, s);
    var st := LG.StopIsNeverStuck(c, s.life);
    match st {
      case MainStep => step := Main;
      case PoolStep(pst) => step := PoolGoesOn(c, s, pst);
      case SubmitReturns(p) => step := ReturnStep(c, s, p);
      case PollEnds(p, _) => step := PollGoesOn(c, s, p);
      case _ => step := Process(st);
    }
  }
}
