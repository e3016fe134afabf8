/**
 The environment of a script. It is appended to the shared global environment without a copy, so executions
 can overwrite each other's variables when that slice has spare room; here is exactly when they cannot.
 */
module Environment {
  import opened Options
  import Runs
  import opened Slices
  import opened CommandLine
  import opened CommandLineProof

  function Variables(c: Config, a: nat): seq<string>
    requires a < |c.actions| && Slices.Valid(c.heap, c.actions[a].env)
  {
    Contents(c.heap, c.actions[a].env)
  }

  /** Two lists that would both go into the spare room agree wherever both have an entry. */
  ghost predicate Agree(c: Config, a: nat, b: nat)
    requires c.WellFormed() && a < |c.actions| && b < |c.actions|
  {
    var x, y := Variables(c, a), Variables(c, b);
    Fits(c.globalEnv, x) && Fits(c.globalEnv, y) ==> forall k :: 0 <= k < |x| && k < |y| ==> x[k] == y[k]
  }

  /** Checkable when the configuration is read; it holds whenever the global environment has no spare room. */
  ghost predicate Compatible(c: Config)
    requires c.WellFormed()
  {
    forall a, b :: 0 <= a < |c.actions| && 0 <= b < |c.actions| ==> Agree(c, a, b)
  }

  /** Every execution, in every interleaving, is started with the variables of its own action. */
  ghost predicate AlwaysExact(c: Config)
    requires c.WellFormed()
  {
    forall s, i :: Reachable(c, s) && 0 <= i < |s.runs| && s.runs[i].pc == DONE && s.runs[i].request.action < |c.actions| ==>
      s.runs[i].out.env == Env(c, s.runs[i].request)
  }

  lemma NoSpareRoomIsCompatible(c: Config)
    requires c.WellFormed() && c.globalEnv.capacity == c.globalEnv.length
    ensures Compatible(c)
  {
  }

  // ----- when it holds -----

  ghost predicate EnvIsRight(c: Config, h: Heap, r: RunState)
    requires c.WellFormed() && r.request.action < |c.actions|
  {
    && (r.pc >= 6 ==> Slices.Valid(h, r.locals.env) && Contents(h, r.locals.env) == Env(c, r.request))
    && (r.pc == DONE ==> r.out.env == Env(c, r.request))
  }

  ghost predicate EnvInv(c: Config, s: State)
    requires c.WellFormed()
  {
    Inv(c, s) && forall i :: 0 <= i < |s.runs| ==> EnvIsRight(c, s.heap, s.runs[i])
  }

  /** Only the append of an action's variables writes to the array of the global environment. */
  lemma GlobalEnvAfter(c: Config, h: Heap, i: nat, r: RunState, spare: seq<string>)
    requires c.WellFormed() && ConfigKept(c, h) && RunFacts(c, h, i, r) && r.pc < DONE
    ensures RunNext(c, h, i, r, spare).Some?
    ensures var h' := RunNext(c, h, i, r, spare).value.0;
            var g, xs := c.globalEnv, Variables(c, r.request.action);
            && g.base < |h'|
            && (r.pc == 5 && Fits(g, xs) ==> h'[g.base].cells == Write(h[g.base].cells, g.offset + g.length, xs))
            && (!(r.pc == 5 && Fits(g, xs)) ==> h'[g.base] == h[g.base])
  {
    RunStep(c, h, i, r, spare);
    PieceIs(c, h, r.request, r.pc);
    ConfigContents(c, h, c.actions[r.request.action].env);
  }

  lemma OthersEnvKept(c: Config, h: Heap, i: nat, r: RunState, spare: seq<string>, j: nat, other: RunState)
    requires c.WellFormed() && Compatible(c) && ConfigKept(c, h) && i != j && r.pc < DONE
    requires RunFacts(c, h, i, r) && RunFacts(c, h, j, other) && EnvIsRight(c, h, other)
    ensures RunNext(c, h, i, r, spare).Some? && EnvIsRight(c, RunNext(c, h, i, r, spare).value.0, other)
  {
    RunStep(c, h, i, r, spare);
    GlobalEnvAfter(c, h, i, r, spare);
    OthersKeep(c, h, i, RunNext(c, h, i, r, spare).value.0, j, other);
    if other.pc >= 6 && IsInPlace(c, other) {
      assert Agree(c, r.request.action, other.request.action);
      InPlaceKept(c, h, i, r, spare, other);
    }
  }

  /** Writing x where a slice has y already changes nothing that the slice covers, if the two agree. */
  lemma SameOverwritten(cells: seq<string>, cells': seq<string>, t: Slice, n: nat, x: seq<string>, y: seq<string>)
    requires t.offset + n + |x| <= |cells| && n + |y| == t.length && t.offset + t.length <= |cells|
    requires cells' == Write(cells, t.offset + n, x)
    requires cells[t.offset..t.offset + t.length][n..] == y
    requires forall k :: 0 <= k < |x| && k < |y| ==> x[k] == y[k]
    ensures cells'[t.offset..t.offset + t.length] == cells[t.offset..t.offset + t.length]
  {
    var was := cells[t.offset..t.offset + t.length];
    forall k | 0 <= k < t.length
      ensures cells'[t.offset..t.offset + t.length][k] == was[k]
    {
      if n <= k < n + |x| {
        assert was[n..][k - n] == was[k];
      }
    }
  }

  lemma InPlaceKept(c: Config, h: Heap, i: nat, r: RunState, spare: seq<string>, other: RunState)
    requires c.WellFormed() && ConfigKept(c, h) && RunFacts(c, h, i, r) && r.pc < DONE
    requires other.request.action < |c.actions| && other.pc >= 6 && IsInPlace(c, other) && EnvIsRight(c, h, other)
    requires Agree(c, r.request.action, other.request.action)
    ensures RunNext(c, h, i, r, spare).Some? && EnvIsRight(c, RunNext(c, h, i, r, spare).value.0, other)
  {
    GlobalEnvAfter(c, h, i, r, spare);
    var h' := RunNext(c, h, i, r, spare).value.0;
    var g, t := c.globalEnv, other.locals.env;
    var x, y := Variables(c, r.request.action), Variables(c, other.request.action);
    if r.pc == 5 && Fits(g, x) {
      assert Contents(h, t)[g.length..] == y;
      SameOverwritten(h[t.base].cells, h'[t.base].cells, t, g.length, x, y);
    }
  }

  lemma OwnEnvRight(c: Config, h: Heap, i: nat, r: RunState, spare: seq<string>)
    requires c.WellFormed() && ConfigKept(c, h) && RunFacts(c, h, i, r) && r.pc < DONE && EnvIsRight(c, h, r)
    ensures RunNext(c, h, i, r, spare).Some?
    ensures EnvIsRight(c, RunNext(c, h, i, r, spare).value.0, RunNext(c, h, i, r, spare).value.1)
  {
    RunStep(c, h, i, r, spare);
    GlobalEnvAfter(c, h, i, r, spare);
    PieceIs(c, h, r.request, r.pc);
    if r.pc == 5 {
      GlobalEnvContents(c, h);
      ConfigContents(c, h, c.actions[r.request.action].env);
      AppendContents(h, i, c.globalEnv, Variables(c, r.request.action), spare);
    }
  }

  lemma StepKeepsEnvInv(c: Config, s: State, step: Step, next: State)
    requires c.WellFormed() && Compatible(c) && EnvInv(c, s) && Next(c, s, step) == Some(next)
    ensures EnvInv(c, next)
  {
    StepKeepsInv(c, s, step, next);
    if step.Advance? {
      var i, spare := step.i, step.spare;
      assert RunFacts(c, s.heap, i, s.runs[i]);
      RunStep(c, s.heap, i, s.runs[i], spare);
      forall j | 0 <= j < |next.runs|
        ensures EnvIsRight(c, next.heap, next.runs[j])
      {
        if j == i {
          OwnEnvRight(c, s.heap, i, s.runs[i], spare);
        } else {
          OthersEnvKept(c, s.heap, i, s.runs[i], spare, j, s.runs[j]);
        }
      }
    }
  }

  lemma ReachableEnvInv(c: Config, s: State)
    requires c.WellFormed() && Compatible(c) && Reachable(c, s)
    ensures EnvInv(c, s)
  {
    forall t, step | EnvInv(c, t) && Next(c, t, step).Some?
      ensures EnvInv(c, Next(c, t, step).value)
    {
      StepKeepsEnvInv(c, t, step, Next(c, t, step).value);
    }
    Runs.Invariant(Steps(c), Initial(c), s, t => EnvInv(c, t));
  }

  lemma CompatibleIsExact(c: Config)
    requires c.WellFormed() && Compatible(c)
    ensures AlwaysExact(c)
    ensures forall s, i :: Reachable(c, s) && 0 <= i < |s.runs| && s.runs[i].pc == DONE && s.runs[i].request.action < |c.actions| ==>
              s.runs[i].out.env == Contents(c.heap, c.globalEnv) + Contents(c.heap, c.actions[s.runs[i].request.action].env)
  {
    forall s, i | Reachable(c, s) && 0 <= i < |s.runs| && s.runs[i].pc == DONE && s.runs[i].request.action < |c.actions|
      ensures s.runs[i].out.env == Env(c, s.runs[i].request)
    {
      ReachableEnvInv(c, s);
    }
  }

  // ----- and when it does not -----

  /** What a statement means for the environment of the run that takes it. */
  lemma OwnEnvAfter(c: Config, h: Heap, i: nat, r: RunState, spare: seq<string>)
    requires c.WellFormed() && ConfigKept(c, h) && RunFacts(c, h, i, r) && r.pc < DONE
    ensures RunNext(c, h, i, r, spare).Some?
    ensures var r' := RunNext(c, h, i, r, spare).value.1;
            var g, xs := c.globalEnv, Variables(c, r.request.action);
            && r'.pc == r.pc + 1 && r'.request == r.request
            && (r.pc != 5 ==> r'.locals.env == r.locals.env)
            && (r.pc == 5 && Fits(g, xs) ==> r'.locals.env == g.(length := g.length + |xs|))
            && (r.pc == 10 ==> Slices.Valid(h, r.locals.env) && r'.out.env == Contents(h, r.locals.env))
  {
    RunStep(c, h, i, r, spare);
    PieceIs(c, h, r.request, r.pc);
    if r.pc == 5 {
      ConfigContents(c, h, c.actions[r.request.action].env);
    }
  }

  /** The next statement of run i, and what it means for the environments. */
  lemma TakeOne(c: Config, s: State, i: nat) returns (s': State)
    requires c.WellFormed() && Reachable(c, s) && i < |s.runs| && s.runs[i].pc < DONE
    ensures Reachable(c, s') && |s'.runs| == |s.runs| && s'.runs == s.runs[i := s'.runs[i]]
    ensures s'.runs[i].pc == s.runs[i].pc + 1 && s'.runs[i].request == s.runs[i].request
    ensures s.runs[i].request.action < |c.actions| && c.globalEnv.base < |s.heap| && c.globalEnv.base < |s'.heap|
    ensures s.runs[i].pc != 5 ==> s'.runs[i].locals.env == s.runs[i].locals.env && s'.heap[c.globalEnv.base] == s.heap[c.globalEnv.base]
    ensures var g, xs := c.globalEnv, Variables(c, s.runs[i].request.action);
            s.runs[i].pc == 5 && Fits(g, xs) ==>
              && s'.runs[i].locals.env == g.(length := g.length + |xs|)
              && g.offset + g.length + |xs| <= |s.heap[g.base].cells|
              && s'.heap[g.base].cells == Write(s.heap[g.base].cells, g.offset + g.length, xs)
    ensures s.runs[i].pc == 10 ==> Slices.Valid(s.heap, s.runs[i].locals.env)
                                   && s'.runs[i].out.env == Contents(s.heap, s.runs[i].locals.env)
  {
    ReachableInv(c, s);
    var h, r := s.heap, s.runs[i];
    assert RunFacts(c, h, i, r);
    GlobalEnvAfter(c, h, i, r, []);
    OwnEnvAfter(c, h, i, r, []);
    s' := Take(c, s, Advance(i, []));
  }

  /** Run i goes on alone to statement n, without the append of its variables in between. */
  lemma {:induction false} TakeUntil(c: Config, s: State, i: nat, n: nat) returns (s': State)
    requires c.WellFormed() && Reachable(c, s) && i < |s.runs| && s.runs[i].pc <= n <= DONE && (n <= 5 || s.runs[i].pc >= 6)
    requires c.globalEnv.base < |s.heap|
    ensures Reachable(c, s') && |s'.runs| == |s.runs| && s'.runs == s.runs[i := s'.runs[i]]
    ensures s'.runs[i].pc == n && s'.runs[i].request == s.runs[i].request && s'.runs[i].locals.env == s.runs[i].locals.env
    ensures c.globalEnv.base < |s'.heap| && s'.heap[c.globalEnv.base] == s.heap[c.globalEnv.base]
    decreases n - s.runs[i].pc
  {
    if s.runs[i].pc == n {
      s' := s;
    } else {
      var next := TakeOne(c, s, i);
      s' := TakeUntil(c, next, i, n);
    }
  }

  function RequestOf(a: nat): Request {
    Request(a, Flags([], []), "", Script("", ""), "")
  }

  /** Two executions begun, the first one's variables in the spare room, then the second one's over them. */
  lemma BothInPlace(c: Config, a: nat, b: nat) returns (s: State)
    requires c.WellFormed() && a < |c.actions| && b < |c.actions|
    requires Fits(c.globalEnv, Variables(c, a)) && Fits(c.globalEnv, Variables(c, b))
    ensures Reachable(c, s) && |s.runs| == 2 && s.runs[0].pc == 6 && s.runs[0].request == RequestOf(a)
    ensures var g, x, y := c.globalEnv, Variables(c, a), Variables(c, b);
            && s.runs[0].locals.env == g.(length := g.length + |x|)
            && g.base < |s.heap| && g.offset + g.length + |y| <= |s.heap[g.base].cells|
            && s.heap[g.base].cells[g.offset + g.length..g.offset + g.length + |y|] == y
  {
    Runs.Initially(Steps(c), Initial(c));
    s := Take(c, Initial(c), Begin(RequestOf(a)));
    s := Take(c, s, Begin(RequestOf(b)));
    s := TakeUntil(c, s, 0, 5);
    s := TakeOne(c, s, 0);
    s := TakeUntil(c, s, 1, 5);
    s := TakeOne(c, s, 1);
  }

  /** The first of them is then started with an entry that belongs to the second. */
  lemma IncompatibleIsInexact(c: Config, a: nat, b: nat, k: nat)
    requires c.WellFormed() && a < |c.actions| && b < |c.actions|
    requires Fits(c.globalEnv, Variables(c, a)) && Fits(c.globalEnv, Variables(c, b))
    requires k < |Variables(c, a)| && k < |Variables(c, b)| && Variables(c, a)[k] != Variables(c, b)[k]
    ensures !AlwaysExact(c)
  {
    var g, x, y := c.globalEnv, Variables(c, a), Variables(c, b);
    var s := BothInPlace(c, a, b);
    s := TakeUntil(c, s, 0, 10);
    var cells := s.heap[g.base].cells;
    assert cells[g.offset + g.length..g.offset + g.length + |y|][k] == y[k];
    var last := TakeOne(c, s, 0);
    assert last.runs[0].out.env[g.length + k] == cells[g.offset + g.length + k] == y[k];
    assert Env(c, RequestOf(a))[g.length + k] == x[k];
    assert last.runs[0].out.env != Env(c, last.runs[0].request);
  }

  /** The environment is exact in every interleaving for the compatible configurations, and for no others. */
  lemma ExactExactlyWhen(c: Config)
    requires c.WellFormed()
    ensures AlwaysExact(c) <==> Compatible(c)
  {
    if Compatible(c) {
      CompatibleIsExact(c);
    } else {
      var a, b :| 0 <= a < |c.actions| && 0 <= b < |c.actions| && !Agree(c, a, b);
      var k :| 0 <= k < |Variables(c, a)| && k < |Variables(c, b)| && Variables(c, a)[k] != Variables(c, b)[k];
      IncompatibleIsInexact(c, a, b, k);
    }
  }
}
