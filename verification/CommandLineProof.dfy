/** The arguments of every execution are exact whatever runs beside it; the environment, exactly under a condition. */
module CommandLineProof {
  import opened Options
  import Runs
  import opened Slices
  import opened CommandLine

  ghost predicate Good(c: Config, h: Heap, i: nat, r: RunState, e: (Heap, RunState))
    requires c.WellFormed()
  {
    ConfigKept(c, e.0) && HeapMove(c, h, i, e.0) && RunFacts(c, e.0, i, e.1) && e.1.pc == r.pc + 1 && e.1.request == r.request
  }

  lemma PieceIs(c: Config, h: Heap, q: Request, pc: nat)
    requires c.WellFormed() && ConfigKept(c, h) && q.action < |c.actions|
    ensures Piece(c, h, q, pc).Some? <==> (1 <= pc <= 4 || pc == 6)
    ensures Piece(c, h, q, pc).Some? ==> ArgsAt(c, q, pc + 1) == ArgsAt(c, q, pc) + Piece(c, h, q, pc).value
  {
    ConfigContents(c, h, c.globalArgs);
    ConfigContents(c, h, c.actions[q.action].args);
  }

  lemma PieceStep(c: Config, h: Heap, i: nat, r: RunState, spare: seq<string>)
    requires c.WellFormed() && ConfigKept(c, h) && RunFacts(c, h, i, r) && (1 <= r.pc <= 4 || r.pc == 6)
    ensures RunNext(c, h, i, r, spare).Some? && Good(c, h, i, r, RunNext(c, h, i, r, spare).value)
  {
    PieceIs(c, h, r.request, r.pc);
    AppendContents(h, i, r.locals.args, Piece(c, h, r.request, r.pc).value, spare);
  }

  lemma FirstStep(c: Config, h: Heap, i: nat, r: RunState, spare: seq<string>)
    requires c.WellFormed() && ConfigKept(c, h) && RunFacts(c, h, i, r) && r.pc == 0
    ensures RunNext(c, h, i, r, spare).Some? && Good(c, h, i, r, RunNext(c, h, i, r, spare).value)
  {
    var (h', args) := Alloc(h, i, r.request.flags.global, spare);
    assert Contents(h', args) == r.request.flags.global;
    assert Piece(c, h, r.request, 0) == None;
  }

  lemma EnvStep(c: Config, h: Heap, i: nat, r: RunState, spare: seq<string>)
    requires c.WellFormed() && ConfigKept(c, h) && RunFacts(c, h, i, r) && r.pc == 5
    ensures RunNext(c, h, i, r, spare).Some? && Good(c, h, i, r, RunNext(c, h, i, r, spare).value)
  {
    PieceIs(c, h, r.request, 5);
    GlobalEnvContents(c, h);
    ConfigContents(c, h, c.actions[r.request.action].env);
    AppendContents(h, i, c.globalEnv, Contents(h, c.actions[r.request.action].env), spare);
  }

  lemma CommandStep(c: Config, h: Heap, i: nat, r: RunState, spare: seq<string>)
    requires c.WellFormed() && ConfigKept(c, h) && RunFacts(c, h, i, r) && r.pc == 7
    ensures RunNext(c, h, i, r, spare).Some? && Good(c, h, i, r, RunNext(c, h, i, r, spare).value)
  {
    PieceIs(c, h, r.request, 7);
    if HasCommand(c, r.request) {
      var entry := c.table[r.request.script.extension];
      ConfigContents(c, h, entry);
      assert Contents(h, Tail(entry)) == Contents(h, entry)[1..];
      AppendContents(h, i, Tail(entry), [r.request.script.path], spare);
    }
  }

  lemma JoinStep(c: Config, h: Heap, i: nat, r: RunState, spare: seq<string>)
    requires c.WellFormed() && ConfigKept(c, h) && RunFacts(c, h, i, r) && r.pc == 8
    ensures RunNext(c, h, i, r, spare).Some? && Good(c, h, i, r, RunNext(c, h, i, r, spare).value)
  {
    PieceIs(c, h, r.request, 8);
    if HasCommand(c, r.request) {
      AppendContents(h, i, r.locals.command, Contents(h, r.locals.args), spare);
    }
  }

  lemma OutStep(c: Config, h: Heap, i: nat, r: RunState, spare: seq<string>)
    requires c.WellFormed() && ConfigKept(c, h) && RunFacts(c, h, i, r) && (r.pc == 9 || r.pc == 10)
    ensures RunNext(c, h, i, r, spare).Some? && Good(c, h, i, r, RunNext(c, h, i, r, spare).value)
  {
    PieceIs(c, h, r.request, r.pc);
    GlobalEnvContents(c, h);
    if r.pc == 9 && HasCommand(c, r.request) {
      var entry := c.table[r.request.script.extension];
      ConfigContents(c, h, entry);
      var was := Contents(c.heap, entry);
      assert was == [was[0]] + was[1..];
      assert [was[0]] + (was[1..] + [r.request.script.path] + ScriptArgs(c, r.request)) == Argv(c, r.request);
    }
    if r.pc == 9 && !HasCommand(c, r.request) {
      assert [] + [r.request.script.path] + ScriptArgs(c, r.request) == [r.request.script.path] + ScriptArgs(c, r.request);
    }
  }

  /** Every statement of an execution can be taken, and does what it should. */
  lemma RunStep(c: Config, h: Heap, i: nat, r: RunState, spare: seq<string>)
    requires c.WellFormed() && ConfigKept(c, h) && RunFacts(c, h, i, r)
    ensures r.pc < DONE ==> RunNext(c, h, i, r, spare).Some? && Good(c, h, i, r, RunNext(c, h, i, r, spare).value)
    ensures r.pc == DONE ==> RunNext(c, h, i, r, spare) == None
  {
    if r.pc == 0 {
      FirstStep(c, h, i, r, spare);
    } else if r.pc == 5 {
      EnvStep(c, h, i, r, spare);
    } else if r.pc == 7 {
      CommandStep(c, h, i, r, spare);
    } else if r.pc == 8 {
      JoinStep(c, h, i, r, spare);
    } else if r.pc == 9 || r.pc == 10 {
      OutStep(c, h, i, r, spare);
    } else if r.pc < DONE {
      PieceStep(c, h, i, r, spare);
    }
  }

  lemma StepKeepsInv(c: Config, s: State, step: Step, s': State)
    requires c.WellFormed() && Inv(c, s) && Next(c, s, step) == Some(s')
    ensures Inv(c, s')
  {
    if step.Advance? {
      var i := step.i;
      RunStep(c, s.heap, i, s.runs[i], step.spare);
      forall j | 0 <= j < |s'.runs|
        ensures RunFacts(c, s'.heap, j, s'.runs[j])
      {
        if j != i {
          OthersKeep(c, s.heap, i, s'.heap, j, s.runs[j]);
        }
      }
    }
  }

  lemma ReachableInv(c: Config, s: State)
    requires c.WellFormed() && Reachable(c, s)
    ensures Inv(c, s)
  {
    forall t, step | Inv(c, t) && Next(c, t, step).Some?
      ensures Inv(c, Next(c, t, step).value)
    {
      StepKeepsInv(c, t, step, Next(c, t, step).value);
    }
    Runs.Invariant(Steps(c), Initial(c), s, t => Inv(c, t));
  }

  // ----- the arguments -----

  /**
   Whatever else runs, a script is started with exactly the arguments its message and the configuration call
   for: the command of its extension, if the table has one, its path, the global flags, the action's flags, the
   body, the global arguments, the action's arguments and the pipe, in this order.
   */
  lemma ArgumentsAreExact(c: Config, s: State, i: nat)
    requires c.WellFormed() && Reachable(c, s) && i < |s.runs| && s.runs[i].pc >= 10
    ensures var q := s.runs[i].request;
            && q.action < |c.actions|
            && s.runs[i].out.argv ==
                 (if q.script.extension in c.table then Contents(c.heap, c.table[q.script.extension]) else [])
                 + [q.script.path]
                 + (q.flags.global + q.flags.own + ["-payload", q.body]
                    + Contents(c.heap, c.globalArgs) + Contents(c.heap, c.actions[q.action].args)
                    + ["--jecNamedPipe", q.pipe])
  {
    ReachableInv(c, s);
  }

  /** The executables table, the global arguments, the actions' lists and the global environment never change. */
  lemma ConfigurationNeverChanges(c: Config, s: State)
    requires c.WellFormed() && Reachable(c, s)
    ensures Slices.Valid(s.heap, c.globalArgs) && Contents(s.heap, c.globalArgs) == Contents(c.heap, c.globalArgs)
    ensures Slices.Valid(s.heap, c.globalEnv) && Contents(s.heap, c.globalEnv) == Contents(c.heap, c.globalEnv)
    ensures forall e :: e in c.table ==>
              Slices.Valid(s.heap, c.table[e]) && Contents(s.heap, c.table[e]) == Contents(c.heap, c.table[e])
    ensures forall a :: 0 <= a < |c.actions| ==>
              && Slices.Valid(s.heap, c.actions[a].args) && Contents(s.heap, c.actions[a].args) == Contents(c.heap, c.actions[a].args)
              && Slices.Valid(s.heap, c.actions[a].env) && Contents(s.heap, c.actions[a].env) == Contents(c.heap, c.actions[a].env)
  {
    ReachableInv(c, s);
    GlobalEnvContents(c, s.heap);
    ConfigContents(c, s.heap, c.globalArgs);
    forall e | e in c.table
      ensures Slices.Valid(s.heap, c.table[e]) && Contents(s.heap, c.table[e]) == Contents(c.heap, c.table[e])
    {
      ConfigContents(c, s.heap, c.table[e]);
    }
    forall a | 0 <= a < |c.actions|
      ensures Slices.Valid(s.heap, c.actions[a].args) && Contents(s.heap, c.actions[a].args) == Contents(c.heap, c.actions[a].args)
      ensures Slices.Valid(s.heap, c.actions[a].env) && Contents(s.heap, c.actions[a].env) == Contents(c.heap, c.actions[a].env)
    {
      ConfigContents(c, s.heap, c.actions[a].args);
      ConfigContents(c, s.heap, c.actions[a].env);
    }
  }
}
