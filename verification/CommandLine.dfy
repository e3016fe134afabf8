/**
 How queue/message.go and runbook/executor.go build the arguments and the environment of a script, with
 appends on slices that start from the shared configuration, while any number of executions do the same.
 */
module CommandLine {
  import opened Options
  import Runs
  import opened Slices

  datatype Action = Action(args: Slice, env: Slice)

  /** The configuration as decoded, and the executables table; heap holds their arrays. */
  datatype Config = Config(heap: Heap, globalArgs: Slice, globalEnv: Slice, actions: seq<Action>, table: map<string, Slice>) {

    /**
     Every slice lies in the heap, no array is yet anybody's, no other slice shares the array of the global
     environment (a decoder gives each list its own), and the table's composite literals have no spare room.
     */
    ghost predicate WellFormed() {
      && (forall a :: 0 <= a < |heap| ==> !heap[a].ofRun)
      && Slices.Valid(heap, globalEnv)
      && Slices.Valid(heap, globalArgs) && globalArgs.base != globalEnv.base
      && (forall i :: 0 <= i < |actions| ==>
            Slices.Valid(heap, actions[i].args) && actions[i].args.base != globalEnv.base
            && Slices.Valid(heap, actions[i].env) && actions[i].env.base != globalEnv.base)
      && (forall e :: e in table ==>
            Slices.Valid(heap, table[e]) && table[e].base != globalEnv.base && table[e].length >= 1 && table[e].capacity == table[e].length)
    }
  }

  datatype Flags = Flags(global: seq<string>, own: seq<string>)
  datatype Script = Script(path: string, extension: string)

  /** One execution: the flags in the order the maps yield them, the message body, the script and its pipe. */
  datatype Request = Request(action: nat, flags: Flags, body: string, script: Script, pipe: string)

  datatype Locals = Locals(args: Slice, env: Slice, command: Slice)
  datatype Out = Out(argv: seq<string>, env: seq<string>)

  /** pc counts the statements that are done; out is what the process is started with. */
  datatype RunState = RunState(request: Request, pc: nat, locals: Locals, out: Out)

  datatype State = State(heap: Heap, runs: seq<RunState>)

  datatype Step = Begin(request: Request) | Advance(i: nat, spare: seq<string>)

  const NIL: Slice := Slice(0, 0, 0, 0)
  const DONE: nat := 11

  function Initial(c: Config): State { State(c.heap, []) }

  function Tail(s: Slice): Slice
    requires s.length >= 1 && s.capacity >= 1
  {
    Slice(s.base, s.offset + 1, s.length - 1, s.capacity - 1)
  }

  predicate HasCommand(c: Config, q: Request) { q.script.extension in c.table }

  /** What statement pc appends to args, for the statements that do. */
  function Piece(c: Config, h: Heap, q: Request, pc: nat): Option<seq<string>> {
    if pc == 1 then Some(q.flags.own)
    else if pc == 2 then Some(["-payload", q.body])
    else if pc == 3 then (if Slices.Valid(h, c.globalArgs) then Some(Contents(h, c.globalArgs)) else None)
    else if pc == 4 then
      (if q.action < |c.actions| && Slices.Valid(h, c.actions[q.action].args) then Some(Contents(h, c.actions[q.action].args)) else None)
    else if pc == 6 then Some(["--jecNamedPipe", q.pipe])
    else None
  }

  /** The statement of a run that is at pc; spare is the room a new array would get. */
  function RunNext(c: Config, h: Heap, i: nat, r: RunState, spare: seq<string>): Option<(Heap, RunState)> {
    var q, l := r.request, r.locals;
    if r.pc == 0 then
      var (h', args) := Alloc(h, i, q.flags.global, spare);
      Some((h', r.(pc := 1, locals := l.(args := args))))
    else if Piece(c, h, q, r.pc).Some? then
      if !Slices.Valid(h, l.args) then None else
      var (h', args) := Append(h, i, l.args, Piece(c, h, q, r.pc).value, spare);
      Some((h', r.(pc := r.pc + 1, locals := l.(args := args))))
    else if r.pc == 5 then
      if q.action >= |c.actions| || !Slices.Valid(h, c.globalEnv) || !Slices.Valid(h, c.actions[q.action].env) then None else
      var (h', env) := Append(h, i, c.globalEnv, Contents(h, c.actions[q.action].env), spare);
      Some((h', r.(pc := 6, locals := l.(env := env))))
    else if r.pc == 7 then
      if !HasCommand(c, q) then Some((h, r.(pc := 8))) else
      var entry := c.table[q.script.extension];
      if entry.length < 1 || entry.capacity < 1 || !Slices.Valid(h, Tail(entry)) then None else
      var (h', command) := Append(h, i, Tail(entry), [q.script.path], spare);
      Some((h', r.(pc := 8, locals := l.(command := command))))
    else if r.pc == 8 then
      if !HasCommand(c, q) then Some((h, r.(pc := 9))) else
      if !Slices.Valid(h, l.command) || !Slices.Valid(h, l.args) then None else
      var (h', args) := Append(h, i, l.command, Contents(h, l.args), spare);
      Some((h', r.(pc := 9, locals := l.(args := args))))
    else if r.pc == 9 then
      if !Slices.Valid(h, l.args) then None else
      if !HasCommand(c, q) then Some((h, r.(pc := 10, out := r.out.(argv := [q.script.path] + Contents(h, l.args))))) else
      var entry := c.table[q.script.extension];
      if !Slices.Valid(h, entry) || entry.length < 1 then None else
      Some((h, r.(pc := 10, out := r.out.(argv := [Contents(h, entry)[0]] + Contents(h, l.args)))))
    else if r.pc == 10 then
      if !Slices.Valid(h, l.env) then None else
      Some((h, r.(pc := DONE, out := r.out.(env := Contents(h, l.env)))))
    else None
  }

  function Next(c: Config, s: State, step: Step): Option<State> {
    match step
    case Begin(q) =>
      if q.action < |c.actions| then Some(s.(runs := s.runs + [RunState(q, 0, Locals(NIL, NIL, NIL), Out([], []))])) else None
    case Advance(i, spare) =>
      if i >= |s.runs| then None else
      var e := RunNext(c, s.heap, i, s.runs[i], spare);
      if e.Some? then Some(State(e.value.0, s.runs[i := e.value.1])) else None
  }

  function Steps(c: Config): (State, Step) -> Option<State> {
    (s, step) => Next(c, s, step)
  }

  ghost predicate Reachable(c: Config, s: State) {
    Runs.Reachable(Steps(c), Initial(c), s)
  }

  lemma Take(c: Config, s: State, step: Step) returns (s': State)
    requires Reachable(c, s) && Next(c, s, step).Some?
    ensures s' == Next(c, s, step).value && Reachable(c, s')
  {
    s' := Next(c, s, step).value;
    Runs.Further(Steps(c), Initial(c), s, step);
  }

  // ----- what each execution should get -----

  /** The arguments of the script itself. */
  ghost function ScriptArgs(c: Config, q: Request): seq<string>
    requires c.WellFormed() && q.action < |c.actions|
  {
    q.flags.global + q.flags.own + ["-payload", q.body] + Contents(c.heap, c.globalArgs)
    + Contents(c.heap, c.actions[q.action].args) + ["--jecNamedPipe", q.pipe]
  }

  ghost function Argv(c: Config, q: Request): seq<string>
    requires c.WellFormed() && q.action < |c.actions|
  {
    (if HasCommand(c, q) then Contents(c.heap, c.table[q.script.extension]) else []) + [q.script.path] + ScriptArgs(c, q)
  }

  ghost function Env(c: Config, q: Request): seq<string>
    requires c.WellFormed() && q.action < |c.actions|
  {
    Contents(c.heap, c.globalEnv) + Contents(c.heap, c.actions[q.action].env)
  }

  /** What args holds when pc statements are done. */
  ghost function ArgsAt(c: Config, q: Request, pc: nat): seq<string>
    requires c.WellFormed() && q.action < |c.actions|
  {
    if pc == 0 then []
    else if pc == 1 then q.flags.global
    else if pc == 2 then q.flags.global + q.flags.own
    else if pc == 3 then q.flags.global + q.flags.own + ["-payload", q.body]
    else if pc == 4 then q.flags.global + q.flags.own + ["-payload", q.body] + Contents(c.heap, c.globalArgs)
    else if pc <= 6 then
      q.flags.global + q.flags.own + ["-payload", q.body] + Contents(c.heap, c.globalArgs) + Contents(c.heap, c.actions[q.action].args)
    else if pc <= 8 then ScriptArgs(c, q)
    else if HasCommand(c, q) then Contents(c.heap, c.table[q.script.extension])[1..] + [q.script.path] + ScriptArgs(c, q)
    else ScriptArgs(c, q)
  }

  // ----- the invariant -----

  /** Configuration arrays are as they were, but for the spare room behind the global environment. */
  ghost predicate ConfigKept(c: Config, h: Heap)
    requires c.WellFormed()
  {
    && |h| >= |c.heap|
    && (forall a :: 0 <= a < |c.heap| && a != c.globalEnv.base ==> h[a] == c.heap[a])
    && (forall a :: |c.heap| <= a < |h| ==> h[a].ofRun)
    && GlobalEnvKept(c, h[c.globalEnv.base])
  }

  ghost predicate GlobalEnvKept(c: Config, a: Array)
    requires c.WellFormed()
  {
    var e, was := c.globalEnv, c.heap[c.globalEnv.base];
    && !a.ofRun && |a.cells| == |was.cells|
    && forall k :: 0 <= k < |a.cells| && !(e.offset + e.length <= k < e.offset + e.capacity) ==> a.cells[k] == was.cells[k]
  }

  predicate Owned(h: Heap, i: nat, s: Slice) {
    Slices.Valid(h, s) && h[s.base].ofRun && h[s.base].owner == i
  }

  /** The environment slice of a run whose appended variables went into the spare room. */
  ghost predicate IsInPlace(c: Config, r: RunState)
    requires c.WellFormed() && r.request.action < |c.actions|
  {
    var xs := Contents(c.heap, c.actions[r.request.action].env);
    Fits(c.globalEnv, xs) && r.locals.env == c.globalEnv.(length := c.globalEnv.length + |xs|)
  }

  ghost predicate EnvFacts(c: Config, h: Heap, i: nat, r: RunState)
    requires c.WellFormed() && r.request.action < |c.actions|
  {
    || IsInPlace(c, r)
    || (Owned(h, i, r.locals.env) && Contents(h, r.locals.env) == Env(c, r.request) && r.locals.env.base != r.locals.args.base)
  }

  ghost predicate RunFacts(c: Config, h: Heap, i: nat, r: RunState)
    requires c.WellFormed()
  {
    && r.request.action < |c.actions| && r.pc <= DONE
    && (r.pc >= 1 ==> Owned(h, i, r.locals.args) && Contents(h, r.locals.args) == ArgsAt(c, r.request, r.pc))
    && (r.pc >= 6 ==> EnvFacts(c, h, i, r))
    && (r.pc == 8 && HasCommand(c, r.request) ==>
          && Owned(h, i, r.locals.command) && r.locals.command.base != r.locals.env.base
          && Contents(h, r.locals.command) == Contents(c.heap, c.table[r.request.script.extension])[1..] + [r.request.script.path])
    && (r.pc >= 10 ==> r.out.argv == Argv(c, r.request))
  }

  ghost predicate Inv(c: Config, s: State)
    requires c.WellFormed()
  {
    ConfigKept(c, s.heap) && forall i :: 0 <= i < |s.runs| ==> RunFacts(c, s.heap, i, s.runs[i])
  }

  /** A statement of run i touches its own arrays, makes new ones, and may use the room behind the global environment. */
  ghost predicate HeapMove(c: Config, h: Heap, i: nat, h': Heap)
    requires c.WellFormed()
  {
    && |h| <= |h'|
    && (forall a :: 0 <= a < |h| && a != c.globalEnv.base && !(h[a].ofRun && h[a].owner == i) ==> h'[a] == h[a])
  }

  lemma OthersKeep(c: Config, h: Heap, i: nat, h': Heap, j: nat, r: RunState)
    requires c.WellFormed() && ConfigKept(c, h) && HeapMove(c, h, i, h') && i != j && RunFacts(c, h, j, r)
    ensures RunFacts(c, h', j, r)
  {
  }

  /** The contents of a configuration slice that is not the global environment. */
  lemma ConfigContents(c: Config, h: Heap, s: Slice)
    requires c.WellFormed() && ConfigKept(c, h) && Slices.Valid(c.heap, s) && s.base != c.globalEnv.base
    ensures Slices.Valid(h, s) && Contents(h, s) == Contents(c.heap, s)
  {
  }

  lemma GlobalEnvContents(c: Config, h: Heap)
    requires c.WellFormed() && ConfigKept(c, h)
    ensures Slices.Valid(h, c.globalEnv) && Contents(h, c.globalEnv) == Contents(c.heap, c.globalEnv)
  {
  }
}
