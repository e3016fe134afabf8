/** The message handler of queue/message.go: which action a message names, and what its execution is reported as. */
module MessageHandler {
  import opened Options
  import J = JobProtocol
  import Runs

  const HTTP_ACTION_TYPE: string := "http"

  /** A message body after json.Unmarshal, as far as Handle looks at it. */
  datatype Body = Undecodable | Payload(mappedName: string, action: string, actionType: string, discardResponse: bool)

  datatype Source = GitSource(url: string) | LocalSource | OtherSource

  datatype MappedAction = MappedAction(actionType: string, source: Source)

  datatype ScriptEnd = ScriptOk(isHttpResponse: bool) | ScriptFailed

  /** The result payload, if there is one, and whether Handle returned an error. */
  datatype Report = Report(hasResult: bool, isSuccessful: bool, hasHttpResponse: bool, failed: bool)

  /** The name an action is looked up by; empty when the message has none. */
  function ActionName(b: Body): string
    requires b.Payload?
  {
    if b.mappedName == "" then b.action else b.mappedName
  }

  /** The action the message names is configured, with the type the message asks for. */
  predicate Resolves(actions: map<string, MappedAction>, b: Body) {
    b.Payload? && ActionName(b) != "" && ActionName(b) in actions && actions[ActionName(b)].actionType == b.actionType
  }

  /** Its script can be started: it is a local one, or one of a repository that has been downloaded. */
  predicate CanStart(repositories: Option<set<string>>, source: Source) {
    match source
    case GitSource(url) => repositories.Some? && url in repositories.value
    case LocalSource => true
    case OtherSource => false
  }

  predicate Starts(actions: map<string, MappedAction>, repositories: Option<set<string>>, b: Body) {
    Resolves(actions, b) && CanStart(repositories, actions[ActionName(b)].source)
  }

  /** There is a result for every script started and for every named action that does not resolve. */
  predicate HasResult(actions: map<string, MappedAction>, repositories: Option<set<string>>, b: Body) {
    Starts(actions, repositories, b) || (b.Payload? && ActionName(b) != "" && !Resolves(actions, b))
  }

  /** An http action whose output is wanted. */
  predicate WantsHttpResponse(b: Body) {
    b.Payload? && b.actionType == HTTP_ACTION_TYPE && !b.discardResponse
  }

  /** What is reported for a message; end is how the script ends if it is started. */
  function ReportOf(actions: map<string, MappedAction>, repositories: Option<set<string>>, b: Body, end: ScriptEnd): Report {
    var starts := Starts(actions, repositories, b);
    Report(HasResult(actions, repositories, b),
           starts && end.ScriptOk? && (WantsHttpResponse(b) ==> end.isHttpResponse),
           starts && end.ScriptOk? && WantsHttpResponse(b) && end.isHttpResponse,
           !starts)
  }

  class MessageHandler {
    const actions: map<string, MappedAction>
    const repositories: Option<set<string>>

    // scripts started
    ghost var started: nat

    constructor (actions: map<string, MappedAction>, repositories: Option<set<string>>)
      ensures this.actions == actions && this.repositories == repositories && started == 0
    {
      this.actions, this.repositories := actions, repositories;
      started := 0;
    }

    /** end is how the script ends if it is started. */
    method Execute(action: MappedAction, end: ScriptEnd) returns (r: Option<ScriptEnd>)
      modifies this
      ensures r == if CanStart(repositories, action.source) then Some(end) else None
      ensures r.Some? <==>
                action.source == LocalSource
                || (action.source.GitSource? && repositories.Some? && action.source.url in repositories.value)
      ensures started == old(started) + (if r.Some? then 1 else 0)
    {
      match action.source {
        case GitSource(url) =>
          if repositories == None {
            return None;
          }
          if url !in repositories.value {
            return None;
          }
          started := started + 1;
          return Some(end);
        case LocalSource =>
          started := started + 1;
          return Some(end);
        case OtherSource =>
          return None;
      }
    }

    /**
     Handle reports an error exactly if no script was started; a script that fails is reported in the result,
     not as an error.
     */
    method Handle(b: Body, end: ScriptEnd) returns (report: Report)
      modifies this
      ensures started == old(started) + (if Starts(actions, repositories, b) then 1 else 0)
      ensures report == ReportOf(actions, repositories, b, end)
      ensures !report.failed <==>
                && b.Payload?
                && var name := if b.mappedName != "" then b.mappedName else b.action;
                && name != "" && name in actions && actions[name].actionType == b.actionType
                && (actions[name].source == LocalSource
                    || (actions[name].source.GitSource? && repositories.Some? && actions[name].source.url in repositories.value))
      ensures report.hasResult <==>
                !report.failed
                || (b.Payload? && (b.mappedName != "" || b.action != "")
                    && var name := if b.mappedName != "" then b.mappedName else b.action;
                    !(name in actions && actions[name].actionType == b.actionType))
      ensures report.isSuccessful <==>
                !report.failed && end.ScriptOk? && (b.actionType == "http" && !b.discardResponse ==> end.isHttpResponse)
      ensures report.hasHttpResponse <==>
                !report.failed && end.ScriptOk? && b.actionType == "http" && !b.discardResponse && end.isHttpResponse
    {
      if b.Undecodable? {
        return Report(false, false, false, true);
      }
      var action := b.mappedName;
      if action == "" {
        action := b.action;
      }
      if action == "" {
        return Report(false, false, false, true);
      }
      report := Report(true, false, false, false);
      if action !in actions || actions[action].actionType != b.actionType {
        return report.(failed := true);
      }
      var r := Execute(actions[action], end);
      match r {
        case Some(ScriptFailed) => report := report.(isSuccessful := false);
        case Some(ScriptOk(isHttpResponse)) =>
          report := report.(isSuccessful := true);
          if !b.discardResponse && b.actionType == HTTP_ACTION_TYPE {
            if isHttpResponse {
              report := report.(hasHttpResponse := true);
            } else {
              report := report.(isSuccessful := false);
            }
          }
        case None => return Report(false, false, false, true);
      }
    }
  }

  // ----- the handler inside the job -----

  /** What the job sees of Handle: whether there is a result, and whether there is an error. */
  datatype Answer = Answer(hasResult: bool, failed: bool)

  function AnswerTo(actions: map<string, MappedAction>, repositories: Option<set<string>>, b: Body): Answer {
    Answer(HasResult(actions, repositories, b), !Starts(actions, repositories, b))
  }

  /** Handle's answer does not depend on how a script ends. */
  lemma ReportAnswers(actions: map<string, MappedAction>, repositories: Option<set<string>>, b: Body, end: ScriptEnd)
    ensures var report := ReportOf(actions, repositories, b, end);
            Answer(report.hasResult, report.failed) == AnswerTo(actions, repositories, b)
  {
  }

  /** The job protocol with a handler that gives this answer. */
  function Steps(m: J.Message, a: Answer): (J.State, J.Step) -> Option<J.State> {
    (s: J.State, step: J.Step) =>
      if step.HandleReturns? && Answer(step.hasResult, step.failed) != a then None else J.Next(m, s, step)
  }

  ghost predicate Reachable(m: J.Message, a: Answer, s: J.State) {
    Runs.Reachable(Steps(m, a), J.Initial, s)
  }

  lemma Take(m: J.Message, a: Answer, s: J.State, step: J.Step) returns (s': J.State)
    requires Reachable(m, a, s) && Steps(m, a)(s, step).Some?
    ensures s' == J.Next(m, s, step).value && Reachable(m, a, s')
  {
    s' := J.Next(m, s, step).value;
    Runs.Further(Steps(m, a), J.Initial, s, step);
  }

  /** Once Handle has returned, its answer is on record. */
  predicate Recorded(s: J.State, a: Answer) {
    s.effects.handles == 0 || J.Handling in s.calls || Answer(s.answers.hasResult, s.answers.handleFailed) == a
  }

  lemma StepKeepsRecorded(m: J.Message, a: Answer, s: J.State, step: J.Step, s': J.State)
    requires Recorded(s, a) && Steps(m, a)(s, step) == Some(s')
    ensures Recorded(s', a)
  {
    if step.Advance? && s'.calls[step.k] == J.Handling {
      assert J.Handling in s'.calls;
    } else if i :| 0 <= i < |s.calls| && s.calls[i] == J.Handling {
      assert step.HandleReturns? || s'.calls[i] == J.Handling;
    }
  }

  lemma ReachableInv(m: J.Message, a: Answer, s: J.State)
    requires Reachable(m, a, s)
    ensures J.Reachable(m, s) && Recorded(s, a)
  {
    J.Initially(m);
    forall t, step | J.Reachable(m, t) && Recorded(t, a) && Steps(m, a)(t, step).Some?
      ensures J.Reachable(m, J.Next(m, t, step).value) && Recorded(J.Next(m, t, step).value, a)
    {
      var t' := J.Take(m, t, step);
      StepKeepsRecorded(m, a, t, step, t');
    }
    Runs.Invariant(Steps(m, a), J.Initial, s, t => J.Reachable(m, t) && Recorded(t, a));
  }

  /** The job is finished exactly if the message was deleted, is for this owner, and Handle gave no error. */
  predicate TellsAnswer(m: J.Message, a: Answer, s: J.State) {
    s.shared.state == J.JobFinished <==> s.answers.deleteOk && J.IsForOwner(m) && !a.failed
  }

  lemma EndedTellsAnswer(m: J.Message, a: Answer, s: J.State)
    requires Reachable(m, a, s) && J.IsTerminal(s.shared.state)
    requires s.answers.early == None || !a.hasResult || !J.IsForOwner(m)
    ensures TellsAnswer(m, a, s)
  {
    ReachableInv(m, a, s);
    J.ReachableInv(m, s);
    forall k | 0 <= k < |s.calls|
      ensures s.calls[k] != J.Handling
    {
      assert J.CallFacts(m, s, s.calls[k]);
    }
  }

  /**
   With this handler, and no early answer from the sender, a job ends up finished exactly if the message was
   deleted, is for this owner, and its script was started, however the script ended.
   */
  lemma FinishedMeansStarted(m: J.Message, s: J.State, actions: map<string, MappedAction>, repositories: Option<set<string>>, b: Body)
    requires Reachable(m, AnswerTo(actions, repositories, b), s) && J.IsTerminal(s.shared.state)
    requires s.answers.early == None
    ensures s.shared.state == J.JobFinished <==> s.answers.deleteOk && J.IsForOwner(m) && Starts(actions, repositories, b)
  {
    EndedTellsAnswer(m, AnswerTo(actions, repositories, b), s);
  }

  ghost predicate AlwaysTells(m: J.Message, a: Answer) {
    forall s :: Reachable(m, a, s) && J.IsTerminal(s.shared.state) ==> TellsAnswer(m, a, s)
  }

  /** A lone Execute whose result is being sent while err is about to be read. */
  lemma LoneHandling(m: J.Message, a: Answer) returns (s: J.State)
    requires J.IsForOwner(m) && a.hasResult
    ensures Reachable(m, a, s)
    ensures s == J.State(J.Shared(J.JobExecuting, Some(0), a.failed, J.Sending), J.Answers(true, true, a.failed, None), J.Effects(1, 1), [J.Judging])
  {
    Runs.Initially(Steps(m, a), J.Initial);
    s := Take(m, a, J.Initial, J.Invoke);
    s := Take(m, a, s, J.Advance(0));
    s := Take(m, a, s, J.Advance(0));
    s := Take(m, a, s, J.DeleteReturns(0, true));
    s := Take(m, a, s, J.Advance(0));
    s := Take(m, a, s, J.HandleReturns(0, true, a.failed));
    s := Take(m, a, s, J.Advance(0));
  }

  /**
   Whether a job's mark says, in every run, that the script of its message was started: exactly if the body
   leads to no result to send, or the message is for somebody else.
   */
  lemma AlwaysTellsStartedExactlyWhen(m: J.Message, actions: map<string, MappedAction>, repositories: Option<set<string>>, b: Body)
    ensures AlwaysTells(m, AnswerTo(actions, repositories, b)) <==> !HasResult(actions, repositories, b) || !J.IsForOwner(m)
  {
    var a := AnswerTo(actions, repositories, b);
    if HasResult(actions, repositories, b) && J.IsForOwner(m) {
      var s := LoneHandling(m, a);
      s := Take(m, a, s, J.SendReturns(!a.failed));
      s := Take(m, a, s, J.Advance(0));
      assert !TellsAnswer(m, a, s);
    } else {
      forall s | Reachable(m, a, s) && J.IsTerminal(s.shared.state)
        ensures TellsAnswer(m, a, s)
      {
        EndedTellsAnswer(m, a, s);
      }
    }
  }

  // ----- flags -----

  /** Flag names and values, in the order a map happens to yield them. */
  function Flatten(order: seq<string>, flags: map<string, string>): seq<string>
    requires forall i :: 0 <= i < |order| ==> order[i] in flags
  {
    if order == [] then []
    else Flatten(order[..|order| - 1], flags) + ["-" + order[|order| - 1], flags[order[|order| - 1]]]
  }

  predicate IsOrderOf(order: seq<string>, names: set<string>) {
    && (forall i :: 0 <= i < |order| ==> order[i] in names)
    && (forall n :: n in names ==> n in order)
    && (forall i, k :: 0 <= i < k < |order| ==> order[i] != order[k])
  }

  lemma {:induction false} FlattenIs(order: seq<string>, flags: map<string, string>)
    requires forall i :: 0 <= i < |order| ==> order[i] in flags
    ensures |Flatten(order, flags)| == 2 * |order|
    ensures forall k :: 0 <= k < |order| ==> Flatten(order, flags)[2 * k] == "-" + order[k] && Flatten(order, flags)[2 * k + 1] == flags[order[k]]
  {
    if order != [] {
      var before := order[..|order| - 1];
      FlattenIs(before, flags);
      assert forall k :: 0 <= k < |before| ==> order[k] == before[k];
    }
  }

  lemma {:induction false} AsManyAs(order: seq<string>, names: set<string>)
    requires IsOrderOf(order, names)
    ensures |order| == |names|
    decreases |order|
  {
    if order == [] {
      assert names == {};
    } else {
      var before, last := order[..|order| - 1], order[|order| - 1];
      forall n | n in names - {last}
        ensures n in before
      {
        var i :| 0 <= i < |order| && order[i] == n;
        assert before[i] == n;
      }
      AsManyAs(before, names - {last});
    }
  }

  /** The name, behind a dash, stands at an even place and its value after it. */
  ghost predicate IsPassed(args: seq<string>, name: string, value: string) {
    exists k {:trigger args[2 * k]} :: 0 <= 2 * k < |args| - 1 && args[2 * k] == "-" + name && args[2 * k + 1] == value
  }

  lemma AllPassed(order: seq<string>, flags: map<string, string>)
    requires IsOrderOf(order, flags.Keys)
    ensures |Flatten(order, flags)| == 2 * |flags|
    ensures forall n :: n in flags ==> IsPassed(Flatten(order, flags), n, flags[n])
  {
    FlattenIs(order, flags);
    AsManyAs(order, flags.Keys);
    forall n | n in flags
      ensures IsPassed(Flatten(order, flags), n, flags[n])
    {
      var k :| 0 <= k < |order| && order[k] == n;
      assert Flatten(order, flags)[2 * k] == "-" + n;
    }
  }

  /** Each flag once, its name before its value. */
  method Args(flags: map<string, string>) returns (args: seq<string>)
    ensures exists order :: IsOrderOf(order, flags.Keys) && args == Flatten(order, flags)
    ensures |args| == 2 * |flags|
    ensures forall n :: n in flags ==> IsPassed(args, n, flags[n])
  {
    args := [];
    ghost var order := [];
    var left := flags.Keys;
    while left != {}
      invariant left <= flags.Keys && IsOrderOf(order, flags.Keys - left) && args == Flatten(order, flags)
      decreases left
    {
      var name :| name in left;
      assert (order + [name])[..|order|] == order;
      args := args + ["-" + name];
      args := args + [flags[name]];
      order := order + [name];
      left := left - {name};
      assert args == Flatten(order[..|order| - 1], flags) + ["-" + name, flags[name]];
    }
    AllPassed(order, flags);
  }
}
