/**
 Directors: the policies stacked on a session, what they do to requests and to
 candidate yields, and how their state is written down and read back.
 */
module Directors {
  import opened Wrappers
  import opened Text
  import opened Dom

  /** Unsigned 32-bit counters. */
  type u32 = n: nat | n < 0x1_0000_0000

  function Bump(n: u32): u32 {
    if n == 0xFFFF_FFFF then 0 else n + 1
  }

  datatype FailureBehavior = FailTurn | YieldWithWarning

  datatype Director =
    | ForceTool(id: ElementId, tool: string, until: Option<string>, reminder: string,
                attempts: u32, maxAttempts: u32, onFailure: FailureBehavior)
    | TodoReminder(id: ElementId, todos: seq<string>, reminded: bool)
    | PlanMode(id: ElementId, path: string, inspected: bool, proposed: bool, asked: bool)
    | GoalCompletion(id: ElementId, goal: string, completed: bool)

  // ----- Written form --------------------------------------------------------

  datatype Json =
    | JNull
    | JBool(b: bool)
    | JInt(n: int)
    | JFloat(x: real)
    | JString(s: string)
    | JArray(items: seq<Json>)
    | JObject(fields: map<string, Json>)
  {
    /** The field of an object; anything else has no fields. */
    function Get(name: string): Option<Json> {
      if JObject? && name in fields then Some(fields[name]) else None
    }

    function Text(name: string): Option<string> {
      match Get(name)
      case Some(JString(s)) => Some(s)
      case _ => None
    }

    function Flag(name: string): bool {
      Get(name) == Some(JBool(true))
    }

    /** A nonnegative 64-bit number cut down to 32 bits. */
    function Counter(name: string, default: u32): u32 {
      match Get(name)
      case Some(JInt(n)) => if 0 <= n < 0x1_0000_0000_0000_0000 then n % 0x1_0000_0000 else default
      case _ => default
    }
  }

  datatype DirectorSpec = DirectorSpec(id: ElementId, kind: string, state: Json)

  const FORCE_TOOL := "ForceTool"
  const TODO := "TodoReminder"
  const PLAN := "PlanMode"
  const GOAL := "GoalCompletion"

  function KindOf(d: Director): string {
    match d
    case ForceTool(_, _, _, _, _, _, _) => FORCE_TOOL
    case TodoReminder(_, _, _) => TODO
    case PlanMode(_, _, _, _, _) => PLAN
    case GoalCompletion(_, _, _) => GOAL
  }

  function FailureWord(b: FailureBehavior): string {
    if b.FailTurn? then "Fail" else "YieldWithWarning"
  }

  function Strings(items: seq<string>): seq<Json> {
    seq(|items|, i requires 0 <= i < |items| => JString(items[i]))
  }

  function StateOf(d: Director): Json {
    match d
    case ForceTool(_, tool, until, reminder, attempts, maxAttempts, onFailure) =>
      JObject(map[
        "tool" := JString(tool),
        "until_predicate_id" := if until.Some? then JString(until.value) else JNull,
        "reminder" := JString(reminder),
        "attempt_count" := JInt(attempts),
        "max_attempts" := JInt(maxAttempts),
        "failure_behavior" := JString(FailureWord(onFailure))])
    case TodoReminder(_, todos, reminded) =>
      JObject(map["pending_todos" := JArray(Strings(todos)), "reminded" := JBool(reminded)])
    case PlanMode(_, path, inspected, proposed, asked) =>
      JObject(map[
        "plan_path" := JString(path),
        "plan_file_inspected" := JBool(inspected),
        "proposed_plan" := JBool(proposed),
        "user_question_asked" := JBool(asked)])
    case GoalCompletion(_, goal, completed) =>
      JObject(map["goal_description" := JString(goal), "completed" := JBool(completed)])
  }

  function ToSpec(d: Director): DirectorSpec {
    DirectorSpec(d.id, KindOf(d), StateOf(d))
  }

  datatype DirectorError = MissingTool | UnknownKind(kind: string)

  function TextsOf(j: Option<Json>): seq<string> {
    if j.Some? && j.value.JArray? && forall i :: 0 <= i < |j.value.items| ==> j.value.items[i].JString? then
      seq(|j.value.items|, i requires 0 <= i < |j.value.items| => j.value.items[i].s)
    else []
  }

  function ForceToolFrom(id: ElementId, state: Json): Result<Director, DirectorError> {
    var tool := state.Text("tool");
    if tool.None? || IsBlank(tool.value) then Err(MissingTool)
    else
      Ok(ForceTool(id, tool.value, state.Text("until_predicate_id"), state.Text("reminder").GetOr(""),
                   state.Counter("attempt_count", 0), state.Counter("max_attempts", 1),
                   if state.Text("failure_behavior") == Some("YieldWithWarning") then YieldWithWarning else FailTurn))
  }

  function FromSpec(spec: DirectorSpec): Result<Director, DirectorError> {
    var s := spec.state;
    if spec.kind == FORCE_TOOL then ForceToolFrom(spec.id, s)
    else if spec.kind == TODO then Ok(TodoReminder(spec.id, TextsOf(s.Get("pending_todos")), s.Flag("reminded")))
    else if spec.kind == PLAN then
      Ok(PlanMode(spec.id, s.Text("plan_path").GetOr(""), s.Flag("plan_file_inspected"),
                  s.Flag("proposed_plan"), s.Flag("user_question_asked")))
    else if spec.kind == GOAL then
      Ok(GoalCompletion(spec.id, s.Text("goal_description").GetOr(""), s.Flag("completed")))
    else Err(UnknownKind(spec.kind))
  }

  /** A forced tool needs a name with something in it. */
  predicate Storable(d: Director) {
    d.ForceTool? ==> !IsBlank(d.tool)
  }

  lemma KindsDiffer()
    ensures FORCE_TOOL != TODO && FORCE_TOOL != PLAN && FORCE_TOOL != GOAL
    ensures TODO != PLAN && TODO != GOAL && PLAN != GOAL
  {
    assert FORCE_TOOL[0] != TODO[0] && FORCE_TOOL[0] != PLAN[0] && FORCE_TOOL[0] != GOAL[0];
    assert TODO[0] != PLAN[0] && TODO[0] != GOAL[0] && PLAN[0] != GOAL[0];
  }

  lemma ForceToolReadsBack(d: Director)
    requires d.ForceTool?
    ensures ForceToolFrom(d.id, StateOf(d)) == if IsBlank(d.tool) then Err(MissingTool) else Ok(d)
  {
    hide IsBlank;
    var s := StateOf(d);
    assert "Fail"[0] != "YieldWithWarning"[0];
    FieldNamesDiffer();
    assert s.Text("tool") == Some(d.tool);
    assert s.Text("until_predicate_id") == d.until;
    assert s.Text("reminder") == Some(d.reminder);
    assert s.Counter("attempt_count", 0) == d.attempts;
    assert s.Counter("max_attempts", 1) == d.maxAttempts;
    assert s.Text("failure_behavior") == Some(FailureWord(d.onFailure));
  }

  lemma FieldNamesDiffer()
    ensures |{"tool", "until_predicate_id", "reminder", "attempt_count", "max_attempts", "failure_behavior"}| == 6
    ensures |{"plan_path", "plan_file_inspected", "proposed_plan", "user_question_asked"}| == 4
  {
    assert |"tool"| == 4 && |"until_predicate_id"| == 18 && |"reminder"| == 8 && |"attempt_count"| == 13;
    assert |"max_attempts"| == 12 && |"failure_behavior"| == 16;
    assert |"plan_path"| == 9 && |"plan_file_inspected"| == 19 && |"proposed_plan"| == 13;
  }

  /** Reading back a written director gives the same director exactly when a forced tool has a name. */
  lemma SpecRoundTrip(d: Director)
    ensures FromSpec(ToSpec(d)) == Ok(d) <==> Storable(d)
    ensures !Storable(d) ==> FromSpec(ToSpec(d)) == Err(MissingTool)
  {
    hide IsBlank;
    KindsDiffer();
    match d {
      case ForceTool(_, _, _, _, _, _, _) =>
        ForceToolReadsBack(d);
        hide StateOf, ForceToolFrom;
      case TodoReminder(_, todos, _) =>
        assert TextsOf(Some(JArray(Strings(todos)))) == todos;
        assert "pending_todos" != "reminded";
      case PlanMode(_, _, _, _, _) => FieldNamesDiffer();
      case GoalCompletion(_, _, _) => assert "goal_description" != "completed";
    }
  }

  // ----- Candidate yields ----------------------------------------------------

  /** A tool call of the turn; `path` is its path argument when that is text. */
  datatype ToolUse = ToolUse(name: string, path: Option<string>)

  /**
   The turn being completed. What the assistant's text mentions, word by word,
   is given: whether it asks a question and whether it speaks of a plan.
   */
  datatype TurnView = TurnView(asks: bool, speaksOfPlan: bool, calls: seq<ToolUse>, executed: seq<ToolUse>)

  datatype Prompt =
    | ToolNotCalled(tool: string, attempt: u32, maxAttempts: u32, reminder: string)
    | TodosPending(todos: seq<string>)
    | PlanNotRead(path: string)
    | PlanNotPresented

  datatype Decision =
    | Pass
    | Continue(prompt: Prompt)
    | Yield
    | Push(spec: DirectorSpec)
    | Done
    | Fail(tool: string, maxAttempts: u32)

  predicate Uses(uses: seq<ToolUse>, tool: string) {
    exists u :: u in uses && u.name == tool
  }

  predicate Complies(turn: TurnView, tool: string) {
    Uses(turn.executed, tool) || Uses(turn.calls, tool)
  }

  predicate SuffixMatch(candidate: string, expected: string) {
    || candidate == expected
    || (|candidate| > |expected| && candidate[|candidate| - |expected|..] == expected &&
        candidate[|candidate| - |expected| - 1] in {'/', '\\'})
  }

  /** A tool call that reads or writes the plan file. */
  predicate TouchesPlan(use: ToolUse, plan: string) {
    && AsciiLower(use.name) in {"read", "write", "edit"}
    && use.path.Some?
    && (SuffixMatch(use.path.value, plan) || SuffixMatch(plan, use.path.value))
  }

  predicate TurnTouchesPlan(turn: TurnView, plan: string) {
    exists u :: u in turn.executed + turn.calls && TouchesPlan(u, plan)
  }

  /** A director after it looked at a candidate yield, and what it decided. */
  function OnYield(d: Director, pendingTodos: seq<string>, turn: TurnView): (Director, Decision) {
    match d
    case ForceTool(_, tool, _, reminder, attempts, maxAttempts, onFailure) =>
      if Complies(turn, tool) then (d, Done)
      else
        var next := d.(attempts := Bump(attempts));
        (next,
         if Bump(attempts) < maxAttempts then Continue(ToolNotCalled(tool, Bump(attempts), maxAttempts, reminder))
         else if onFailure.FailTurn? then Fail(tool, maxAttempts)
         else Yield)
    case TodoReminder(_, known, reminded) =>
      var todos := if pendingTodos == [] then known else pendingTodos;
      var next := d.(todos := todos);
      if todos == [] then (next, Done)
      else if !reminded then (next.(reminded := true), Continue(TodosPending(todos)))
      else (next, Pass)
    case PlanMode(_, path, inspected, proposed, asked) =>
      var next := d.(inspected := inspected || TurnTouchesPlan(turn, path),
                     proposed := proposed || turn.speaksOfPlan,
                     asked := asked || turn.asks);
      (next,
       if !next.inspected then Continue(PlanNotRead(path))
       else if !next.proposed && !next.asked then Continue(PlanNotPresented)
       else Pass)
    case GoalCompletion(_, _, completed) => (d, if completed then Done else Pass)
  }

  lemma OnYieldKeepsIdentity(d: Director, pendingTodos: seq<string>, turn: TurnView)
    ensures var next := OnYield(d, pendingTodos, turn).0;
      next.id == d.id && KindOf(next) == KindOf(d) && (Storable(d) ==> Storable(next))
  {
  }

  /** The stack after a candidate yield was handled from the inside out. */
  datatype Handled = Handled(directors: seq<Director>, decision: Decision)

  function HandleYield(directors: seq<Director>, pendingTodos: seq<string>, turn: TurnView): Handled {
    if directors == [] then Handled([], Yield)
    else
      var outer, inner := directors[..|directors| - 1], directors[|directors| - 1];
      var (next, decision) := OnYield(inner, pendingTodos, turn);
      if decision.Pass? then
        var rest := HandleYield(outer, pendingTodos, turn);
        Handled(rest.directors + [next], rest.decision)
      else if decision.Done? then HandleYield(outer, pendingTodos, turn)
      else Handled(outer + [next], decision)
  }

  // ----- Requests ------------------------------------------------------------

  datatype ToolChoice = NoTools | Auto | Required | Forced(tool: string)

  datatype Message =
    | Plain(text: string)
    | Reminder(attempt: nat, maxAttempts: u32, tool: string, reminder: string)
    | PlanNotice(path: string)
    | Directive(tool: string, instruction: Option<string>)

  datatype Request = Request(choice: ToolChoice, messages: seq<Message>)

  function PrepareOne(d: Director, r: Request): Request {
    match d
    case ForceTool(_, tool, _, reminder, attempts, maxAttempts, _) =>
      Request(Forced(tool), r.messages + if attempts > 0 then [Reminder(attempts + 1, maxAttempts, tool, reminder)] else [])
    case PlanMode(_, path, _, _, _) => r.(messages := r.messages + [PlanNotice(path)])
    case _ => r
  }

  /** The request after every director has had its say, from the outside in. */
  function Prepared(directors: seq<Director>, r: Request): Request {
    if directors == [] then r else PrepareOne(directors[|directors| - 1], Prepared(directors[..|directors| - 1], r))
  }

  /** The innermost forced tool. */
  function Innermost(directors: seq<Director>): (d: Option<Director>)
    ensures d.Some? ==> d.value.ForceTool? && d.value in directors
  {
    if directors == [] then None
    else if directors[|directors| - 1].ForceTool? then Some(directors[|directors| - 1])
    else Innermost(directors[..|directors| - 1])
  }

  /** The innermost forced tool has the last word on the tool choice. */
  lemma {:induction false} InnermostDecides(directors: seq<Director>, r: Request)
    ensures Prepared(directors, r).choice ==
      if Innermost(directors).Some? then Forced(Innermost(directors).value.tool) else r.choice
  {
    if directors != [] && !directors[|directors| - 1].ForceTool? {
      InnermostDecides(directors[..|directors| - 1], r);
    }
  }

  // ----- The stack -----------------------------------------------------------

  class DirectorStack {
    var directors: seq<Director>

    constructor ()
      ensures directors == []
    {
      directors := [];
    }

    method Push(d: Director)
      modifies this
      ensures directors == old(directors) + [d]
    {
      directors := directors + [d];
    }

    method PrepareInference(request: Request) returns (prepared: Request)
      ensures prepared == Prepared(directors, request)
    {
      prepared := request;
      for i := 0 to |directors|
        invariant prepared == Prepared(directors[..i], request)
      {
        assert directors[..i + 1][..i] == directors[..i];
        prepared := PrepareOne(directors[i], prepared);
      }
      assert directors[..|directors|] == directors;
    }

    /** Asks the directors from the inside out; satisfied ones leave the stack. */
    method AskDirectors(pendingTodos: seq<string>, turn: TurnView) returns (decision: Decision)
      modifies this
      ensures Handled(directors, decision) == HandleYield(old(directors), pendingTodos, turn)
    {
      hide OnYield, HandleYield;
      HandleNothing(pendingTodos, turn);
      var idx := |directors|;
      assert directors[..idx] == directors && directors[idx..] == [];
      InsideNothing(HandleYield(directors, pendingTodos, turn));
      while idx > 0
        invariant 0 <= idx <= |directors|
        invariant HandleYield(old(directors), pendingTodos, turn) ==
          Inside(HandleYield(directors[..idx], pendingTodos, turn), directors[idx..])
      {
        idx := idx - 1;
        var asked := directors[idx];
        var (next, answer) := OnYield(asked, pendingTodos, turn);
        assert directors[..idx + 1][..idx] == directors[..idx];
        HandleStep(directors[..idx + 1], pendingTodos, turn);
        ghost var inner := directors[idx + 1..];
        match answer {
          case Pass =>
            directors := directors[idx := next];
            assert directors[idx..] == [next] + inner;
          case Done =>
            directors := directors[..idx] + directors[idx + 1..];
            assert directors[idx..] == inner;
          case _ =>
            ghost var outer := directors[..idx];
            directors := directors[idx := next];
            assert directors == (outer + [next]) + inner;
            return answer;
        }
      }
      assert directors[..0] == [] && directors[0..] == directors;
      decision := Yield;
    }
  }

  lemma HandleNothing(pendingTodos: seq<string>, turn: TurnView)
    ensures HandleYield([], pendingTodos, turn) == Handled([], Yield)
  {
  }

  lemma HandleStep(directors: seq<Director>, pendingTodos: seq<string>, turn: TurnView)
    requires directors != []
    ensures var outer := directors[..|directors| - 1];
      var (next, decision) := OnYield(directors[|directors| - 1], pendingTodos, turn);
      var rest := HandleYield(outer, pendingTodos, turn);
      HandleYield(directors, pendingTodos, turn) ==
        if decision.Pass? then Handled(rest.directors + [next], rest.decision)
        else if decision.Done? then rest
        else Handled(outer + [next], decision)
  {
    hide OnYield;
  }

  /** A handled outer part with untouched directors further in. */
  function Inside(h: Handled, inner: seq<Director>): Handled {
    Handled(h.directors + inner, h.decision)
  }

  lemma InsideNothing(h: Handled)
    ensures Inside(h, []) == h
  {
    assert h.directors + [] == h.directors;
  }
}
