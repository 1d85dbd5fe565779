/** What directors answer to candidate yields. */
module DirectorAnswers {
  import opened Wrappers
  import opened Text
  import opened Dom
  import opened Directors
  import opened DirectorSessions

  /*
   Who decides a candidate yield, what a missed tool leads to, and what each kind
   of director answers over a whole history of turns.
   */

  // ----- Who decides ---------------------------------------------------------

  function Answer(d: Director, pendingTodos: seq<string>, turn: TurnView): Decision {
    OnYield(d, pendingTodos, turn).1
  }

  predicate Decides(d: Director, pendingTodos: seq<string>, turn: TurnView) {
    !Answer(d, pendingTodos, turn).Pass? && !Answer(d, pendingTodos, turn).Done?
  }

  /** The directors that pass, as they are afterwards; the satisfied ones are gone. */
  function Passing(directors: seq<Director>, pendingTodos: seq<string>, turn: TurnView): seq<Director> {
    if directors == [] then []
    else
      var (next, answer) := OnYield(directors[0], pendingTodos, turn);
      (if answer.Pass? then [next] else []) + Passing(directors[1..], pendingTodos, turn)
  }

  lemma {:induction false} PassingAppend(directors: seq<Director>, d: Director, pendingTodos: seq<string>, turn: TurnView)
    ensures Passing(directors + [d], pendingTodos, turn) ==
      Passing(directors, pendingTodos, turn) + if Answer(d, pendingTodos, turn).Pass? then [OnYield(d, pendingTodos, turn).0] else []
  {
    hide OnYield;
    if directors == [] {
      assert directors + [d] == [d] && [d][1..] == [];
    } else {
      assert (directors + [d])[1..] == directors[1..] + [d];
      PassingAppend(directors[1..], d, pendingTodos, turn);
    }
  }

  /** The innermost director that does not let the yield through decides it; those further out are not asked. */
  lemma {:induction false} InnermostDecider(stack: seq<Director>, k: nat, pendingTodos: seq<string>, turn: TurnView)
    requires k < |stack| && Decides(stack[k], pendingTodos, turn)
    requires forall j :: k < j < |stack| ==> !Decides(stack[j], pendingTodos, turn)
    ensures HandleYield(stack, pendingTodos, turn) == Handled(
      stack[..k] + [OnYield(stack[k], pendingTodos, turn).0] + Passing(stack[k + 1..], pendingTodos, turn),
      Answer(stack[k], pendingTodos, turn))
  {
    hide OnYield, HandleYield;
    HandleStep(stack, pendingTodos, turn);
    var n := |stack| - 1;
    if k == n {
      assert stack[k + 1..] == [];
    } else {
      InnermostDecider(stack[..n], k, pendingTodos, turn);
      assert stack[..n][..k] == stack[..k];
      assert stack[k + 1..] == stack[..n][k + 1..] + [stack[n]];
      PassingAppend(stack[..n][k + 1..], stack[n], pendingTodos, turn);
    }
  }

  /** When all let it through the turn may yield, and those that passed stay. */
  lemma {:induction false} NobodyDecides(stack: seq<Director>, pendingTodos: seq<string>, turn: TurnView)
    requires forall d :: d in stack ==> !Decides(d, pendingTodos, turn)
    ensures HandleYield(stack, pendingTodos, turn) == Handled(Passing(stack, pendingTodos, turn), Yield)
  {
    hide OnYield, HandleYield;
    if stack == [] {
      HandleNothing(pendingTodos, turn);
    } else {
      var n := |stack| - 1;
      HandleStep(stack, pendingTodos, turn);
      assert stack[n] in stack && !Decides(stack[n], pendingTodos, turn);
      NobodyDecides(stack[..n], pendingTodos, turn);
      assert stack == stack[..n] + [stack[n]];
      PassingAppend(stack[..n], stack[n], pendingTodos, turn);
    }
  }

  // ----- A missed tool -------------------------------------------------------

  /** Misses are counted in 32 bits. */
  lemma MissesWrap(n: u32)
    ensures Bump(n) == (n + 1) % 0x1_0000_0000
  {
  }

  /** The forced tool with one more miss. */
  function MissedOnce(f: Director): Director
    requires f.ForceTool?
  {
    f.(attempts := Bump(f.attempts))
  }

  /**
   The innermost forced tool was not called and the directors further in let the
   yield through: the model is asked to go on exactly when the stack left behind
   admits another inference. Otherwise the turn fails, or yields, as the tool says.
   */
  lemma {:induction false} MissedToolDecides(stack: seq<Director>, pendingTodos: seq<string>, turn: TurnView)
    requires Innermost(stack).Some? && !Complies(turn, Innermost(stack).value.tool)
    requires LetThrough(FurtherIn(stack), pendingTodos, turn)
    ensures var f := Innermost(stack).value;
      var h := HandleYield(stack, pendingTodos, turn);
      && Innermost(h.directors) == Some(MissedOnce(f))
      && (h.decision.Continue? <==> Admitted(h.directors))
      && (h.decision.Continue? ==>
            h.decision.prompt == ToolNotCalled(f.tool, Bump(f.attempts), f.maxAttempts, f.reminder))
      && (!Admitted(h.directors) ==>
            h.decision == if f.onFailure.FailTurn? then Fail(f.tool, f.maxAttempts) else Yield)
  {
    hide HandleYield, Complies, OnYield;
    HandleStep(stack, pendingTodos, turn);
    var n := |stack| - 1;
    var outer, d := stack[..n], stack[n];
    var next := OnYield(d, pendingTodos, turn).0;
    if d.ForceTool? {
      MissedAnswer(d, pendingTodos, turn);
      InnermostAppend(outer, MissedOnce(d));
    } else {
      LetThroughAppend(FurtherIn(outer), d, pendingTodos, turn);
      MissedToolDecides(outer, pendingTodos, turn);
      ForcedAnswer(d, pendingTodos, turn);
      InnermostAppend(HandleYield(outer, pendingTodos, turn).directors, next);
    }
  }

  lemma MissedAnswer(f: Director, pendingTodos: seq<string>, turn: TurnView)
    requires f.ForceTool? && !Complies(turn, f.tool)
    ensures OnYield(f, pendingTodos, turn).0 == MissedOnce(f)
    ensures var answer := OnYield(f, pendingTodos, turn).1;
      if MissedOnce(f).attempts < f.maxAttempts then
        answer == Continue(ToolNotCalled(f.tool, Bump(f.attempts), f.maxAttempts, f.reminder))
      else answer == if f.onFailure.FailTurn? then Fail(f.tool, f.maxAttempts) else Yield
  {
    hide Complies;
  }

  lemma InnermostAppend(stack: seq<Director>, d: Director)
    ensures Innermost(stack + [d]) == if d.ForceTool? then Some(d) else Innermost(stack)
  {
    assert (stack + [d])[..|stack|] == stack;
  }

  /**
   The next request after a miss forces the tool again and ends with a reminder
   numbered one above the miss the model was told of.
   */
  lemma ReminderFollowsMiss(outer: seq<Director>, f: Director, pendingTodos: seq<string>, turn: TurnView, r: Request)
    requires f.ForceTool? && !Complies(turn, f.tool) && f.attempts < 0xFFFF_FFFF
    ensures var h := HandleYield(outer + [f], pendingTodos, turn);
      var prepared := Prepared(h.directors, r);
      h.decision.Continue? ==>
        && prepared.choice == Forced(f.tool)
        && prepared.messages == Prepared(outer, r).messages +
             [Reminder(h.decision.prompt.attempt + 1, f.maxAttempts, f.tool, h.decision.prompt.reminder)]
  {
    hide HandleYield, Complies, OnYield, Prepared;
    assert (outer + [f])[..|outer|] == outer;
    HandleStep(outer + [f], pendingTodos, turn);
    MissedAnswer(f, pendingTodos, turn);
    PreparedAppend(outer, MissedOnce(f), r);
  }

  lemma PreparedAppend(outer: seq<Director>, d: Director, r: Request)
    ensures Prepared(outer + [d], r) == PrepareOne(d, Prepared(outer, r))
  {
    assert (outer + [d])[..|outer|] == outer;
  }

  // ----- What directors add to a request -------------------------------------

  /** The reminder of a missed tool, or the notice of plan mode. */
  function NoticeOf(d: Director): seq<Message> {
    match d
    case ForceTool(_, tool, _, reminder, attempts, maxAttempts, _) =>
      if attempts == 0 then [] else [Reminder(attempts + 1, maxAttempts, tool, reminder)]
    case PlanMode(_, path, _, _, _) => [PlanNotice(path)]
    case _ => []
  }

  /** All of them, from the outside in. */
  function Notices(directors: seq<Director>): seq<Message> {
    if directors == [] then [] else NoticeOf(directors[0]) + Notices(directors[1..])
  }

  lemma {:induction false} NoticesAppend(directors: seq<Director>, d: Director)
    ensures Notices(directors + [d]) == Notices(directors) + NoticeOf(d)
  {
    hide NoticeOf;
    if directors == [] {
      assert directors + [d] == [d] && [d][1..] == [];
    } else {
      assert (directors + [d])[1..] == directors[1..] + [d];
      NoticesAppend(directors[1..], d);
    }
  }

  lemma OneNotice(d: Director, r: Request)
    ensures PrepareOne(d, r).messages == r.messages + NoticeOf(d)
  {
  }

  /** Every director adds its notice behind what the request already says, and nothing else. */
  lemma {:induction false} DirectorsGiveNotice(directors: seq<Director>, r: Request)
    ensures Prepared(directors, r).messages == r.messages + Notices(directors)
  {
    hide PrepareOne, NoticeOf;
    if directors == [] {
      assert r.messages + [] == r.messages;
    } else {
      var n := |directors| - 1;
      DirectorsGiveNotice(directors[..n], r);
      assert directors == directors[..n] + [directors[n]];
      NoticesAppend(directors[..n], directors[n]);
      OneNotice(directors[n], Prepared(directors[..n], r));
    }
  }

  // ----- Reading incomplete state --------------------------------------------

  /** A counter is read as a 64-bit number cut to 32 bits; anything else counts as absent. */
  lemma CountersAreRead(name: string, value: Json, default: u32)
    ensures JObject(map[name := value]).Counter(name, default) ==
      if value.JInt? && 0 <= value.n < 0x1_0000_0000_0000_0000 then value.n % 0x1_0000_0000 else default
    ensures JObject(map[]).Counter(name, default) == default
  {
  }

  /** What a director is when its state says nothing: only a forced tool needs something, its name. */
  lemma SparseState(id: ElementId, tool: string)
    ensures FromSpec(DirectorSpec(id, FORCE_TOOL, JNull)) == Err(MissingTool)
    ensures !IsBlank(tool) ==>
      FromSpec(DirectorSpec(id, FORCE_TOOL, JObject(map["tool" := JString(tool)]))) ==
        Ok(ForceTool(id, tool, None, "", 0, 1, FailTurn))
    ensures FromSpec(DirectorSpec(id, TODO, JNull)) == Ok(TodoReminder(id, [], false))
    ensures FromSpec(DirectorSpec(id, PLAN, JNull)) == Ok(PlanMode(id, "", false, false, false))
    ensures FromSpec(DirectorSpec(id, GOAL, JNull)) == Ok(GoalCompletion(id, "", false))
  {
    hide IsBlank;
    KindsDiffer();
    FieldNamesDiffer();
    ToolIsItself();
  }

  lemma ToolIsItself()
    ensures "tool" !in {"until_predicate_id", "reminder", "attempt_count", "max_attempts", "failure_behavior"}
  {
    assert |"tool"| == 4 && |"until_predicate_id"| == 18 && |"reminder"| == 8 && |"attempt_count"| == 13;
    assert |"max_attempts"| == 12 && |"failure_behavior"| == 16;
  }

  // ----- What counts as a use ------------------------------------------------

  /** A tool is called when any use of the turn, asked for or carried out, names it. */
  lemma CompliesByName(turn: TurnView, tool: string)
    ensures Complies(turn, tool) <==> exists u :: u in turn.calls + turn.executed && u.name == tool
  {
    if u :| u in turn.calls + turn.executed && u.name == tool {
      assert u in turn.calls || u in turn.executed;
    }
    assert forall u :: u in turn.calls || u in turn.executed ==> u in turn.calls + turn.executed;
  }

  /** Reading, writing or editing the plan file, by its path or one of the two ending in the other behind a slash. */
  lemma PlanIsTouched(name: string, dir: string, plan: string)
    ensures AsciiLower(name) in {"read", "write", "edit"} ==>
      && TouchesPlan(ToolUse(name, Some(plan)), plan)
      && TouchesPlan(ToolUse(name, Some(dir + "/" + plan)), plan)
      && TouchesPlan(ToolUse(name, Some(plan)), dir + "/" + plan)
    ensures !TouchesPlan(ToolUse(name, None), plan)
    ensures AsciiLower(name) !in {"read", "write", "edit"} ==> !TouchesPlan(ToolUse(name, Some(plan)), plan)
  {
    hide AsciiLower;
    var longer := dir + "/" + plan;
    assert longer[|dir| + 1..] == plan && longer[|dir|] == '/';
  }

  /** Another file, or one whose name only ends like the plan's, does not count. */
  lemma OtherFilesDoNot(name: string, path: string, plan: string)
    requires path != plan && !EndsInFile(path, plan) && !EndsInFile(plan, path)
    ensures !TouchesPlan(ToolUse(name, Some(path)), plan)
  {
    hide AsciiLower;
  }

  /** The path ends in the file name, behind a slash or a backslash. */
  predicate EndsInFile(path: string, file: string) {
    |path| > |file| && path[|path| - |file|..] == file && path[|path| - |file| - 1] in {'/', '\\'}
  }

  // ----- Every kind over a history -------------------------------------------

  /** What a director was shown at one candidate yield. */
  datatype Asked = Asked(pendingTodos: seq<string>, turn: TurnView)

  /** The director after it was asked about each of the turns. */
  function Later(d: Director, history: seq<Asked>): Director {
    if history == [] then d
    else
      var last := history[|history| - 1];
      OnYield(Later(d, history[..|history| - 1]), last.pendingTodos, last.turn).0
  }

  /** The newest list of todos that is not empty, or the ones known from the start. */
  function Known(start: seq<string>, history: seq<Asked>): seq<string> {
    if history == [] then start
    else if history[|history| - 1].pendingTodos != [] then history[|history| - 1].pendingTodos
    else Known(start, history[..|history| - 1])
  }

  lemma {:induction false} ReminderLater(d: Director, history: seq<Asked>)
    requires d.TodoReminder? && !d.reminded
    ensures Later(d, history) == TodoReminder(d.id, Known(d.todos, history), history != [] && Known(d.todos, history) != [])
  {
    if history != [] {
      ReminderLater(d, history[..|history| - 1]);
    }
  }

  /**
   A reminder is satisfied while no todos are known. The first time there are some
   it asks the model to go on, naming them, and from then on it lets turns pass.
   */
  lemma RemindsOnce(d: Director, history: seq<Asked>, now: Asked)
    requires d.TodoReminder? && !d.reminded
    ensures var known := Known(d.todos, history + [now]);
      Answer(Later(d, history), now.pendingTodos, now.turn) ==
        if known == [] then Done
        else if history == [] || Known(d.todos, history) == [] then Continue(TodosPending(known))
        else Pass
  {
    ReminderLater(d, history);
    assert (history + [now])[..|history|] == history;
  }

  predicate AnyTouches(history: seq<Asked>, plan: string) {
    exists a :: a in history && TurnTouchesPlan(a.turn, plan)
  }

  predicate AnyPresents(history: seq<Asked>) {
    exists a :: a in history && (a.turn.speaksOfPlan || a.turn.asks)
  }

  lemma {:induction false} PlanLater(d: Director, history: seq<Asked>)
    requires d.PlanMode?
    ensures var later := Later(d, history);
      && later.PlanMode? && later.id == d.id && later.path == d.path
      && (later.inspected <==> d.inspected || AnyTouches(history, d.path))
      && (later.proposed || later.asked <==> d.proposed || d.asked || AnyPresents(history))
  {
    hide TurnTouchesPlan;
    if history != [] {
      var n := |history| - 1;
      PlanLater(d, history[..n]);
      assert history == history[..n] + [history[n]];
      assert history[n] in history;
    }
  }

  /**
   Plan mode asks to go on until some turn so far has read or written the plan
   file, then until some turn has spoken of the plan or asked a question, and
   then lets turns pass.
   */
  lemma PlanComesFirst(d: Director, history: seq<Asked>, now: Asked)
    requires d.PlanMode? && !d.inspected && !d.proposed && !d.asked
    ensures var all := history + [now];
      Answer(Later(d, history), now.pendingTodos, now.turn) ==
        if !AnyTouches(all, d.path) then Continue(PlanNotRead(d.path))
        else if !AnyPresents(all) then Continue(PlanNotPresented)
        else Pass
  {
    hide TurnTouchesPlan;
    PlanLater(d, history);
    PlanLater(d, history + [now]);
    assert (history + [now])[..|history|] == history;
  }

  /** A goal never asks to go on: it lets turns pass until it is completed. */
  lemma GoalOnlyWatches(d: Director, history: seq<Asked>, now: Asked)
    requires d.GoalCompletion?
    ensures Later(d, history) == d
    ensures Answer(Later(d, history), now.pendingTodos, now.turn) == if d.completed then Done else Pass
  {
    GoalStays(d, history);
  }

  lemma {:induction false} GoalStays(d: Director, history: seq<Asked>)
    requires d.GoalCompletion?
    ensures Later(d, history) == d
  {
    if history != [] {
      GoalStays(d, history[..|history| - 1]);
    }
  }

  // ----- Continuations in a session ------------------------------------------

  /** The turns among the moves. */
  function TurnCount(moves: seq<Move>): nat {
    if moves == [] then 0 else TurnCount(moves[..|moves| - 1]) + if moves[|moves| - 1].Turn? then 1 else 0
  }

  /** Is the model asked to go on after this move? */
  predicate Continues(s: Session, move: Move) {
    move.Turn? && Admitted(s.stack) && HandleYield(s.stack, move.pendingTodos, move.turn).decision.Continue?
  }

  /** How often the model is asked to go on during the moves. */
  ghost function Continuations(s: Session, moves: seq<Move>): nat {
    if moves == [] then 0
    else
      var before := moves[..|moves| - 1];
      Continuations(s, before) +
      if Run(s, before).Some? && Continues(Run(s, before).value, moves[|moves| - 1]) then 1 else 0
  }

  /** Reloads and turns that do not call the tool. */
  predicate Ignoring(moves: seq<Move>, tool: string) {
    forall m :: m in moves ==> m.Reload? || (m.Turn? && !Complies(m.turn, tool))
  }

  function Lesser(a: nat, b: nat): nat {
    if a <= b then a else b
  }

  /** One ignored turn: a miss and a continuation, a last miss, or nothing at all. */
  lemma IgnoredTurn(s: Session, outer: seq<Director>, f: Director, pendingTodos: seq<string>, turn: TurnView)
    requires Inv(s) && s.stack == outer + [f] && f.ForceTool? && f.attempts <= f.maxAttempts && !Complies(turn, f.tool)
    requires Next(s, Turn(pendingTodos, turn)).Some?
    ensures var t := Next(s, Turn(pendingTodos, turn)).value;
      && t.stack == outer + [if f.attempts < f.maxAttempts then f.(attempts := f.attempts + 1) else f]
      && (Continues(s, Turn(pendingTodos, turn)) <==> f.attempts + 1 < f.maxAttempts)
      && Missed(t, f.id) == Missed(s, f.id) + if f.attempts < f.maxAttempts then 1 else 0
  {
    hide HandleYield, Complies, OnYield, Synced, Inv;
    InnermostAppend(outer, f);
    assert s.stack[..|outer|] == outer && f in s.stack;
    HandleStep(s.stack, pendingTodos, turn);
    MissedAnswer(f, pendingTodos, turn);
    if f.attempts < f.maxAttempts {
      FoundIs(s, pendingTodos, turn, MissedOnce(f));
    }
  }

  /**
   After any number of ignored turns the tool has that many misses, at most its
   maximum, all of them on record, and one continuation less than misses it may have.
   */
  lemma {:induction false} IgnoredTurns(s: Session, outer: seq<Director>, f: Director, moves: seq<Move>)
    requires Inv(s) && s.stack == outer + [f] && f.ForceTool? && f.attempts == 0 && f.maxAttempts >= 1
    requires Ignoring(moves, f.tool) && Run(s, moves).Some?
    ensures var misses := Lesser(TurnCount(moves), f.maxAttempts);
      && Run(s, moves).value.stack == outer + [f.(attempts := misses)]
      && Continuations(s, moves) == Lesser(TurnCount(moves), f.maxAttempts - 1)
      && Missed(Run(s, moves).value, f.id) == Missed(s, f.id) + misses
  {
    hide Inv, HandleYield, Complies, Next, Hydrated, Continues;
    if moves != [] {
      var n := |moves| - 1;
      var before, move := moves[..n], moves[n];
      assert move in moves && forall m :: m in before ==> m in moves;
      IgnoredTurns(s, outer, f, before);
      RunKeeps(s, before);
      var t := Run(s, before).value;
      var now := f.(attempts := Lesser(TurnCount(before), f.maxAttempts));
      match move {
        case Reload =>
          ReloadIsIdle(t);
          NeverOnReload(t);
        case Turn(pendingTodos, turn) => IgnoredTurn(t, outer, now, pendingTodos, turn);
        case Force(_, _, _, _) => assert false;
      }
    }
  }

  lemma NeverOnReload(s: Session)
    ensures !Continues(s, Reload)
  {
  }

  lemma NothingMissedYet(s: Session, id: ElementId, tool: string, reminder: string, maxAttempts: u32)
    requires Inv(s) && Next(s, Force(id, tool, reminder, maxAttempts)).Some?
    ensures Missed(Next(s, Force(id, tool, reminder, maxAttempts)).value, id) == 0
  {
    hide Hydrated, Describes;
    MissesDeclared(s, id);
  }

  /**
   A tool forced with maximum m, and never called, has the model asked to go on
   exactly m - 1 times, however many turns and reloads follow; a maximum of zero
   counts as one.
   */
  lemma ForcedContinuations(s: Session, id: ElementId, tool: string, reminder: string, maxAttempts: u32, moves: seq<Move>)
    requires Inv(s) && Next(s, Force(id, tool, reminder, maxAttempts)).Some?
    requires var t := Next(s, Force(id, tool, reminder, maxAttempts)).value; Ignoring(moves, tool) && Run(t, moves).Some?
    ensures var t := Next(s, Force(id, tool, reminder, maxAttempts)).value;
      var most := if maxAttempts == 0 then 1 else maxAttempts;
      && Continuations(t, moves) == Lesser(TurnCount(moves), most - 1)
      && (Admitted(Run(t, moves).value.stack) <==> TurnCount(moves) < most)
      && Missed(Run(t, moves).value, id) == Lesser(TurnCount(moves), most)
  {
    hide Inv, Run, Continuations, Ignoring, IsBlank, Hydrated;
    ForceKeeps(s, id, tool, reminder, maxAttempts);
    ForcedStack(s, id, tool, reminder, maxAttempts);
    NothingMissedYet(s, id, tool, reminder, maxAttempts);
    var t, d := Next(s, Force(id, tool, reminder, maxAttempts)).value, NewForceTool(id, tool, reminder, maxAttempts);
    IgnoredTurns(t, s.stack, d, moves);
    InnermostAppend(s.stack, d.(attempts := Lesser(TurnCount(moves), d.maxAttempts)));
  }
}
