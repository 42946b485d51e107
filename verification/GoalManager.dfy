/** The goal plugin's manager as an object over a store and two maps of steps in flight. */
module GoalManager {
  import opened Text
  import opened GoalSlots
  import GoalRuns

  function Lookup<T>(m: map<string, T>, key: string): Option<T>
  {
    if key in m then Some(m[key]) else None
  }

  lemma CommandIsNotIgnored(goal: Option<Goal>, command: GoalCommand)
    ensures CommandOp(goal, command).Some? ==> !RuntimeOp(CommandOp(goal, command).value)
  {
  }

  /**
   * Clock readings and fresh ids are parameters. Every method says what becomes of the slot of its session
   * and that no other session's slot changes, so runs of the object are the runs of `GoalRuns`.
   */
  class ThreadGoalManager {
    var store: map<string, Goal>
    var stepStarts: map<string, int>
    var stepGoalIds: map<string, string>

    /** The calls so far that were not ignored. */
    ghost var history: seq<GoalRuns.Event>

    ghost function SlotOf(s: string): Slot
      reads this`store, this`stepStarts, this`stepGoalIds
    {
      Slot(Lookup(store, s), Lookup(stepStarts, s), Lookup(stepGoalIds, s))
    }

    /** Every session is where the history leads. */
    ghost predicate Valid()
      reads this
    {
      forall s :: SlotOf(s) == GoalRuns.SlotAfter(history, s)
    }

    twostate predicate OnlyTouches(s: string)
      reads this`store, this`stepStarts, this`stepGoalIds
    {
      forall other :: other != s ==> SlotOf(other) == old(SlotOf(other))
    }

    constructor ()
      ensures Valid() && history == []
    {
      store, stepStarts, stepGoalIds, history := map[], map[], map[], [];
    }

    method UpdateExistingGoal(s: string, patch: Goal -> Goal, ms: int) returns (ok: bool)
      modifies this`store
      ensures OnlyTouches(s)
      ensures var r := Update(old(SlotOf(s)), patch, ms); SlotOf(s) == r.slot && ok == r.ok
    {
      if s !in store {
        return false;
      }
      var next := patch(store[s]).(updatedAt := Seconds(ms));
      next := next.(status := StatusAfterBudget(next.status, next.tokensUsed, next.tokenBudget));
      if next.status != BudgetLimited {
        next := next.(budgetLimitReported := false);
      }
      store := store[s := next];
      return true;
    }

    method AccountTrackedStepUsage(s: string, goalId: Option<string>, elapsed: int, tokens: int, ms: int)
      returns (found: bool)
      modifies this`store
      ensures OnlyTouches(s)
      ensures SlotOf(s) == Account(old(SlotOf(s)), goalId, elapsed, tokens, ms)
      ensures found == SlotOf(s).goal.Some?
    {
      if s !in store {
        return false;
      }
      var goal := store[s];
      if goalId.None? || goalId.value == "" || goal.goalId != goalId.value {
        return true;
      }
      if elapsed == 0 && tokens == 0 {
        return true;
      }
      var used := goal.tokensUsed + tokens;
      var limited := goal.status != Complete && goal.tokenBudget.Some? && used >= goal.tokenBudget.value;
      var patched := goal.(timeUsedSeconds := goal.timeUsedSeconds + elapsed, tokensUsed := used,
                           status := if limited then BudgetLimited else goal.status);
      found := UpdateExistingGoal(s, _ => patched, ms);
    }

    method AccountInFlightElapsed(s: string, clock: Clock)
      modifies this`store, this`stepStarts
      ensures OnlyTouches(s)
      ensures SlotOf(s) == AccountInFlight(old(SlotOf(s)), clock)
    {
      if s !in stepStarts {
        return;
      }
      var elapsed := ElapsedSeconds(clock.first - stepStarts[s]);
      if elapsed == 0 {
        return;
      }
      var found := AccountTrackedStepUsage(s, Lookup(stepGoalIds, s), elapsed, 0, clock.second);
      if found {
        stepStarts := stepStarts[s := clock.third];
      }
    }

    method StopActiveGoal(s: string, status: Status, clock: Clock)
      modifies this`store, this`stepStarts
      ensures OnlyTouches(s)
      ensures SlotOf(s) == StopActive(old(SlotOf(s)), status, clock).slot
    {
      AccountInFlightElapsed(s, clock);
      if s in store && store[s].status == Active {
        var _ := UpdateExistingGoal(s, (g: Goal) => g.(status := status), clock.last);
      }
    }

    /** An event without a session id changes nothing. */
    method HandleRuntimeEvent(session: Option<string>, op: Op, clock: Clock)
      requires RuntimeOp(op)
      modifies this`store, this`stepStarts, this`stepGoalIds
      ensures session.None? || session.value == "" ==> forall s :: SlotOf(s) == old(SlotOf(s))
      ensures session.Some? && session.value != "" ==>
                OnlyTouches(session.value) &&
                forall id :: SlotOf(session.value) == Next(old(SlotOf(session.value)), session.value, op, clock, id).slot
    {
      if session.None? || session.value == "" {
        return;
      }
      var s := session.value;
      if (op.StepFailed? || op.SessionError?) && op.usageLimited {
        StopActiveGoal(s, UsageLimited, clock);
        stepStarts, stepGoalIds := stepStarts - {s}, stepGoalIds - {s};
      } else if op.StepStarted? {
        stepStarts := stepStarts[s := clock.first];
        if s in store && store[s].status == Active {
          stepGoalIds := stepGoalIds[s := store[s].goalId];
        } else {
          stepGoalIds := stepGoalIds - {s};
        }
      } else if op.StepFailed? {
        stepStarts, stepGoalIds := stepStarts - {s}, stepGoalIds - {s};
      } else if op.StepEnded? {
        var startedAt, goalId := Lookup(stepStarts, s), Lookup(stepGoalIds, s);
        stepStarts, stepGoalIds := stepStarts - {s}, stepGoalIds - {s};
        var elapsed := if startedAt.None? then 0 else ElapsedSeconds(clock.first - startedAt.value);
        var _ := AccountTrackedStepUsage(s, goalId, elapsed, TokenDelta(UsageOf(op.tokens)), clock.second);
      }
    }

    method BudgetLimitPrompt(s: string, ms: int) returns (limited: Option<Goal>)
      modifies this`store
      ensures OnlyTouches(s)
      ensures var r := ReportBudget(old(SlotOf(s)), ms);
        SlotOf(s) == r.slot &&
        limited == if r.prompt.BudgetPrompt? then Some(r.prompt.limited) else None
    {
      if s !in store || store[s].status != BudgetLimited || store[s].budgetLimitReported {
        return None;
      }
      limited := Some(store[s]);
      var _ := UpdateExistingGoal(s, (g: Goal) => g.(budgetLimitReported := true), ms);
    }

    method EditGoalObjective(s: string, objective: string, edit: BudgetEdit, clock: Clock) returns (ok: bool)
      modifies this`store, this`stepStarts
      ensures OnlyTouches(s)
      ensures var r := EditGoal(old(SlotOf(s)), objective, edit, clock); SlotOf(s) == r.slot && ok == r.ok
    {
      AccountInFlightElapsed(s, clock);
      var normalized := Trim(objective);
      if !ValidObjective(normalized) || (edit.Replace? && !ValidBudget(edit.budget)) || s !in store {
        return false;
      }
      ok := UpdateExistingGoal(s, (g: Goal) => g.(objective := normalized, status := EditedStatus(g.status),
        tokenBudget := if edit.Keep? then g.tokenBudget else edit.budget), clock.last);
    }

    method SetGoalObjective(s: string, objective: string, budget: Option<int>, clock: Clock, id: string)
      returns (ok: bool)
      modifies this`store
      ensures OnlyTouches(s)
      ensures var r := ReplaceObjective(old(SlotOf(s)), s, objective, budget, clock, id); SlotOf(s) == r.slot && ok == r.ok
    {
      var normalized := Trim(objective);
      if !ValidObjective(normalized) || !ValidBudget(budget) {
        return false;
      }
      if s in store && store[s].objective == normalized && store[s].status != Complete {
        ok := UpdateExistingGoal(s, (g: Goal) => g.(status := Active, tokenBudget := budget), clock.first);
      } else {
        store := store[s := NewGoal(s, id, normalized, budget, Seconds(clock.first))];
        ok := true;
      }
    }

    method CreateGoal(s: string, objective: string, budget: Option<int>, clock: Clock, id: string) returns (ok: bool)
      modifies this`store
      ensures OnlyTouches(s)
      ensures var r := GoalSlots.CreateGoal(old(SlotOf(s)), s, objective, budget, clock, id);
        SlotOf(s) == r.slot && ok == r.ok
    {
      var normalized := Trim(objective);
      if !ValidObjective(normalized) || !ValidBudget(budget) || s in store {
        return false;
      }
      store := store[s := NewGoal(s, id, normalized, budget, Seconds(clock.first))];
      return true;
    }

    /** `updateGoalComplete`, `updateGoalBlocked` and `setGoalStatus`. */
    method SetStatus(s: string, status: Status, clock: Clock) returns (ok: bool)
      modifies this`store, this`stepStarts
      ensures OnlyTouches(s)
      ensures var r := Update(AccountInFlight(old(SlotOf(s)), clock), (g: Goal) => g.(status := status), clock.last);
        SlotOf(s) == r.slot && ok == r.ok
    {
      AccountInFlightElapsed(s, clock);
      ok := UpdateExistingGoal(s, (g: Goal) => g.(status := status), clock.last);
    }

    method ClearGoal(s: string)
      modifies this`store
      ensures OnlyTouches(s)
      ensures SlotOf(s) == old(SlotOf(s)).(goal := None)
    {
      store := store - {s};
    }

    method AccountToolCompleted(s: string, tool: string, clock: Clock)
      modifies this`store, this`stepStarts
      ensures OnlyTouches(s)
      ensures SlotOf(s) == if tool == "update_goal" then old(SlotOf(s)) else AccountInFlight(old(SlotOf(s)), clock)
    {
      if tool != "update_goal" {
        AccountInFlightElapsed(s, clock);
      }
    }

    /** The idle and mid-turn hooks: the budget prompt first, then (when idle) a continuation. */
    method Prompts(s: string, idle: bool, clock: Clock) returns (prompt: Prompt)
      modifies this`store
      ensures OnlyTouches(s)
      ensures var r := if idle then IdleReply(old(SlotOf(s)), clock.first) else ReportBudget(old(SlotOf(s)), clock.first);
        SlotOf(s) == r.slot && prompt == r.prompt
    {
      var limited := BudgetLimitPrompt(s, clock.first);
      if limited.Some? {
        return BudgetPrompt(limited.value);
      }
      return if idle && s in store && store[s].status == Active then Continuation(store[s]) else Silent;
    }

    /** A `/goal` command does what the operation it stands for does and is recorded as that, or does nothing. */
    method HandleGoalCommand(session: Option<string>, command: GoalCommand, clock: Clock, id: string)
      returns (ok: bool)
      requires Valid()
      modifies this
      ensures Valid()
      ensures session.None? || session.value == "" ==> ok && history == old(history) && forall s :: SlotOf(s) == old(SlotOf(s))
      ensures session.Some? && session.value != "" ==>
        OnlyTouches(session.value) &&
        var before := old(SlotOf(session.value));
        var op := CommandOp(before.goal, command);
        if op.None? then ok && history == old(history) && SlotOf(session.value) == before
        else
          var r := Next(before, session.value, op.value, clock, id);
          history == old(history) + [GoalRuns.Event(session.value, op.value, clock, id)] &&
          SlotOf(session.value) == r.slot && ok == r.ok
    {
      ok := true;
      if session.None? || session.value == "" {
        return;
      }
      var s := session.value;
      var op := CommandOp(Lookup(store, s), command);
      if op.Some? {
        CommandIsNotIgnored(Lookup(store, s), command);
        var done, _ := Handle(GoalRuns.Event(s, op.value, clock, id));
        ok := done;
      }
    }

    /** Any call on the manager: the session's slot moves as `Next` says, unless the call is ignored. */
    method Dispatch(s: string, op: Op, clock: Clock, id: string) returns (ok: bool, prompt: Prompt)
      modifies this`store, this`stepStarts, this`stepGoalIds
      ensures OnlyTouches(s)
      ensures Reply(SlotOf(s), ok, prompt) ==
        if Ignored(s, op) then Reply(old(SlotOf(s)), true, Silent) else Next(old(SlotOf(s)), s, op, clock, id)
    {
      ok, prompt := true, Silent;
      match op {
        case Create(objective, budget) => ok := CreateGoal(s, objective, budget, clock, id);
        case Finish(achieved) => ok := SetStatus(s, if achieved then Complete else Blocked, clock);
        case Clear => ClearGoal(s);
        case SetStatus(resume) => ok := SetStatus(s, if resume then Active else Paused, clock);
        case Edit(objective, edit) => ok := EditGoalObjective(s, objective, edit, clock);
        case SetObjective(objective, budget) => ok := SetGoalObjective(s, objective, budget, clock, id);
        case Interrupt => StopActiveGoal(s, Paused, clock);
        case ToolCompleted(tool) => AccountToolCompleted(s, tool, clock);
        case MidturnSteering => prompt := Prompts(s, false, clock);
        case IdleContinuation => prompt := Prompts(s, true, clock);
        case _ => HandleRuntimeEvent(Some(s), op, clock);
      }
    }

    /** Any call keeps every session where the history of calls leads. */
    method Handle(e: GoalRuns.Event) returns (ok: bool, prompt: Prompt)
      requires Valid()
      modifies this
      ensures Valid() && history == if Ignored(e.session, e.op) then old(history) else old(history) + [e]
      ensures OnlyTouches(e.session)
      ensures !Ignored(e.session, e.op) ==>
        Reply(SlotOf(e.session), ok, prompt) ==
        Next(GoalRuns.SlotAfter(old(history), e.session), e.session, e.op, e.clock, e.id)
    {
      ok, prompt := Dispatch(e.session, e.op, e.clock, e.id);
      if !Ignored(e.session, e.op) {
        history := history + [e];
        assert history[..|history| - 1] == old(history);
      }
      forall s ensures SlotOf(s) == GoalRuns.SlotAfter(history, s) {
        assert old(SlotOf(s)) == GoalRuns.SlotAfter(old(history), s);
      }
    }

    /**
     * Whatever calls an object has seen, with a monotone clock and fresh ids: a stored goal has been charged the tokens
     * and whole seconds of its own steps, no more time than it has existed, and its status fits its budget.
     */
    lemma StoredGoalIsAccountedFor(s: string)
      requires Valid() && GoalRuns.Legal(history) && history != [] && s in store
      ensures var goal := store[s];
        goal.tokensUsed == GoalRuns.Charged(history, s, goal.goalId) &&
        goal.timeUsedSeconds == GoalRuns.TimeCharged(history, s, goal.goalId) &&
        1000 * goal.timeUsedSeconds <= GoalRuns.Now(history) - GoalRuns.BornAt(history, goal.goalId) &&
        GoalRuns.BudgetOk(goal)
    {
      assert SlotOf(s) == GoalRuns.SlotAfter(history, s);
      GoalRuns.TokensConserved(history, s);
      GoalRuns.TimeConserved(history, s);
      GoalRuns.TimeNeverDoubleCharged(history, s);
      GoalRuns.BudgetInvariant(history, s);
    }
  }
}
