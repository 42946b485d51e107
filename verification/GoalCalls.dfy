/** What each single call on the goal plugin answers and leaves in the session, in terms of what was there before. */
module GoalCalls {
  import opened Text
  import opened GoalSlots
  import opened GoalRuns

  // ---------------------------------------------------------------- new goals

  /** What the source accepts as an objective and a budget. */
  predicate Acceptable(objective: string, budget: Option<int>)
  {
    1 <= |Trim(objective)| <= 4000 && (budget == None || budget.value > 0)
  }

  function FreshGoal(session: string, id: string, objective: string, budget: Option<int>, ms: int): Goal
  {
    Goal(session, id, Trim(objective), Active, budget, 0, 0, Seconds(ms), Seconds(ms), false)
  }

  /** A goal is created exactly from acceptable input when there is none yet; otherwise nothing changes. */
  lemma CreateDoes(slot: Slot, s: string, objective: string, budget: Option<int>, clock: Clock, id: string)
    ensures var r := Next(slot, s, Create(objective, budget), clock, id);
      r.ok == (Acceptable(objective, budget) && slot.goal.None?) && r.prompt == Silent &&
      r.slot == if r.ok then slot.(goal := Some(FreshGoal(s, id, objective, budget, clock.first))) else slot
  {
    TrimTwice(objective);
  }

  /**
   * Setting the objective fails on unacceptable input. The same objective of an unfinished goal makes that goal active
   * again with the new budget, and any other objective starts a fresh goal.
   */
  lemma SetObjectiveDoes(slot: Slot, s: string, objective: string, budget: Option<int>, clock: Clock, id: string)
    ensures var r := Next(slot, s, SetObjective(objective, budget), clock, id);
      r.ok == Acceptable(objective, budget) && r.prompt == Silent &&
      (!r.ok ==> r.slot == slot) &&
      (r.ok ==>
        var again := slot.goal.Some? && slot.goal.value.objective == Trim(objective) && slot.goal.value.status != Complete;
        if again then
          r.slot.goal.Some? && r.slot == slot.(goal := r.slot.goal) && r.slot.goal.value.goalId == slot.goal.value.goalId &&
          r.slot.goal.value.objective == Trim(objective) && r.slot.goal.value.tokenBudget == budget &&
          r.slot.goal.value.status == if Reached(r.slot.goal.value) then BudgetLimited else Active
        else r.slot == slot.(goal := Some(FreshGoal(s, id, objective, budget, clock.first))))
  {
    TrimTwice(objective);
  }

  // ---------------------------------------------------------------- status

  /** The goal has a budget and has used it up. */
  predicate Reached(goal: Goal) { goal.tokenBudget.Some? && goal.tokenBudget.value <= goal.tokensUsed }

  /** A whole second of the goal's own step is due for charging. */
  predicate SecondIsDue(slot: Slot, clock: Clock)
  {
    StepIsOwn(slot) && slot.start.Some? && 1000 <= clock.first - slot.start.value
  }

  /** Charging time takes a goal that has used up its budget to budget-limited, unless it is complete. */
  function ChargedStatus(slot: Slot, clock: Clock): Status
    requires slot.goal.Some?
  {
    var goal := slot.goal.value;
    if SecondIsDue(slot, clock) && goal.status != Complete && Reached(goal) then BudgetLimited else goal.status
  }

  lemma InFlightStatus(slot: Slot, clock: Clock)
    requires SlotOk(slot) && slot.goal.Some?
    ensures var after := AccountInFlight(slot, clock).goal;
      after.Some? && after.value.status == ChargedStatus(slot, clock) && after.value.objective == slot.goal.value.objective &&
      after.value.tokenBudget == slot.goal.value.tokenBudget && after.value.tokensUsed == slot.goal.value.tokensUsed
  {
    if slot.start.Some? {
      ElapsedIsWhole(clock.first - slot.start.value);
    }
  }

  /** An active goal whose budget is used up is budget-limited instead. */
  function UnlessReached(status: Status, goal: Goal): Status
  {
    if status == Active && Reached(goal) then BudgetLimited else status
  }

  /** Completing, blocking, pausing and resuming set that status; they fail exactly when there is no goal. */
  lemma StatusCallDoes(slot: Slot, s: string, op: Op, clock: Clock, id: string)
    requires SlotOk(slot) && (op.Finish? || op.SetStatus?)
    ensures var r := Next(slot, s, op, clock, id);
      r.ok == slot.goal.Some? && (r.slot.goal.Some? <==> slot.goal.Some?) &&
      (slot.goal.Some? ==>
        var goal := r.slot.goal.value;
        goal.status == (match op
          case Finish(achieved) => if achieved then Complete else Blocked
          case SetStatus(resume) => if resume then UnlessReached(Active, goal) else Paused
          case _ => goal.status) &&
        goal.objective == slot.goal.value.objective && goal.tokenBudget == slot.goal.value.tokenBudget &&
        goal.updatedAt == Seconds(clock.last))
  {
    if slot.goal.Some? {
      InFlightStatus(slot, clock);
    }
  }

  /** An edit with acceptable input on a goal changes objective and budget, and revives a finished or budget-limited goal. */
  lemma EditDoes(slot: Slot, s: string, objective: string, edit: BudgetEdit, clock: Clock, id: string)
    requires SlotOk(slot)
    ensures var r := Next(slot, s, Edit(objective, edit), clock, id);
      var fits := Acceptable(objective, if edit.Replace? then edit.budget else None);
      r.ok == (fits && slot.goal.Some?) && (r.slot.goal.Some? <==> slot.goal.Some?) &&
      (slot.goal.Some? ==>
        var goal := r.slot.goal.value;
        var charged := ChargedStatus(slot, clock);
        if fits then
          goal.objective == Trim(objective) &&
          goal.tokenBudget == (if edit.Replace? then edit.budget else slot.goal.value.tokenBudget) &&
          goal.status == UnlessReached(if charged in {BudgetLimited, Complete} then Active else charged, goal) &&
          goal.updatedAt == Seconds(clock.last)
        else
          goal.objective == slot.goal.value.objective && goal.tokenBudget == slot.goal.value.tokenBudget && goal.status == charged)
  {
    TrimTwice(objective);
    if slot.goal.Some? {
      InFlightStatus(slot, clock);
    }
  }

  /** An interrupt pauses an active goal, a usage limit marks it so; any other goal keeps its status. */
  lemma StopDoes(slot: Slot, s: string, op: Op, clock: Clock, id: string)
    requires SlotOk(slot) && slot.goal.Some?
    requires op.Interrupt? || ((op.StepFailed? || op.SessionError?) && op.usageLimited)
    ensures var goal := Next(slot, s, op, clock, id).slot.goal;
      var charged := ChargedStatus(slot, clock);
      goal.Some? && goal.value.status ==
        if charged != Active then charged else if op.Interrupt? then Paused else UsageLimited
  {
    InFlightStatus(slot, clock);
  }

  /** The end of a goal's own step makes it budget-limited when its budget is then used up, unless it is complete. */
  lemma StepEndDoes(slot: Slot, s: string, tokens: RuntimeTokens, clock: Clock, id: string)
    requires SlotOk(slot) && slot.goal.Some?
    ensures var goal := Next(slot, s, StepEnded(tokens), clock, id).slot.goal;
      goal.Some? &&
      var charges := StepIsOwn(slot) && (Spent(tokens) > 0 || SecondIsDue(slot, clock));
      goal.value.status ==
        if charges && slot.goal.value.status != Complete && Reached(goal.value) then BudgetLimited else slot.goal.value.status
  {
    CacheTokensCancel(tokens);
    EndStepEffect(slot, tokens, clock);
    if slot.start.Some? {
      ElapsedIsWhole(clock.first - slot.start.value);
    }
  }

  /** The remaining calls leave the stored goal's status, objective and budget alone. */
  lemma OtherCallsDo(slot: Slot, s: string, op: Op, clock: Clock, id: string)
    requires SlotOk(slot) && slot.goal.Some?
    requires op.StepStarted? || ((op.StepFailed? || op.SessionError?) && !op.usageLimited) || op.MidturnSteering? ||
      op.IdleContinuation? || (op.ToolCompleted? && op.tool == "update_goal")
    ensures var goal := Next(slot, s, op, clock, id).slot.goal;
      goal.Some? && goal.value.status == slot.goal.value.status && goal.value.objective == slot.goal.value.objective &&
      goal.value.tokenBudget == slot.goal.value.tokenBudget
  {
  }

  lemma ToolDoes(slot: Slot, s: string, tool: string, clock: Clock, id: string)
    requires SlotOk(slot) && slot.goal.Some? && tool != "update_goal"
    ensures var goal := Next(slot, s, ToolCompleted(tool), clock, id).slot.goal;
      goal.Some? && goal.value.status == ChargedStatus(slot, clock)
  {
    InFlightStatus(slot, clock);
  }

  // ---------------------------------------------------------------- prompts

  /**
   * The hooks speak for a budget-limited goal that was not reported, and mark it so; the idle hook also continues an
   * active goal. They are silent otherwise and always succeed.
   */
  lemma HooksSay(slot: Slot, s: string, op: Op, clock: Clock, id: string)
    requires op.IdleContinuation? || op.MidturnSteering?
    ensures var r := Next(slot, s, op, clock, id);
      var goal := slot.goal;
      r.ok &&
      r.prompt == (if goal.Some? && goal.value.status == BudgetLimited && !goal.value.budgetLimitReported then BudgetPrompt(goal.value)
                   else if op.IdleContinuation? && goal.Some? && goal.value.status == Active then Continuation(goal.value)
                   else Silent) &&
      (if r.prompt.BudgetPrompt? then r.slot.goal.Some? && r.slot.goal.value.budgetLimitReported else r.slot == slot)
  {
  }

  // ---------------------------------------------------------------- commands

  ghost function CommandSlot(slot: Slot, s: string, command: GoalCommand, clock: Clock, id: string): Slot
  {
    var op := CommandOp(slot.goal, command);
    if op.None? then slot else Next(slot, s, op.value, clock, id).slot
  }

  /** What each `/goal` command leaves behind. */
  lemma CommandsDo(slot: Slot, s: string, command: GoalCommand, clock: Clock, id: string)
    requires SlotOk(slot)
    ensures var next := CommandSlot(slot, s, command, clock, id);
      match command
      case Show => next == slot
      case OpenEditor => next == slot
      case ClearGoal => next == slot.(goal := None)
      case Pause => if slot.goal.None? then next == slot else next.goal.Some? && next.goal.value.status == Paused
      case Resume =>
        if slot.goal.None? then next == slot
        else next.goal.Some? && next.goal.value.status == UnlessReached(Active, next.goal.value)
      case EditTo(text) =>
        (slot.goal.None? ==> next == slot) &&
        (slot.goal.Some? && Acceptable(text, None) ==> next.goal.Some? && next.goal.value.objective == Trim(text))
      case Objective(text, confirmed) =>
        (slot.goal.Some? && !confirmed ==> next == slot) &&
        (slot.goal.Some? && confirmed ==>
          if Acceptable(text, None)
          then next.goal.Some? && next.goal.value.objective == Trim(text) && next.goal.value.tokenBudget == None
          else next == slot) &&
        (slot.goal.None? ==>
          next == if Acceptable(text, None) then slot.(goal := Some(FreshGoal(s, id, text, None, clock.first))) else slot)
  {
    match command
    case Pause => StatusCallDoes(slot, s, SetStatus(false), clock, id);
    case Resume => StatusCallDoes(slot, s, SetStatus(true), clock, id);
    case EditTo(text) => EditDoes(slot, s, text, Keep, clock, id);
    case Objective(text, confirmed) => SetObjectiveDoes(slot, s, text, None, clock, id);
    case _ =>
  }
}
