/**
 * What one session of the goal plugin can go through: its stored goal, the step in flight,
 * and the effect of every manager operation on them.
 */
module GoalSlots {
  import opened Text

  datatype Status = Active | Paused | Blocked | BudgetLimited | UsageLimited | Complete

  datatype Goal = Goal(
    threadId: string,
    goalId: string,
    objective: string,
    status: Status,
    tokenBudget: Option<int>,
    tokensUsed: int,
    timeUsedSeconds: int,
    createdAt: int,
    updatedAt: int,
    budgetLimitReported: bool)

  /** Token counts of a runtime event; a missing or non-numeric count is `None`. */
  datatype RuntimeTokens = RuntimeTokens(
    input: Option<int>, output: Option<int>, reasoning: Option<int>, cacheRead: Option<int>, cacheWrite: Option<int>)

  datatype UsageDelta = UsageDelta(inputTokens: int, cachedInputTokens: int, outputTokens: int)

  /** `undefined` keeps the budget, a number or `null` replaces it. */
  datatype BudgetEdit = Keep | Replace(budget: Option<int>)

  /** The successive readings of the millisecond clock within one operation. */
  datatype Clock = Clock(first: int, second: int, third: int, last: int) {
    predicate Ordered() { first <= second <= third <= last }
  }

  datatype Op =
    | StepStarted
    | StepEnded(tokens: RuntimeTokens)
    | StepFailed(usageLimited: bool)
    | SessionError(usageLimited: bool)
    | Create(objective: string, budget: Option<int>)
    | Finish(achieved: bool)
    | Clear
    | SetStatus(resume: bool)
    | Edit(newObjective: string, budgetEdit: BudgetEdit)
    | SetObjective(wanted: string, wantedBudget: Option<int>)
    | Interrupt
    | ToolCompleted(tool: string)
    | MidturnSteering
    | IdleContinuation

  /** One session: the stored goal, `stepStarts` and `stepGoalIds`. */
  datatype Slot = Slot(goal: Option<Goal>, start: Option<int>, tracked: Option<string>)

  const EMPTY := Slot(None, None, None)

  datatype Prompt = Silent | BudgetPrompt(limited: Goal) | Continuation(active: Goal)

  /** What an operation leaves behind; `ok` is false when it throws. */
  datatype Reply = Reply(slot: Slot, ok: bool, prompt: Prompt)

  const MAX_OBJECTIVE_CHARS := 4000

  function Max(a: int, b: int): int { if a < b then b else a }

  /** `Math.max(0, Math.trunc(ms / 1000))`. */
  function ElapsedSeconds(ms: int): int { if ms < 0 then 0 else ms / 1000 }

  /** `Math.trunc(ms / 1000)`. */
  function Seconds(ms: int): int { if ms < 0 then -(-ms / 1000) else ms / 1000 }

  predicate ValidObjective(objective: string)
  {
    0 < |Trim(objective)| <= MAX_OBJECTIVE_CHARS
  }

  predicate ValidBudget(budget: Option<int>)
  {
    budget.Some? ==> budget.value > 0
  }

  function StatusAfterBudget(status: Status, used: int, budget: Option<int>): Status
  {
    if status == Active && budget.Some? && used >= budget.value then BudgetLimited else status
  }

  function EditedStatus(status: Status): Status
  {
    if status == BudgetLimited || status == Complete then Active else status
  }

  function NewGoal(session: string, id: string, objective: string, budget: Option<int>, now: int): Goal
  {
    Goal(session, id, objective, StatusAfterBudget(Active, 0, budget), budget, 0, 0, now, now, false)
  }

  /** The tail of `updateExistingGoal`: stamp, re-derive the status, forget a stale report flag. */
  function Settle(next: Goal, ms: int): Goal
  {
    var status := StatusAfterBudget(next.status, next.tokensUsed, next.tokenBudget);
    next.(updatedAt := Seconds(ms), status := status,
          budgetLimitReported := next.budgetLimitReported && status == BudgetLimited)
  }

  function SafeToken(count: Option<int>): (tokens: int)
    ensures 0 <= tokens
  {
    if count.Some? && count.value > 0 then count.value else 0
  }

  function UsageOf(t: RuntimeTokens): UsageDelta
  {
    var cached := SafeToken(t.cacheRead) + SafeToken(t.cacheWrite);
    UsageDelta(SafeToken(t.input) + cached, cached, SafeToken(t.output) + SafeToken(t.reasoning))
  }

  function TokenDelta(usage: UsageDelta): (tokens: int)
    ensures 0 <= tokens
  {
    Max(0, usage.inputTokens - usage.cachedInputTokens) + Max(0, usage.outputTokens)
  }

  /** `accountTrackedStepUsage`. */
  function Account(slot: Slot, tracked: Option<string>, elapsed: int, tokens: int, ms: int): Slot
  {
    if slot.goal.None? || tracked.None? || tracked.value == "" || slot.goal.value.goalId != tracked.value then slot
    else if elapsed == 0 && tokens == 0 then slot
    else
      var goal := slot.goal.value;
      var used := goal.tokensUsed + tokens;
      var status := if goal.status != Complete && goal.tokenBudget.Some? && used >= goal.tokenBudget.value
                    then BudgetLimited else goal.status;
      var next := goal.(timeUsedSeconds := goal.timeUsedSeconds + elapsed, tokensUsed := used, status := status);
      slot.(goal := Some(Settle(next, ms)))
  }

  /** `accountInFlightElapsed`: charge whole seconds of the open step and restart its clock. */
  function AccountInFlight(slot: Slot, clock: Clock): Slot
  {
    if slot.start.None? then slot
    else
      var elapsed := ElapsedSeconds(clock.first - slot.start.value);
      if elapsed == 0 then slot
      else
        var charged := Account(slot, slot.tracked, elapsed, 0, clock.second);
        if charged.goal.Some? then charged.(start := Some(clock.third)) else charged
  }

  function Update(slot: Slot, patch: Goal -> Goal, ms: int): Reply
  {
    if slot.goal.None? then Reply(slot, false, Silent)
    else Reply(slot.(goal := Some(Settle(patch(slot.goal.value), ms))), true, Silent)
  }

  /** `budgetLimitPrompt`: speak once, remember having spoken. */
  function ReportBudget(slot: Slot, ms: int): Reply
  {
    if slot.goal.None? || slot.goal.value.status != BudgetLimited || slot.goal.value.budgetLimitReported then
      Reply(slot, true, Silent)
    else
      Update(slot, (g: Goal) => g.(budgetLimitReported := true), ms).(prompt := BudgetPrompt(slot.goal.value))
  }

  /** The idle hook: the budget prompt if it is due, otherwise a continuation of an active goal. */
  function IdleReply(slot: Slot, ms: int): Reply
  {
    var report := ReportBudget(slot, ms);
    if report.prompt.Silent? && slot.goal.Some? && slot.goal.value.status == Active
    then report.(prompt := Continuation(slot.goal.value)) else report
  }

  /** Stop an active goal, leaving any other status alone (`pauseForInterrupt`, `markUsageLimited`). */
  function StopActive(slot: Slot, status: Status, clock: Clock): Reply
  {
    var s := AccountInFlight(slot, clock);
    if s.goal.None? || s.goal.value.status != Active then Reply(s, true, Silent)
    else Update(s, (g: Goal) => g.(status := status), clock.last)
  }

  function EditGoal(slot: Slot, objective: string, edit: BudgetEdit, clock: Clock): Reply
  {
    var s := AccountInFlight(slot, clock);
    var normalized := Trim(objective);
    if !ValidObjective(normalized) || (edit.Replace? && !ValidBudget(edit.budget)) then Reply(s, false, Silent)
    else
      Update(s, (g: Goal) => g.(objective := normalized, status := EditedStatus(g.status),
                                tokenBudget := if edit.Keep? then g.tokenBudget else edit.budget), clock.last)
  }

  function ReplaceObjective(slot: Slot, session: string, objective: string, budget: Option<int>, clock: Clock, id: string)
    : Reply
  {
    var normalized := Trim(objective);
    if !ValidObjective(normalized) || !ValidBudget(budget) then Reply(slot, false, Silent)
    else if slot.goal.Some? && slot.goal.value.objective == normalized && slot.goal.value.status != Complete then
      Update(slot, (g: Goal) => g.(status := Active, tokenBudget := budget), clock.first)
    else
      Reply(slot.(goal := Some(NewGoal(session, id, normalized, budget, Seconds(clock.first)))), true, Silent)
  }

  function CreateGoal(slot: Slot, session: string, objective: string, budget: Option<int>, clock: Clock, id: string)
    : Reply
  {
    var normalized := Trim(objective);
    if !ValidObjective(normalized) || !ValidBudget(budget) || slot.goal.Some? then Reply(slot, false, Silent)
    else Reply(slot.(goal := Some(NewGoal(session, id, normalized, budget, Seconds(clock.first)))), true, Silent)
  }

  /** The end of a step: forget it, then charge its time and tokens to the goal it was begun under. */
  function EndStep(slot: Slot, tokens: RuntimeTokens, clock: Clock): Slot
  {
    var elapsed := if slot.start.None? then 0 else ElapsedSeconds(clock.first - slot.start.value);
    Account(slot.(start := None, tracked := None), slot.tracked, elapsed, TokenDelta(UsageOf(tokens)), clock.second)
  }

  /** One operation of the plugin manager on one session. */
  function Next(slot: Slot, session: string, op: Op, clock: Clock, id: string): Reply
  {
    match op
    case StepStarted =>
      var tracked := if slot.goal.Some? && slot.goal.value.status == Active then Some(slot.goal.value.goalId) else None;
      Reply(slot.(start := Some(clock.first), tracked := tracked), true, Silent)
    case StepEnded(tokens) => Reply(EndStep(slot, tokens, clock), true, Silent)
    case StepFailed(usageLimited) =>
      var s := if usageLimited then StopActive(slot, UsageLimited, clock).slot else slot;
      Reply(s.(start := None, tracked := None), true, Silent)
    case SessionError(usageLimited) =>
      if usageLimited then
        Reply(StopActive(slot, UsageLimited, clock).slot.(start := None, tracked := None), true, Silent)
      else Reply(slot, true, Silent)
    case Create(objective, budget) => CreateGoal(slot, session, objective, budget, clock, id)
    case Finish(achieved) =>
      Update(AccountInFlight(slot, clock), (g: Goal) => g.(status := if achieved then Complete else Blocked), clock.last)
    case Clear => Reply(slot.(goal := None), true, Silent)
    case SetStatus(resume) =>
      Update(AccountInFlight(slot, clock), (g: Goal) => g.(status := if resume then Active else Paused), clock.last)
    case Edit(objective, edit) => EditGoal(slot, objective, edit, clock)
    case SetObjective(objective, budget) => ReplaceObjective(slot, session, objective, budget, clock, id)
    case Interrupt => StopActive(slot, Paused, clock)
    case ToolCompleted(tool) =>
      Reply(if tool == "update_goal" then slot else AccountInFlight(slot, clock), true, Silent)
    case MidturnSteering => ReportBudget(slot, clock.first)
    case IdleContinuation => IdleReply(slot, clock.first)
  }

  /** The operations that runtime events bring. */
  predicate RuntimeOp(op: Op) { op.StepStarted? || op.StepEnded? || op.StepFailed? || op.SessionError? }

  /** A runtime event without a session is ignored; the other hooks take any session id. */
  predicate Ignored(session: string, op: Op) { session == "" && RuntimeOp(op) }

  /** The `/goal` commands, and the operation each one turns into when it changes anything. */
  datatype GoalCommand =
    | Show
    | EditTo(text: string)
    | ClearGoal
    | Pause
    | OpenEditor
    | Resume
    | Objective(goalText: string, confirmed: bool)

  function CommandOp(goal: Option<Goal>, command: GoalCommand): Option<Op>
  {
    match command
    case Show => None
    case EditTo(text) => Some(Edit(text, Keep))
    case ClearGoal => Some(Clear)
    case Pause => if goal.None? then None else Some(SetStatus(false))
    case OpenEditor => None
    case Resume => if goal.None? then None else Some(SetStatus(true))
    case Objective(text, confirmed) =>
      if |Trim(text)| > MAX_OBJECTIVE_CHARS || (goal.Some? && !confirmed) then None
      else Some(SetObjective(text, None))
  }
}
