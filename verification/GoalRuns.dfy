/** Properties of every run of the goal plugin: time, tokens, budgets and prompts. */
module GoalRuns {
  import opened Text
  import opened GoalSlots

  /** One call on the manager: its session, the clock readings it sees, and the id it may hand out. */
  datatype Event = Event(session: string, op: Op, clock: Clock, id: string)

  function SlotAfter(run: seq<Event>, s: string): Slot
  {
    if run == [] then EMPTY
    else
      var e := run[|run| - 1];
      var before := SlotAfter(run[..|run| - 1], s);
      if e.session == s then Next(before, s, e.op, e.clock, e.id).slot else before
  }

  /** The clock never goes back and the id source never repeats itself or gives the empty id. */
  ghost predicate Legal(run: seq<Event>)
  {
    (forall i :: 0 <= i < |run| ==> run[i].clock.Ordered() && run[i].id != "") &&
    (forall i, j :: 0 <= i < j < |run| ==> run[i].clock.last <= run[j].clock.first && run[i].id != run[j].id)
  }

  ghost predicate Issued(run: seq<Event>, goalId: string)
  {
    exists i :: 0 <= i < |run| && run[i].id == goalId
  }

  /** The millisecond reading of the call that handed out this goal id. */
  function BornAt(run: seq<Event>, goalId: string): int
  {
    if run == [] then 0
    else if run[|run| - 1].id == goalId then run[|run| - 1].clock.first
    else BornAt(run[..|run| - 1], goalId)
  }

  /** The latest clock reading of a run. */
  function Now(run: seq<Event>): int
    requires run != []
  {
    run[|run| - 1].clock.last
  }

  /** Whether an operation of a session closes the step in flight. */
  predicate ClosesStep(op: Op)
  {
    op.StepEnded? || op.StepFailed? || (op.SessionError? && op.usageLimited)
  }

  /** The operations that first charge the time of the step in flight. */
  predicate AccountsInFlight(op: Op)
  {
    op.Finish? || op.SetStatus? || op.Edit? || op.Interrupt? || (op.ToolCompleted? && op.tool != "update_goal") ||
    ((op.StepFailed? || op.SessionError?) && op.usageLimited)
  }

  /** The open step was begun under the goal that is stored now. */
  predicate StepIsOwn(slot: Slot)
  {
    slot.goal.Some? && slot.tracked == Some(slot.goal.value.goalId) && slot.goal.value.goalId != ""
  }

  function DueSeconds(slot: Slot, clock: Clock): int
  {
    if slot.start.Some? && StepIsOwn(slot) then ElapsedSeconds(clock.first - slot.start.value) else 0
  }

  /** A reported count; a missing or negative one is nothing. */
  function Reported(count: Option<int>): int
  {
    match count
    case None => 0
    case Some(n) => Max(0, n)
  }

  /** Input, output and reasoning tokens; cache reads and writes do not count. */
  function Spent(t: RuntimeTokens): int
  {
    Reported(t.input) + Reported(t.output) + Reported(t.reasoning)
  }

  predicate ChargedBy(before: Goal, after: Goal, seconds: int, tokens: int)
  {
    after.goalId == before.goalId && after.createdAt == before.createdAt &&
    after.timeUsedSeconds == before.timeUsedSeconds + seconds && after.tokensUsed == before.tokensUsed + tokens
  }

  lemma AccountEffect(slot: Slot, tracked: Option<string>, elapsed: int, tokens: int, ms: int)
    ensures var next := Account(slot, tracked, elapsed, tokens, ms);
      next.tracked == slot.tracked && next.start == slot.start && (next.goal.Some? <==> slot.goal.Some?) &&
      (slot.goal.Some? ==>
        var own := tracked == Some(slot.goal.value.goalId) && slot.goal.value.goalId != "";
        ChargedBy(slot.goal.value, next.goal.value, if own then elapsed else 0, if own then tokens else 0))
  {
  }

  lemma InFlightEffect(slot: Slot, clock: Clock)
    ensures var next := AccountInFlight(slot, clock);
      next.tracked == slot.tracked && (next.goal.Some? <==> slot.goal.Some?) &&
      (slot.goal.Some? ==> ChargedBy(slot.goal.value, next.goal.value, DueSeconds(slot, clock), 0)) &&
      next.start == if slot.start.Some? && slot.goal.Some? && ElapsedSeconds(clock.first - slot.start.value) > 0
                    then Some(clock.third) else slot.start
  {
    if slot.start.Some? {
      AccountEffect(slot, slot.tracked, ElapsedSeconds(clock.first - slot.start.value), 0, clock.second);
    }
  }

  /** Cache reads and writes cancel exactly in what a step is charged. */
  lemma CacheTokensCancel(t: RuntimeTokens)
    ensures TokenDelta(UsageOf(t)) == Spent(t) >= 0
  {
  }

  lemma EndStepEffect(slot: Slot, tokens: RuntimeTokens, clock: Clock)
    ensures var next := EndStep(slot, tokens, clock);
      next.tracked == None && next.start == None && (next.goal.Some? <==> slot.goal.Some?) &&
      (slot.goal.Some? ==>
        ChargedBy(slot.goal.value, next.goal.value, DueSeconds(slot, clock), if StepIsOwn(slot) then Spent(tokens) else 0))
  {
    CacheTokensCancel(tokens);
    var elapsed := if slot.start.None? then 0 else ElapsedSeconds(clock.first - slot.start.value);
    AccountEffect(slot.(start := None, tracked := None), slot.tracked, elapsed, TokenDelta(UsageOf(tokens)), clock.second);
  }

  lemma StopActiveEffect(slot: Slot, status: Status, clock: Clock)
    ensures var next := StopActive(slot, status, clock).slot;
      next.tracked == slot.tracked && next.start == AccountInFlight(slot, clock).start &&
      (next.goal.Some? <==> slot.goal.Some?) &&
      (slot.goal.Some? ==> ChargedBy(slot.goal.value, next.goal.value, DueSeconds(slot, clock), 0))
  {
    InFlightEffect(slot, clock);
  }

  /** What one operation does to the step in flight. */
  lemma StepClock(slot: Slot, s: string, op: Op, clock: Clock, id: string)
    ensures var next := Next(slot, s, op, clock, id).slot;
      next.tracked == (if ClosesStep(op) then None
                       else if !op.StepStarted? then slot.tracked
                       else if slot.goal.Some? && slot.goal.value.status == Active then Some(slot.goal.value.goalId)
                       else None) &&
      next.start == (if ClosesStep(op) then None
                     else if op.StepStarted? then Some(clock.first)
                     else if AccountsInFlight(op) then AccountInFlight(slot, clock).start
                     else slot.start)
  {
    if op.StepEnded? {
      EndStepEffect(slot, op.tokens, clock);
    } else if op.Interrupt? {
      StopActiveEffect(slot, Paused, clock);
    } else if AccountsInFlight(op) {
      InFlightEffect(slot, clock);
    }
  }

  /** A new goal starts at zero, the stored one pays for its own step only. */
  predicate ChargesOwn(slot: Slot, op: Op, clock: Clock, id: string, next: Option<Goal>)
  {
    next.Some? ==>
      ((op.Create? || op.SetObjective?) && next.value.goalId == id && next.value.createdAt == Seconds(clock.first) &&
       next.value.timeUsedSeconds == 0 && next.value.tokensUsed == 0) ||
      (slot.goal.Some? &&
       ChargedBy(slot.goal.value, next.value,
                 if op.StepEnded? || AccountsInFlight(op) then DueSeconds(slot, clock) else 0,
                 if op.StepEnded? && StepIsOwn(slot) then Spent(op.tokens) else 0))
  }

  lemma RuntimeStepCharge(slot: Slot, s: string, op: Op, clock: Clock, id: string)
    requires RuntimeOp(op)
    ensures ChargesOwn(slot, op, clock, id, Next(slot, s, op, clock, id).slot.goal)
  {
    if op.StepEnded? {
      EndStepEffect(slot, op.tokens, clock);
    } else if op.StepFailed? || op.SessionError? {
      StopActiveEffect(slot, UsageLimited, clock);
    }
  }

  lemma CommandStepCharge(slot: Slot, s: string, op: Op, clock: Clock, id: string)
    requires op.Finish? || op.SetStatus? || op.Edit? || op.Interrupt? || op.ToolCompleted?
    ensures ChargesOwn(slot, op, clock, id, Next(slot, s, op, clock, id).slot.goal)
  {
    if op.Interrupt? {
      StopActiveEffect(slot, Paused, clock);
    } else {
      InFlightEffect(slot, clock);
    }
  }

  /** What one operation charges. */
  lemma StepCharge(slot: Slot, s: string, op: Op, clock: Clock, id: string)
    ensures ChargesOwn(slot, op, clock, id, Next(slot, s, op, clock, id).slot.goal)
  {
    if RuntimeOp(op) {
      RuntimeStepCharge(slot, s, op, clock, id);
    } else if op.Finish? || op.SetStatus? || op.Edit? || op.Interrupt? || op.ToolCompleted? {
      CommandStepCharge(slot, s, op, clock, id);
    }
  }

  lemma {:induction false} IdsAreIssued(run: seq<Event>, s: string)
    ensures var slot := SlotAfter(run, s);
      (slot.goal.Some? ==> Issued(run, slot.goal.value.goalId)) &&
      (slot.tracked.Some? ==> Issued(run, slot.tracked.value))
  {
    if run != [] {
      var init := run[..|run| - 1];
      IdsAreIssued(init, s);
      forall x | Issued(init, x) ensures Issued(run, x) {
        var i :| 0 <= i < |init| && init[i].id == x;
        assert run[i].id == x;
      }
      var e := run[|run| - 1];
      assert Issued(run, e.id);
      StepClock(SlotAfter(init, s), s, e.op, e.clock, e.id);
      StepCharge(SlotAfter(init, s), s, e.op, e.clock, e.id);
    }
  }

  // ---------------------------------------------------------------- time

  /** What a slot has been charged fits before its open step (or before now). */
  ghost predicate TimeFits(slot: Slot, born: int, now: int)
  {
    (slot.tracked.Some? ==> slot.start.Some?) &&
    (slot.start.Some? ==> slot.start.value <= now) &&
    (slot.goal.Some? ==>
      var goal := slot.goal.value;
      1000 * goal.timeUsedSeconds + born <= if slot.tracked == Some(goal.goalId) then slot.start.value else now)
  }

  lemma StepTimeFits(slot: Slot, s: string, op: Op, clock: Clock, id: string, born: int, now: int)
    requires TimeFits(slot, born, now) && clock.Ordered() && now <= clock.first
    requires slot.tracked != Some(id)
    requires slot.goal.Some? ==> slot.goal.value.goalId != id
    ensures var next := Next(slot, s, op, clock, id).slot;
      (next.goal.Some? ==>
        (next.goal.value.goalId == id && next.goal.value.createdAt == Seconds(clock.first)) ||
        (slot.goal.Some? && next.goal.value.goalId == slot.goal.value.goalId &&
         next.goal.value.createdAt == slot.goal.value.createdAt)) &&
      TimeFits(next, if next.goal.Some? && next.goal.value.goalId == id then clock.first else born, clock.last)
  {
    InFlightEffect(slot, clock);
    StepClock(slot, s, op, clock, id);
    StepCharge(slot, s, op, clock, id);
  }

  lemma {:induction false} RunTimeFits(run: seq<Event>, s: string)
    requires Legal(run) && run != []
    ensures var slot := SlotAfter(run, s);
      (slot.goal.Some? ==> slot.goal.value.createdAt == Seconds(BornAt(run, slot.goal.value.goalId))) &&
      TimeFits(slot, if slot.goal.Some? then BornAt(run, slot.goal.value.goalId) else 0, Now(run))
  {
    var init := run[..|run| - 1];
    var e := run[|run| - 1];
    var before := SlotAfter(init, s);
    var born := if before.goal.Some? then BornAt(init, before.goal.value.goalId) else 0;
    if init != [] {
      RunTimeFits(init, s);
      assert Now(init) <= e.clock.first;
    }
    IdsAreIssued(init, s);
    assert !Issued(init, e.id);
    if e.session == s {
      StepTimeFits(before, s, e.op, e.clock, e.id, born, if init == [] then e.clock.first else Now(init));
    }
  }

  /**
   * Time is never charged twice: the seconds charged to a goal fit between the call that created it and
   * the latest clock reading, whatever steps, tools, pauses, edits and replacements came in between.
   */
  lemma TimeNeverDoubleCharged(run: seq<Event>, s: string)
    requires Legal(run) && run != []
    requires SlotAfter(run, s).goal.Some?
    ensures var goal := SlotAfter(run, s).goal.value;
      Issued(run, goal.goalId) &&
      goal.createdAt == Seconds(BornAt(run, goal.goalId)) &&
      1000 * goal.timeUsedSeconds <= Now(run) - BornAt(run, goal.goalId)
  {
    IdsAreIssued(run, s);
    RunTimeFits(run, s);
  }

  // ---------------------------------------------------------------- tokens

  /** The goal that was active when the step still open in session `s` began, read off the history. */
  function OpenGoal(run: seq<Event>, s: string): Option<string>
  {
    if run == [] then None
    else
      var init := run[..|run| - 1];
      var e := run[|run| - 1];
      if e.session != s then OpenGoal(init, s)
      else if ClosesStep(e.op) then None
      else if e.op.StepStarted? then
        var goal := SlotAfter(init, s).goal;
        if goal.Some? && goal.value.status == Active then Some(goal.value.goalId) else None
      else OpenGoal(init, s)
  }

  /** The tokens of all ended steps of `s` that were begun under `goalId`. */
  function Charged(run: seq<Event>, s: string, goalId: string): int
  {
    if run == [] then 0
    else
      var init := run[..|run| - 1];
      var e := run[|run| - 1];
      Charged(init, s, goalId) +
      if e.session == s && e.op.StepEnded? && OpenGoal(init, s) == Some(goalId) then Spent(e.op.tokens) else 0
  }

  lemma {:induction false} TrackedIsOpenGoal(run: seq<Event>, s: string)
    ensures SlotAfter(run, s).tracked == OpenGoal(run, s)
  {
    if run != [] {
      var init := run[..|run| - 1];
      var e := run[|run| - 1];
      TrackedIsOpenGoal(init, s);
      StepClock(SlotAfter(init, s), s, e.op, e.clock, e.id);
      StepCharge(SlotAfter(init, s), s, e.op, e.clock, e.id);
    }
  }

  lemma {:induction false} UnissuedNeverCharged(run: seq<Event>, s: string, goalId: string)
    requires !Issued(run, goalId)
    ensures Charged(run, s, goalId) == 0
  {
    if run != [] {
      var init := run[..|run| - 1];
      forall i | 0 <= i < |init| ensures init[i].id != goalId {
        assert run[i].id != goalId;
      }
      UnissuedNeverCharged(init, s, goalId);
      IdsAreIssued(init, s);
      TrackedIsOpenGoal(init, s);
    }
  }

  /**
   * Token conservation: a stored goal's `tokensUsed` is the sum of what its own steps spent. Steps begun
   * under a cleared or replaced goal are attributed to that goal's id and so never reach the new one.
   */
  lemma {:induction false} TokensConserved(run: seq<Event>, s: string)
    requires Legal(run)
    ensures var goal := SlotAfter(run, s).goal;
      goal.Some? ==> goal.value.tokensUsed == Charged(run, s, goal.value.goalId)
  {
    if run != [] {
      var init := run[..|run| - 1];
      var e := run[|run| - 1];
      TokensConserved(init, s);
      if e.session == s {
        var before := SlotAfter(init, s);
        IdsAreIssued(init, s);
        TrackedIsOpenGoal(init, s);
        StepClock(before, s, e.op, e.clock, e.id);
        StepCharge(before, s, e.op, e.clock, e.id);
        assert !Issued(init, e.id);
        UnissuedNeverCharged(init, s, e.id);
      }
    }
  }

  // ---------------------------------------------------------------- time, exactly

  /** The whole seconds in a span of milliseconds. */
  function Whole(ms: int): (seconds: nat)
    ensures ms < 0 ==> seconds == 0
    ensures ms >= 0 ==> 1000 * seconds <= ms < 1000 * (seconds + 1)
    decreases Max(0, ms)
  {
    if ms < 1000 then 0 else 1 + Whole(ms - 1000)
  }

  lemma ElapsedIsWhole(ms: int)
    ensures ElapsedSeconds(ms) == Whole(ms)
  {
  }

  /** A time stamp in seconds truncates the milliseconds, toward zero on either side. */
  lemma SecondsTruncate(ms: int)
    ensures ms >= 0 ==> 1000 * Seconds(ms) <= ms < 1000 * (Seconds(ms) + 1)
    ensures ms <= 0 ==> 1000 * (Seconds(ms) - 1) < ms <= 1000 * Seconds(ms)
  {
  }

  /** Whether an operation charges the time of the step in flight. */
  predicate ChargesTime(op: Op) { op.StepEnded? || AccountsInFlight(op) }

  /** From when on the step still open in session `s` has not been charged, read off the history and its clock readings. */
  function OpenStart(run: seq<Event>, s: string): Option<int>
  {
    if run == [] then None
    else
      var start := OpenStart(run[..|run| - 1], s);
      var e := run[|run| - 1];
      if e.session != s then start
      else if ClosesStep(e.op) then None
      else if e.op.StepStarted? then Some(e.clock.first)
      else if ChargesTime(e.op) && start.Some? && Whole(e.clock.first - start.value) > 0 then Some(e.clock.third)
      else start
  }

  /** The whole seconds of all spans of steps of `s` that were begun under `goalId`, each from the last charge to the next. */
  function TimeCharged(run: seq<Event>, s: string, goalId: string): int
  {
    if run == [] then 0
    else
      var init := run[..|run| - 1];
      var e := run[|run| - 1];
      TimeCharged(init, s, goalId) +
      if e.session == s && ChargesTime(e.op) && OpenGoal(init, s) == Some(goalId) && OpenStart(init, s).Some?
      then Whole(e.clock.first - OpenStart(init, s).value) else 0
  }

  lemma NextStart(slot: Slot, s: string, op: Op, clock: Clock, id: string)
    requires StepIsOwn(slot) && !ClosesStep(op) && !op.StepStarted?
    ensures Next(slot, s, op, clock, id).slot.start ==
      if ChargesTime(op) && slot.start.Some? && Whole(clock.first - slot.start.value) > 0 then Some(clock.third) else slot.start
  {
    StepClock(slot, s, op, clock, id);
    InFlightEffect(slot, clock);
    if slot.start.Some? {
      ElapsedIsWhole(clock.first - slot.start.value);
    }
  }

  /** While the open step is the stored goal's own, the manager's step start is the history's. */
  lemma {:induction false} OwnStartIsOpenStart(run: seq<Event>, s: string)
    requires Legal(run)
    ensures StepIsOwn(SlotAfter(run, s)) ==> SlotAfter(run, s).start == OpenStart(run, s)
  {
    if run != [] {
      var init, e := run[..|run| - 1], run[|run| - 1];
      OwnStartIsOpenStart(init, s);
      if e.session == s {
        var before := SlotAfter(init, s);
        IdsAreIssued(init, s);
        StepClock(before, s, e.op, e.clock, e.id);
        StepCharge(before, s, e.op, e.clock, e.id);
        assert !Issued(init, e.id);
        if StepIsOwn(before) && !ClosesStep(e.op) && !e.op.StepStarted? {
          NextStart(before, s, e.op, e.clock, e.id);
        }
      }
    }
  }

  lemma {:induction false} UnissuedTakesNoTime(run: seq<Event>, s: string, goalId: string)
    requires !Issued(run, goalId)
    ensures TimeCharged(run, s, goalId) == 0
  {
    if run != [] {
      var init := run[..|run| - 1];
      forall i | 0 <= i < |init| ensures init[i].id != goalId {
        assert run[i].id != goalId;
      }
      UnissuedTakesNoTime(init, s, goalId);
      IdsAreIssued(init, s);
      TrackedIsOpenGoal(init, s);
    }
  }

  lemma StepTimeCharge(run: seq<Event>, s: string, e: Event)
    requires Legal(run + [e]) && e.session == s && SlotAfter(run, s).goal.Some?
    ensures var slot := SlotAfter(run, s);
      (if ChargesTime(e.op) then DueSeconds(slot, e.clock) else 0) ==
      TimeCharged(run + [e], s, slot.goal.value.goalId) - TimeCharged(run, s, slot.goal.value.goalId)
  {
    var all := run + [e];
    assert all[..|run|] == run && all[|run|] == e;
    assert Legal(run) by {
      assert forall i :: 0 <= i < |run| ==> run[i] == all[i];
    }
    var slot := SlotAfter(run, s);
    TrackedIsOpenGoal(run, s);
    OwnStartIsOpenStart(run, s);
    IdsAreIssued(run, s);
    assert slot.goal.value.goalId != "";
    if OpenStart(run, s).Some? {
      ElapsedIsWhole(e.clock.first - OpenStart(run, s).value);
    }
  }

  /** Time conservation: a stored goal's `timeUsedSeconds` is the sum of the whole seconds of its own steps' spans. */
  lemma {:induction false} TimeConserved(run: seq<Event>, s: string)
    requires Legal(run)
    ensures var goal := SlotAfter(run, s).goal;
      goal.Some? ==> goal.value.timeUsedSeconds == TimeCharged(run, s, goal.value.goalId)
  {
    if run != [] {
      var init, e := run[..|run| - 1], run[|run| - 1];
      assert run == init + [e];
      TimeConserved(init, s);
      if e.session == s {
        var before := SlotAfter(init, s);
        StepCharge(before, s, e.op, e.clock, e.id);
        if before.goal.Some? {
          StepTimeCharge(init, s, e);
        }
        IdsAreIssued(init, s);
        assert !Issued(init, e.id);
        UnissuedTakesNoTime(init, s, e.id);
        TrackedIsOpenGoal(init, s);
      }
    }
  }

  // ---------------------------------------------------------------- budgets and prompts

  /** What every stored goal satisfies. */
  predicate BudgetOk(goal: Goal)
  {
    0 <= goal.tokensUsed && ValidBudget(goal.tokenBudget) &&
    (goal.status == Active && goal.tokenBudget.Some? ==> goal.tokensUsed < goal.tokenBudget.value) &&
    (goal.status == BudgetLimited ==> goal.tokenBudget.Some? && goal.tokenBudget.value <= goal.tokensUsed) &&
    (goal.budgetLimitReported ==> goal.status == BudgetLimited)
  }

  predicate SlotOk(slot: Slot)
  {
    slot.goal.Some? ==> BudgetOk(slot.goal.value)
  }

  lemma AccountKeepsBudget(slot: Slot, tracked: Option<string>, elapsed: int, tokens: int, ms: int)
    requires SlotOk(slot) && 0 <= tokens
    ensures SlotOk(Account(slot, tracked, elapsed, tokens, ms))
  {
  }

  lemma InFlightKeepsBudget(slot: Slot, clock: Clock)
    requires SlotOk(slot)
    ensures SlotOk(AccountInFlight(slot, clock))
  {
    if slot.start.Some? {
      AccountKeepsBudget(slot, slot.tracked, ElapsedSeconds(clock.first - slot.start.value), 0, clock.second);
    }
  }

  lemma EndStepKeepsBudget(slot: Slot, tokens: RuntimeTokens, clock: Clock)
    requires SlotOk(slot)
    ensures SlotOk(EndStep(slot, tokens, clock))
  {
    CacheTokensCancel(tokens);
    var elapsed := if slot.start.None? then 0 else ElapsedSeconds(clock.first - slot.start.value);
    AccountKeepsBudget(slot.(start := None, tracked := None), slot.tracked, elapsed, TokenDelta(UsageOf(tokens)), clock.second);
  }

  lemma StopActiveKeepsBudget(slot: Slot, status: Status, clock: Clock)
    requires SlotOk(slot) && status != BudgetLimited
    ensures SlotOk(StopActive(slot, status, clock).slot)
  {
    InFlightKeepsBudget(slot, clock);
  }

  lemma EditKeepsBudget(slot: Slot, objective: string, edit: BudgetEdit, clock: Clock)
    requires SlotOk(slot)
    ensures SlotOk(EditGoal(slot, objective, edit, clock).slot)
  {
    InFlightKeepsBudget(slot, clock);
    var charged := AccountInFlight(slot, clock);
    var next := EditGoal(slot, objective, edit, clock).slot;
    if next.goal != charged.goal {
      var goal := charged.goal.value.(objective := Trim(objective), status := EditedStatus(charged.goal.value.status),
                                      tokenBudget := if edit.Keep? then charged.goal.value.tokenBudget else edit.budget);
      SettledGoalIsOk(goal, clock.last);
      assert next.goal == Some(Settle(goal, clock.last));
    }
  }

  lemma SettledGoalIsOk(goal: Goal, ms: int)
    requires goal.status != BudgetLimited && 0 <= goal.tokensUsed && ValidBudget(goal.tokenBudget)
    ensures BudgetOk(Settle(goal, ms))
  {
  }

  lemma StepKeepsBudget(slot: Slot, s: string, op: Op, clock: Clock, id: string)
    requires SlotOk(slot)
    ensures SlotOk(Next(slot, s, op, clock, id).slot)
  {
    if op.StepEnded? {
      EndStepKeepsBudget(slot, op.tokens, clock);
    } else if op.StepFailed? || op.SessionError? {
      StopActiveKeepsBudget(slot, UsageLimited, clock);
    } else if op.Interrupt? {
      StopActiveKeepsBudget(slot, Paused, clock);
    } else if op.Edit? {
      EditKeepsBudget(slot, op.newObjective, op.budgetEdit, clock);
    } else if AccountsInFlight(op) {
      InFlightKeepsBudget(slot, clock);
    }
  }

  /** Every reachable goal: active is below budget, budget-limited has reached it, reported is budget-limited. */
  lemma {:induction false} BudgetInvariant(run: seq<Event>, s: string)
    ensures SlotOk(SlotAfter(run, s))
  {
    if run != [] {
      var init := run[..|run| - 1];
      var e := run[|run| - 1];
      BudgetInvariant(init, s);
      StepKeepsBudget(SlotAfter(init, s), s, e.op, e.clock, e.id);
    }
  }

  /** Running one session's calls from a given slot. */
  function FirstReply(slot: Slot, s: string, run: seq<Event>): Reply
    requires run != []
  {
    Next(slot, s, run[0].op, run[0].clock, run[0].id)
  }

  /** `p` holds of every slot the calls pass through, the first and the last included. */
  ghost predicate Throughout(slot: Slot, s: string, run: seq<Event>, p: Slot -> bool)
    decreases |run|
  {
    p(slot) && (run != [] ==> Throughout(FirstReply(slot, s, run).slot, s, run[1..], p))
  }

  function BudgetPrompts(slot: Slot, s: string, run: seq<Event>): nat
    decreases |run|
  {
    if run == [] then 0
    else
      var r := FirstReply(slot, s, run);
      (if r.prompt.BudgetPrompt? then 1 else 0) + BudgetPrompts(r.slot, s, run[1..])
  }

  predicate Limited(slot: Slot)
  {
    slot.goal.Some? && slot.goal.value.status == BudgetLimited
  }

  /** A report made in an episode stays on record until the episode ends. */
  lemma ReportStays(slot: Slot, s: string, op: Op, clock: Clock, id: string)
    requires Limited(slot) && Limited(Next(slot, s, op, clock, id).slot)
    ensures var r := Next(slot, s, op, clock, id);
      (r.prompt.BudgetPrompt? ==> !slot.goal.value.budgetLimitReported && r.slot.goal.value.budgetLimitReported) &&
      (slot.goal.value.budgetLimitReported ==> r.slot.goal.value.budgetLimitReported)
  {
  }

  /** As long as the goal stays budget-limited, the budget prompt is produced at most once. */
  lemma {:induction false} BudgetPromptOncePerEpisode(slot: Slot, s: string, run: seq<Event>)
    requires Throughout(slot, s, run, Limited)
    ensures BudgetPrompts(slot, s, run) <= if slot.goal.value.budgetLimitReported then 0 else 1
    decreases |run|
  {
    if run != [] {
      var next := FirstReply(slot, s, run).slot;
      assert Throughout(next, s, run[1..], Limited);
      BudgetPromptOncePerEpisode(next, s, run[1..]);
      ReportStays(slot, s, run[0].op, run[0].clock, run[0].id);
    }
  }

  function TokensOf(slot: Slot): int
  {
    if slot.goal.Some? then slot.goal.value.tokensUsed else 0
  }

  /** Continuations that are followed, before the next one is counted, by a step that charges a token. */
  function ProductiveContinuations(slot: Slot, s: string, run: seq<Event>, pending: bool): nat
    decreases |run|
  {
    if run == [] then 0
    else
      var r := FirstReply(slot, s, run);
      if r.prompt.Continuation? then ProductiveContinuations(r.slot, s, run[1..], true)
      else if TokensOf(r.slot) > TokensOf(slot) then
        (if pending then 1 else 0) + ProductiveContinuations(r.slot, s, run[1..], false)
      else ProductiveContinuations(r.slot, s, run[1..], pending)
  }

  /** The slot holds this very goal under this very budget. */
  predicate Holds(slot: Slot, goalId: string, budget: int)
  {
    slot.goal.Some? && slot.goal.value.goalId == goalId && slot.goal.value.tokenBudget == Some(budget)
  }

  lemma TokensNeverDrop(slot: Slot, s: string, op: Op, clock: Clock, id: string, goalId: string, budget: int)
    requires Holds(slot, goalId, budget) && Holds(Next(slot, s, op, clock, id).slot, goalId, budget)
    requires id != goalId
    ensures TokensOf(slot) <= TokensOf(Next(slot, s, op, clock, id).slot)
    ensures Next(slot, s, op, clock, id).prompt.Continuation? ==>
              slot.goal.value.status == Active && TokensOf(Next(slot, s, op, clock, id).slot) == TokensOf(slot)
  {
    StepClock(slot, s, op, clock, id);
    StepCharge(slot, s, op, clock, id);
  }

  /**
   * While the goal and its budget stay the same, only the tokens still unspent can pay for continuations:
   * at most `budget - tokensUsed`, hence at most `budget`, of them lead to a step that charges a token.
   */
  lemma {:induction false} ContinuationsWithinBudget(
    slot: Slot, s: string, run: seq<Event>, pending: bool, goalId: string, budget: int)
    requires SlotOk(slot)
    requires Throughout(slot, s, run, (x: Slot) => Holds(x, goalId, budget))
    requires forall e :: e in run ==> e.id != goalId
    requires pending ==> TokensOf(slot) < budget
    ensures ProductiveContinuations(slot, s, run, pending) <= Max(0, budget - TokensOf(slot))
    decreases |run|
  {
    if run != [] {
      var r := FirstReply(slot, s, run);
      var e := run[0];
      assert Holds(r.slot, goalId, budget) by {
        assert Throughout(r.slot, s, run[1..], (x: Slot) => Holds(x, goalId, budget));
      }
      TokensNeverDrop(slot, s, e.op, e.clock, e.id, goalId, budget);
      StepKeepsBudget(slot, s, e.op, e.clock, e.id);
      var pending' := r.prompt.Continuation? || (pending && TokensOf(r.slot) == TokensOf(slot));
      ContinuationsWithinBudget(r.slot, s, run[1..], pending', goalId, budget);
    }
  }
}
