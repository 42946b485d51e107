/** The remote host's goal manager, and when it agrees with the plugin's. */
module HostGoals {
  import opened Text
  import opened GoalSlots

  /** The calls the two managers share. */
  predicate Shared(op: Op)
  {
    op.Create? || op.Finish? || op.Clear? || op.SetStatus? || op.Edit?
  }

  datatype HostReply = HostReply(goal: Option<Goal>, ok: bool)

  function HostUpdate(goal: Option<Goal>, patch: Goal -> Goal, ms: int): HostReply
  {
    if goal.None? then HostReply(None, false) else HostReply(Some(Settle(patch(goal.value), ms)), true)
  }

  /** One call on the host manager, which keeps no steps in flight. */
  function HostNext(goal: Option<Goal>, session: string, op: Op, clock: Clock, id: string): HostReply
    requires Shared(op)
  {
    match op
    case Create(objective, budget) =>
      var normalized := Trim(objective);
      if !ValidObjective(normalized) || !ValidBudget(budget) || goal.Some? then HostReply(goal, false)
      else HostReply(Some(NewGoal(session, id, normalized, budget, Seconds(clock.first))), true)
    case Finish(achieved) =>
      HostUpdate(goal, (g: Goal) => g.(status := if achieved then Complete else Blocked), clock.last)
    case Clear => HostReply(None, true)
    case SetStatus(resume) =>
      HostUpdate(goal, (g: Goal) => g.(status := if resume then Active else Paused), clock.last)
    case Edit(objective, edit) =>
      var normalized := Trim(objective);
      if !ValidObjective(normalized) || (edit.Replace? && !ValidBudget(edit.budget)) then HostReply(goal, false)
      else
        HostUpdate(goal, (g: Goal) => g.(objective := normalized, status := EditedStatus(g.status),
                   tokenBudget := if edit.Keep? then g.tokenBudget else edit.budget), clock.last)
  }

  /** A step in flight has run a whole second under the stored goal by the time of this call. */
  predicate TimeIsDue(slot: Slot, op: Op, clock: Clock)
  {
    !op.Create? && !op.Clear? &&
    slot.start.Some? && 1000 <= clock.first - slot.start.value &&
    slot.goal.Some? && slot.tracked == Some(slot.goal.value.goalId) && slot.goal.value.goalId != ""
  }

  lemma DueTimeShows(slot: Slot, op: Op, clock: Clock)
    requires !op.Create? && !op.Clear?
    ensures var after := AccountInFlight(slot, clock);
      (after.goal.Some? <==> slot.goal.Some?) && (slot.start.None? ==> after.start.None?) &&
      (!TimeIsDue(slot, op, clock) ==> after.goal == slot.goal) &&
      (TimeIsDue(slot, op, clock) ==> after.goal.value.timeUsedSeconds > slot.goal.value.timeUsedSeconds)
  {
  }

  /** The two answers to one call fail alike, and store alike exactly when no time is due. */
  predicate Alike(slot: Slot, op: Op, clock: Clock, plugin: Reply, host: HostReply)
  {
    plugin.ok == host.ok && (plugin.slot.goal == host.goal <==> !TimeIsDue(slot, op, clock)) &&
    (slot.start.None? ==> plugin.slot.start.None?)
  }

  lemma CreateAndClearAreAlike(slot: Slot, s: string, op: Op, clock: Clock, id: string)
    requires op.Create? || op.Clear?
    ensures Alike(slot, op, clock, Next(slot, s, op, clock, id), HostNext(slot.goal, s, op, clock, id))
  {
  }

  lemma StatusesAreAlike(slot: Slot, s: string, op: Op, clock: Clock, id: string)
    requires op.Finish? || op.SetStatus?
    ensures Alike(slot, op, clock, Next(slot, s, op, clock, id), HostNext(slot.goal, s, op, clock, id))
  {
    DueTimeShows(slot, op, clock);
  }

  lemma EditsAreAlike(slot: Slot, s: string, op: Op, clock: Clock, id: string)
    requires op.Edit?
    ensures Alike(slot, op, clock, Next(slot, s, op, clock, id), HostNext(slot.goal, s, op, clock, id))
  {
    DueTimeShows(slot, op, clock);
  }

  /** On one call the managers agree on store and failure exactly when no in-flight time is due. */
  lemma AgreeUnlessTimeIsDue(slot: Slot, s: string, op: Op, clock: Clock, id: string)
    requires Shared(op)
    ensures var plugin := Next(slot, s, op, clock, id);
      var host := HostNext(slot.goal, s, op, clock, id);
      plugin.ok == host.ok && (plugin.slot.goal == host.goal <==> !TimeIsDue(slot, op, clock)) &&
      (slot.start.None? ==> plugin.slot.start.None?)
  {
    if op.Create? || op.Clear? {
      CreateAndClearAreAlike(slot, s, op, clock, id);
    } else if op.Edit? {
      EditsAreAlike(slot, s, op, clock, id);
    } else {
      StatusesAreAlike(slot, s, op, clock, id);
    }
    assert Alike(slot, op, clock, Next(slot, s, op, clock, id), HostNext(slot.goal, s, op, clock, id));
  }

  datatype Call = Call(op: Op, clock: Clock, id: string)

  /** The goal stored after some calls, and whether each call succeeded, on either manager. */
  function PluginRun(slot: Slot, s: string, calls: seq<Call>): (Slot, seq<bool>)
  {
    if calls == [] then (slot, [])
    else
      var c := calls[|calls| - 1];
      var (before, oks) := PluginRun(slot, s, calls[..|calls| - 1]);
      var r := Next(before, s, c.op, c.clock, c.id);
      (r.slot, oks + [r.ok])
  }

  function HostRun(goal: Option<Goal>, s: string, calls: seq<Call>): (Option<Goal>, seq<bool>)
    requires forall c :: c in calls ==> Shared(c.op)
  {
    if calls == [] then (goal, [])
    else
      var c := calls[|calls| - 1];
      var (before, oks) := HostRun(goal, s, calls[..|calls| - 1]);
      var r := HostNext(before, s, c.op, c.clock, c.id);
      (r.goal, oks + [r.ok])
  }

  /** With no step in flight, both managers hold equal goals and fail on the same calls, for every call sequence. */
  lemma {:induction false} HostSimulatesPlugin(slot: Slot, s: string, calls: seq<Call>)
    requires slot.start.None?
    requires forall c :: c in calls ==> Shared(c.op)
    ensures PluginRun(slot, s, calls).0.start.None?
    ensures PluginRun(slot, s, calls).0.goal == HostRun(slot.goal, s, calls).0
    ensures PluginRun(slot, s, calls).1 == HostRun(slot.goal, s, calls).1
  {
    if calls != [] {
      var init := calls[..|calls| - 1];
      HostSimulatesPlugin(slot, s, init);
      var c := calls[|calls| - 1];
      var (before, oks) := PluginRun(slot, s, init);
      AgreeUnlessTimeIsDue(before, s, c.op, c.clock, c.id);
      var plugin, host := Next(before, s, c.op, c.clock, c.id), HostNext(before.goal, s, c.op, c.clock, c.id);
      assert PluginRun(slot, s, calls) == (plugin.slot, oks + [plugin.ok]);
      assert HostRun(slot.goal, s, calls) == (host.goal, oks + [host.ok]);
    }
  }
}
