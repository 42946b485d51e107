/**
 * The session turn coordinator in queue mode. Every `await` of the drain loop is a step boundary; what runs
 * between two awaits is one step. Session records have an identity of their own (an index), because a drain
 * loop keeps using the record it started with even when the map entry changes.
 */
module QueuedTurns {
  import opened Text
  import opened TurnIds

  datatype Item = Item(id: ItemId, input: string)

  datatype Record = Record(draining: bool, queue: seq<Item>)

  /** Where a drain loop is suspended: in `steerActiveTurn`, in `runPrompt`, or just after its item settled. */
  datatype Phase = Steering(item: Item) | Prompting(item: Item) | Settling

  datatype Drain = Drain(record: nat, phase: Phase)

  datatype Outcome = Outcome(id: ItemId, resolved: bool)

  /**
   * All there is to one session: the entry of the `states` map, every record ever made for it, the drain
   * loops now running, and the histories of submitted, started and settled items and of prompts run.
   */
  datatype Session = Session(
    entry: Option<nat>,
    records: seq<Record>,
    drains: seq<Drain>,
    submitted: seq<ItemId>,
    started: seq<ItemId>,
    prompts: seq<Item>,
    settled: seq<Outcome>)

  const UNSEEN := Session(None, [], [], [], [], [], [])

  datatype Steer = Steered | NotSteered | SteerFailed

  datatype Action =
    | Submit(input: string, now: string)
    | SteerReturns(drain: nat, steer: Steer)
    | PromptReturns(drain: nat, ok: bool)
    | Resume(drain: nat)

  function Ids(items: seq<Item>): (ids: seq<ItemId>)
    ensures |ids| == |items|
    ensures forall i :: 0 <= i < |ids| ==> ids[i] == items[i].id
  {
    seq(|items|, i requires 0 <= i < |items| => items[i].id)
  }

  function OutcomeIds(outcomes: seq<Outcome>): (ids: seq<ItemId>)
    ensures |ids| == |outcomes|
    ensures forall i :: 0 <= i < |ids| ==> ids[i] == outcomes[i].id
  {
    seq(|outcomes|, i requires 0 <= i < |outcomes| => outcomes[i].id)
  }

  /** `stateFor`. */
  function StateFor(s: Session): Session
  {
    if s.entry.Some? then s else s.(entry := Some(|s.records|), records := s.records + [Record(false, [])])
  }

  predicate Linked(s: Session)
  {
    (s.entry.Some? ==> s.entry.value < |s.records|) &&
    (forall d :: 0 <= d < |s.drains| ==> s.drains[d].record < |s.records|)
  }

  function Without<T>(xs: seq<T>, i: nat): seq<T>
    requires i < |xs|
  {
    xs[..i] + xs[i + 1..]
  }

  /** The head of the drain loop: start the next item, or stop draining and drop the map entry. */
  function LoopHead(s: Session, d: nat): Session
    requires d < |s.drains| && s.drains[d].record < |s.records|
  {
    var r := s.drains[d].record;
    var record := s.records[r];
    if record.queue != [] then
      var item := record.queue[0];
      s.(records := s.records[r := record.(queue := record.queue[1..])],
         drains := s.drains[d := Drain(r, Steering(item))],
         started := s.started + [item.id])
    else
      s.(records := s.records[r := record.(draining := false)], drains := Without(s.drains, d), entry := None)
  }

  /** `drainQueuedPrompts` up to its first await. */
  function StartDrain(s: Session, r: nat): Session
    requires r < |s.records|
  {
    if s.records[r].draining then s
    else
      LoopHead(s.(records := s.records[r := s.records[r].(draining := true)], drains := s.drains + [Drain(r, Settling)]),
               |s.drains|)
  }

  function SubmitPrompt(s: Session, id: ItemId, input: string): Session
    requires Linked(s)
  {
    var s1 := StateFor(s);
    var r := s1.entry.value;
    var record := s1.records[r];
    StartDrain(s1.(submitted := s1.submitted + [id],
                   records := s1.records[r := record.(queue := record.queue + [Item(id, input)])]), r)
  }

  function Settle(s: Session, d: nat, item: Item, resolved: bool): Session
    requires d < |s.drains|
  {
    s.(drains := s.drains[d := s.drains[d].(phase := Settling)], settled := s.settled + [Outcome(item.id, resolved)])
  }

  /** `runPrompt` is called with the item's input. */
  function RunPrompt(s: Session, d: nat, item: Item): Session
    requires d < |s.drains|
  {
    s.(drains := s.drains[d := s.drains[d].(phase := Prompting(item))], prompts := s.prompts + [item])
  }

  /** Which steps the event loop can take. */
  predicate Enabled(s: Session, a: Action)
  {
    match a
    case Submit(_, _) => true
    case SteerReturns(d, _) => d < |s.drains| && s.drains[d].phase.Steering?
    case PromptReturns(d, _) => d < |s.drains| && s.drains[d].phase.Prompting?
    case Resume(d) => d < |s.drains| && s.drains[d].phase.Settling?
  }

  /** One step in this session; `id` is the queue item id a submission gets. */
  function Step(s: Session, a: Action, id: ItemId): Session
    requires Linked(s) && Enabled(s, a)
  {
    match a
    case Submit(input, _) => SubmitPrompt(s, id, input)
    case SteerReturns(d, steer) =>
      var item := s.drains[d].phase.item;
      if steer.NotSteered? then RunPrompt(s, d, item)
      else Settle(s, d, item, steer.Steered?)
    case PromptReturns(d, ok) => Settle(s, d, s.drains[d].phase.item, ok)
    case Resume(d) => LoopHead(s, d)
  }

  function Queue(s: Session): seq<Item>
    requires Linked(s)
  {
    if s.entry.Some? then s.records[s.entry.value].queue else []
  }

  function InFlight(d: Drain): seq<ItemId>
  {
    if d.phase.Settling? then [] else [d.phase.item.id]
  }

  // ---------------------------------------------------------------- one session

  /**
   * At most one drain; the map entry exists exactly while it runs; what was submitted is what settled, then
   * what is in flight, then what is queued.
   */
  predicate SessionOk(s: Session)
  {
    Linked(s) && |s.drains| <= 1 &&
    (s.entry.Some? <==> |s.drains| == 1) &&
    (s.entry.Some? ==> s.entry.value == s.drains[0].record && s.records[s.entry.value].draining) &&
    s.started == OutcomeIds(s.settled) + (if s.drains == [] then [] else InFlight(s.drains[0])) &&
    s.submitted == s.started + Ids(Queue(s))
  }

  lemma SubmitKeepsSession(s: Session, id: ItemId, input: string)
    requires SessionOk(s)
    ensures SessionOk(SubmitPrompt(s, id, input))
    ensures SubmitPrompt(s, id, input).submitted == s.submitted + [id]
  {
    var next := SubmitPrompt(s, id, input);
    if s.entry.None? {
      assert Queue(next) == [] && next.drains == [Drain(|s.records|, Steering(Item(id, input)))];
      assert next.submitted == next.started + Ids(Queue(next));
    } else {
      assert Queue(next) == Queue(s) + [Item(id, input)];
      assert Ids(Queue(next)) == Ids(Queue(s)) + [id];
    }
  }

  /** A submission joins the queue of the running drain, or starts one that takes it at once. */
  lemma SubmitRecord(s: Session, id: ItemId, input: string)
    requires SessionOk(s)
    ensures var next := SubmitPrompt(s, id, input);
      Linked(next) && next.entry.Some? &&
      next.records[next.entry.value] == Record(true, if s.entry.Some? then Queue(s) + [Item(id, input)] else [])
  {
  }

  lemma ReturnKeepsSession(s: Session, a: Action, id: ItemId)
    requires SessionOk(s) && Enabled(s, a) && (a.SteerReturns? || a.PromptReturns?)
    ensures SessionOk(Step(s, a, id)) && Step(s, a, id).submitted == s.submitted
  {
    var next := Step(s, a, id);
    assert a.drain == 0 && Queue(next) == Queue(s);
  }

  /** With an empty queue the loop ends and the entry goes. */
  lemma LoopEnds(s: Session)
    requires SessionOk(s) && s.entry.Some? && s.drains[0].phase.Settling? && Queue(s) == []
    ensures var next := LoopHead(s, 0);
      SessionOk(next) && next.entry.None? && next.submitted == s.submitted
  {
    var next := LoopHead(s, 0);
    assert next.drains == [] && Ids(Queue(s)) == [] && Ids(Queue(next)) == [];
  }

  /** Otherwise the loop starts the first item of the queue. */
  lemma LoopGoesOn(s: Session)
    requires SessionOk(s) && s.entry.Some? && s.drains[0].phase.Settling? && Queue(s) != []
    ensures var next := LoopHead(s, 0);
      SessionOk(next) && next.entry == s.entry && next.submitted == s.submitted &&
      next.records[next.entry.value] == Record(true, Queue(s)[1..])
  {
    var next, queue := LoopHead(s, 0), Queue(s);
    assert Queue(next) == queue[1..] && next.started == s.started + [queue[0].id];
    assert next.drains == [Drain(s.entry.value, Steering(queue[0]))];
    IdsHeadTail(s.started, queue);
  }

  lemma IdsHeadTail(started: seq<ItemId>, queue: seq<Item>)
    requires queue != []
    ensures started + Ids(queue) == started + [queue[0].id] + Ids(queue[1..])
  {
    assert Ids(queue) == [queue[0].id] + Ids(queue[1..]);
  }

  lemma ResumeKeepsSession(s: Session, a: Action, id: ItemId)
    requires SessionOk(s) && Enabled(s, a) && a.Resume?
    ensures SessionOk(Step(s, a, id)) && Step(s, a, id).submitted == s.submitted
  {
    assert a.drain == 0;
    if Queue(s) == [] {
      LoopEnds(s);
    } else {
      LoopGoesOn(s);
    }
  }

  lemma StepKeepsSession(s: Session, a: Action, id: ItemId)
    requires SessionOk(s) && Enabled(s, a)
    ensures SessionOk(Step(s, a, id))
    ensures Step(s, a, id).submitted == if a.Submit? then s.submitted + [id] else s.submitted
  {
    match a
    case Submit(input, _) => SubmitKeepsSession(s, id, input);
    case Resume(_) => ResumeKeepsSession(s, a, id);
    case _ => ReturnKeepsSession(s, a, id);
  }

  /** How much of a session's work is left: nothing exactly when its entry is gone. */
  function Rank(s: Session): nat
    requires SessionOk(s)
  {
    if s.entry.None? then 0
    else
      3 * |Queue(s)| +
      match s.drains[0].phase
      case Steering(_) => 3
      case Prompting(_) => 2
      case Settling => 1
  }

  /**
   * Every submission is settled in the end, whatever fails: while work is left exactly one loop can step,
   * each of its steps leaves less work, and with no work left everything submitted has settled, in order.
   */
  lemma WorkDrains(s: Session, a: Action, id: ItemId)
    requires SessionOk(s)
    ensures Rank(s) == 0 ==> OutcomeIds(s.settled) == s.submitted
    ensures Rank(s) > 0 ==> exists b: Action :: !b.Submit? && Enabled(s, b)
    ensures Enabled(s, a) && !a.Submit? ==> SessionOk(Step(s, a, id)) && Rank(Step(s, a, id)) < Rank(s)
  {
    if Rank(s) > 0 {
      var b := match s.drains[0].phase
        case Steering(_) => SteerReturns(0, Steered)
        case Prompting(_) => PromptReturns(0, true)
        case Settling => Resume(0);
      assert Enabled(s, b);
    }
    if Enabled(s, a) && !a.Submit? {
      StepKeepsSession(s, a, id);
    }
  }

  // ---------------------------------------------------------------- all sessions

  /** The sessions and the shared sequence counter. */
  datatype Coordinator = Coordinator(sequence: nat, sessions: map<string, Session>)

  const INITIAL := Coordinator(0, map[])

  datatype Event = Event(session: string, action: Action)

  function SessionOf(c: Coordinator, name: string): Session
  {
    if name in c.sessions then c.sessions[name] else UNSEEN
  }

  predicate Possible(c: Coordinator, e: Event)
  {
    Linked(SessionOf(c, e.session)) && Enabled(SessionOf(c, e.session), e.action)
  }

  /** `nextQueueItemId`, which only a submission calls. */
  function IdFor(c: Coordinator, e: Event): ItemId
  {
    if e.action.Submit? then ItemId(e.session, e.action.now, c.sequence + 1) else ItemId(e.session, "", c.sequence)
  }

  function Next(c: Coordinator, e: Event): Coordinator
    requires Possible(c, e)
  {
    var id := IdFor(c, e);
    Coordinator(id.number, c.sessions[e.session := Step(SessionOf(c, e.session), e.action, id)])
  }

  /** The state a sequence of events leads to, if each of them can happen when its turn comes. */
  function Play(c: Coordinator, events: seq<Event>): Option<Coordinator>
    decreases |events|
  {
    if events == [] then Some(c)
    else if !Possible(c, events[0]) then None
    else Play(Next(c, events[0]), events[1..])
  }

  /** Ids of one session, in the order the shared counter handed them out. */
  ghost predicate Numbered(ids: seq<ItemId>, name: string, last: nat)
  {
    Increasing(ids) && forall i :: 0 <= i < |ids| ==> ids[i].number <= last && ids[i].session == name
  }

  ghost predicate Fair(c: Coordinator, name: string)
  {
    SessionOk(SessionOf(c, name)) && Numbered(SessionOf(c, name).submitted, name, c.sequence)
  }

  lemma NumberedGrows(ids: seq<ItemId>, name: string, last: nat, id: ItemId)
    requires Numbered(ids, name, last) && id.number == last + 1 && id.session == name
    ensures Numbered(ids + [id], name, last + 1)
  {
  }

  lemma StepKeepsFair(c: Coordinator, e: Event, name: string)
    requires Possible(c, e) && Fair(c, name)
    ensures Fair(Next(c, e), name)
  {
    var c', s := Next(c, e), SessionOf(c, name);
    if e.session == name {
      StepKeepsSession(s, e.action, IdFor(c, e));
      assert SessionOf(c', name) == Step(s, e.action, IdFor(c, e));
      if e.action.Submit? {
        NumberedGrows(s.submitted, name, c.sequence, IdFor(c, e));
      }
    } else {
      assert SessionOf(c', name) == s;
    }
  }

  lemma {:induction false} PlayKeepsFair(c: Coordinator, events: seq<Event>, name: string)
    requires Fair(c, name) && Play(c, events).Some?
    ensures Fair(Play(c, events).value, name)
    decreases |events|
  {
    if events != [] {
      StepKeepsFair(c, events[0], name);
      PlayKeepsFair(Next(c, events[0]), events[1..], name);
    }
  }

  /** `pending`. */
  function Pending(c: Coordinator, name: string): seq<ItemId>
    requires Linked(SessionOf(c, name))
  {
    Ids(Queue(SessionOf(c, name)))
  }

  /**
   * Queue mode, in every reachable state and for every session: one prompt in flight at most, a queue is
   * only ever waiting behind a running drain, the entry exists exactly while draining, items start and settle
   * in submission order, none twice, and `pending` lists exactly the ones not yet started.
   */
  lemma QueueModeGuarantees(events: seq<Event>, name: string)
    requires Play(INITIAL, events).Some?
    ensures var s := SessionOf(Play(INITIAL, events).value, name);
      Linked(s) && |s.drains| <= 1 &&
      (s.entry.Some? <==> |s.drains| == 1) &&
      (s.entry.Some? ==> s.drains[0].record == s.entry.value && s.records[s.entry.value].draining) &&
      (Queue(s) != [] ==> |s.drains| == 1) &&
      OutcomeIds(s.settled) <= s.started <= s.submitted &&
      |s.started| - |s.settled| <= 1 &&
      (s.drains == [] ==> OutcomeIds(s.settled) == s.submitted) &&
      Pending(Play(INITIAL, events).value, name) == s.submitted[|s.started|..]
    ensures var ids := SessionOf(Play(INITIAL, events).value, name).submitted;
      forall j, k :: 0 <= j < |ids| && 0 <= k < |ids| && j != k ==> ids[j].Show() != ids[k].Show()
  {
    QueueModeSession(events, name);
    QueueModeIds(events, name);
  }

  lemma QueueModeSession(events: seq<Event>, name: string)
    requires Play(INITIAL, events).Some?
    ensures var s := SessionOf(Play(INITIAL, events).value, name);
      Linked(s) && |s.drains| <= 1 &&
      (s.entry.Some? <==> |s.drains| == 1) &&
      (s.entry.Some? ==> s.drains[0].record == s.entry.value && s.records[s.entry.value].draining) &&
      (Queue(s) != [] ==> |s.drains| == 1) &&
      OutcomeIds(s.settled) <= s.started <= s.submitted &&
      |s.started| - |s.settled| <= 1 &&
      (s.drains == [] ==> OutcomeIds(s.settled) == s.submitted) &&
      Pending(Play(INITIAL, events).value, name) == s.submitted[|s.started|..]
  {
    PlayKeepsFair(INITIAL, events, name);
    SessionGuarantees(SessionOf(Play(INITIAL, events).value, name));
  }

  lemma QueueModeIds(events: seq<Event>, name: string)
    requires Play(INITIAL, events).Some?
    ensures var ids := SessionOf(Play(INITIAL, events).value, name).submitted;
      forall j, k :: 0 <= j < |ids| && 0 <= k < |ids| && j != k ==> ids[j].Show() != ids[k].Show()
  {
    PlayKeepsFair(INITIAL, events, name);
    IdsDiffer(SessionOf(Play(INITIAL, events).value, name).submitted);
  }

  lemma SessionGuarantees(s: Session)
    requires SessionOk(s)
    ensures (Queue(s) != [] ==> |s.drains| == 1) && OutcomeIds(s.settled) <= s.started <= s.submitted
    ensures |s.started| - |s.settled| <= 1 && (s.drains == [] ==> OutcomeIds(s.settled) == s.submitted)
    ensures Ids(Queue(s)) == s.submitted[|s.started|..]
  {
  }

  lemma IdsDiffer(ids: seq<ItemId>)
    requires Increasing(ids)
    ensures forall j, k :: 0 <= j < |ids| && 0 <= k < |ids| && j != k ==> ids[j].Show() != ids[k].Show()
  {
    forall j, k | 0 <= j < |ids| && 0 <= k < |ids| && j != k ensures ids[j].Show() != ids[k].Show() {
      IncreasingShownApart(ids, j, k);
    }
  }

  // ---------------------------------------------------------------- what becomes of each item

  /** The call that settled an item, and whether it returned normally. */
  datatype Answer = FromSteer(ok: bool) | FromPrompt(ok: bool)

  /** The items submitted to a session, read off the events; the sequence number counts all submissions. */
  function Submissions(events: seq<Event>, name: string): seq<Item>
  {
    if events == [] then []
    else
      var init, e := events[..|events| - 1], events[|events| - 1];
      if e.session == name then ItemsAfter(Submissions(init, name), e.action, EventId(e, SubmitCount(init)))
      else Submissions(init, name)
  }

  function Stamp(a: Action): string { if a.Submit? then a.now else "" }

  function ItemsAfter(items: seq<Item>, a: Action, id: ItemId): seq<Item>
  {
    if a.Submit? then items + [Item(id, a.input)] else items
  }

  function SubmitCount(events: seq<Event>): nat
  {
    if events == [] then 0
    else SubmitCount(events[..|events| - 1]) + if events[|events| - 1].action.Submit? then 1 else 0
  }

  /** The answers that settle items of a session, read off the events. */
  function Answers(events: seq<Event>, name: string): seq<Answer>
  {
    if events == [] then []
    else
      var init, e := events[..|events| - 1], events[|events| - 1];
      if e.session == name then AnswersAfter(Answers(init, name), e.action) else Answers(init, name)
  }

  /** A steer call that gives no message settles nothing. */
  function AnswersAfter(answers: seq<Answer>, a: Action): seq<Answer>
  {
    match a
    case SteerReturns(_, Steered) => answers + [FromSteer(true)]
    case SteerReturns(_, SteerFailed) => answers + [FromSteer(false)]
    case PromptReturns(_, ok) => answers + [FromPrompt(ok)]
    case _ => answers
  }

  /** The items whose answer came from their prompt. */
  function Prompted(items: seq<Item>, answers: seq<Answer>): seq<Item>
    requires |items| == |answers|
  {
    if items == [] then []
    else
      var n := |items| - 1;
      Prompted(items[..n], answers[..n]) + if answers[n].FromPrompt? then [items[n]] else []
  }

  /** What a drain has in hand. */
  function Current(s: Session): seq<Item>
  {
    if s.drains == [] || s.drains[0].phase.Settling? then [] else [s.drains[0].phase.item]
  }

  /** The first items are settled, each resolved exactly when its answer came normally. */
  ghost predicate OutcomesFit(settled: seq<Outcome>, items: seq<Item>, answers: seq<Answer>)
  {
    |settled| == |answers| <= |items| &&
    forall i :: 0 <= i < |answers| ==> settled[i] == Outcome(items[i].id, answers[i].ok)
  }

  lemma OutcomesGrow(settled: seq<Outcome>, items: seq<Item>, answers: seq<Answer>, answer: Answer)
    requires OutcomesFit(settled, items, answers) && |answers| < |items|
    ensures OutcomesFit(settled + [Outcome(items[|answers|].id, answer.ok)], items, answers + [answer])
  {
  }

  /** The items are those answered, then the one in hand, then the queue; prompts and outcomes are as the answers say. */
  ghost predicate Accounted(s: Session, items: seq<Item>, answers: seq<Answer>)
  {
    Linked(s) && OutcomesFit(s.settled, items, answers) && items[|answers|..] == Current(s) + Queue(s) &&
    s.prompts == Prompted(items[..|answers|], answers) + Running(s)
  }

  /** The item whose prompt is running. */
  function Running(s: Session): seq<Item>
  {
    if s.drains != [] && s.drains[0].phase.Prompting? then [s.drains[0].phase.item] else []
  }

  lemma SubmitHands(s: Session, id: ItemId, input: string)
    requires SessionOk(s)
    ensures var next := SubmitPrompt(s, id, input);
      Linked(next) && next.settled == s.settled && next.prompts == s.prompts && Running(next) == Running(s) &&
      Current(next) + Queue(next) == Current(s) + Queue(s) + [Item(id, input)]
  {
    SubmitRecord(s, id, input);
    var next := SubmitPrompt(s, id, input);
    if s.entry.None? {
      assert Current(s) == [] && Queue(s) == [] && Current(next) == [Item(id, input)] && Queue(next) == [];
    } else {
      assert Queue(next) == Queue(s) + [Item(id, input)] && Current(next) == Current(s);
      AppendAppend(Current(s), Queue(s), [Item(id, input)]);
    }
  }

  lemma SplitAppend(items: seq<Item>, n: nat, item: Item)
    requires n <= |items|
    ensures (items + [item])[..n] == items[..n] && (items + [item])[n..] == items[n..] + [item]
  {
  }

  lemma SubmitAccounted(s: Session, items: seq<Item>, answers: seq<Answer>, id: ItemId, input: string)
    requires SessionOk(s) && Accounted(s, items, answers)
    ensures Accounted(SubmitPrompt(s, id, input), items + [Item(id, input)], answers)
  {
    SubmitHands(s, id, input);
    SplitAppend(items, |answers|, Item(id, input));
  }

  lemma PromptedGrows(items: seq<Item>, answers: seq<Answer>, answer: Answer)
    requires |answers| < |items|
    ensures var n := |answers|;
      Prompted(items[..n + 1], answers + [answer]) ==
      if answer.FromPrompt? then Prompted(items[..n], answers) + [items[n]] else Prompted(items[..n], answers)
  {
    var n := |answers|;
    assert items[..n + 1][..n] == items[..n] && (answers + [answer])[..n] == answers;
    EmptyAppend(Prompted(items[..n], answers));
  }

  lemma HeadAndTail(items: seq<Item>, n: nat, item: Item, queue: seq<Item>)
    requires n <= |items| && items[n..] == [item] + queue
    ensures n < |items| && items[n] == item && items[n + 1..] == queue
  {
    assert items[n..][0] == items[n] && items[n..][1..] == items[n + 1..];
  }

  /** An item's answer arrives. */
  lemma SettleAccounted(s: Session, items: seq<Item>, answers: seq<Answer>, answer: Answer)
    requires SessionOk(s) && Accounted(s, items, answers) && s.drains != [] && !s.drains[0].phase.Settling?
    requires answer.FromPrompt? <==> s.drains[0].phase.Prompting?
    ensures Accounted(Settle(s, 0, s.drains[0].phase.item, answer.ok), items, answers + [answer])
  {
    var item, n := s.drains[0].phase.item, |answers|;
    var next := Settle(s, 0, item, answer.ok);
    HeadAndTail(items, n, item, Queue(s));
    PromptedGrows(items, answers, answer);
    OutcomesGrow(s.settled, items, answers, answer);
    assert Queue(next) == Queue(s) && Current(next) == [];
    EmptyAppend(Queue(s));
    EmptyAppend(next.prompts);
  }

  lemma RunAccounted(s: Session, items: seq<Item>, answers: seq<Answer>)
    requires SessionOk(s) && Accounted(s, items, answers) && s.drains != [] && s.drains[0].phase.Steering?
    ensures Accounted(RunPrompt(s, 0, s.drains[0].phase.item), items, answers)
  {
    var next := RunPrompt(s, 0, s.drains[0].phase.item);
    assert Queue(next) == Queue(s) && Current(next) == Current(s);
  }

  lemma ResumeHands(s: Session)
    requires SessionOk(s) && s.drains != [] && s.drains[0].phase.Settling?
    ensures var next := LoopHead(s, 0);
      Linked(next) && next.settled == s.settled && next.prompts == s.prompts && Running(next) == [] &&
      Current(next) + Queue(next) == Queue(s)
  {
    var next := LoopHead(s, 0);
    if Queue(s) == [] {
      LoopEnds(s);
      assert next.drains == [];
    } else {
      LoopGoesOn(s);
      assert next.drains[0].phase == Steering(Queue(s)[0]) && Queue(next) == Queue(s)[1..];
    }
  }

  lemma ResumeAccounted(s: Session, items: seq<Item>, answers: seq<Answer>)
    requires SessionOk(s) && Accounted(s, items, answers) && s.drains != [] && s.drains[0].phase.Settling?
    ensures Accounted(LoopHead(s, 0), items, answers)
  {
    ResumeHands(s);
    EmptyAppend(Queue(s));
  }

  lemma {:induction false} PlayGrows(c: Coordinator, events: seq<Event>, e: Event)
    ensures Play(c, events + [e]).Some? <==> Play(c, events).Some? && Possible(Play(c, events).value, e)
    ensures Play(c, events + [e]).Some? ==> Play(c, events + [e]) == Some(Next(Play(c, events).value, e))
    decreases |events|
  {
    if events == [] {
      assert Possible(c, e) ==> Play(Next(c, e), [e][1..]) == Some(Next(c, e));
    } else {
      assert (events + [e])[1..] == events[1..] + [e] && (events + [e])[0] == events[0];
      if Possible(c, events[0]) {
        PlayGrows(Next(c, events[0]), events[1..], e);
      }
    }
  }

  lemma ReturnAccounted(s: Session, items: seq<Item>, answers: seq<Answer>, a: Action, id: ItemId)
    requires SessionOk(s) && Accounted(s, items, answers) && Enabled(s, a) && (a.SteerReturns? || a.PromptReturns?)
    ensures Accounted(Step(s, a, id), items, AnswersAfter(answers, a))
  {
    assert a.drain == 0;
    if a.PromptReturns? {
      SettleAccounted(s, items, answers, FromPrompt(a.ok));
    } else if a.steer.NotSteered? {
      RunAccounted(s, items, answers);
    } else {
      SettleAccounted(s, items, answers, FromSteer(a.steer.Steered?));
    }
  }

  /** One event keeps its session accounted for. */
  lemma StepAccounted(s: Session, items: seq<Item>, answers: seq<Answer>, a: Action, id: ItemId)
    requires SessionOk(s) && Accounted(s, items, answers) && Enabled(s, a)
    ensures Accounted(Step(s, a, id), ItemsAfter(items, a, id), AnswersAfter(answers, a))
  {
    if a.Submit? {
      SubmitAccounted(s, items, answers, id, a.input);
    } else if a.Resume? {
      ResumeAccounted(s, items, answers);
    } else {
      ReturnAccounted(s, items, answers, a, id);
    }
  }

  function EventId(e: Event, count: nat): ItemId { ItemId(e.session, Stamp(e.action), count + 1) }

  lemma NextSessions(c: Coordinator, e: Event, name: string)
    requires Possible(c, e)
    ensures SessionOf(Next(c, e), e.session) == Step(SessionOf(c, e.session), e.action, IdFor(c, e))
    ensures name != e.session ==> SessionOf(Next(c, e), name) == SessionOf(c, name)
  {
  }

  lemma SameItems(c: Coordinator, e: Event, items: seq<Item>)
    ensures ItemsAfter(items, e.action, IdFor(c, e)) == ItemsAfter(items, e.action, EventId(e, c.sequence))
  {
  }

  lemma NextAccounted(c: Coordinator, e: Event, name: string, items: seq<Item>, answers: seq<Answer>)
    requires Possible(c, e) && SessionOk(SessionOf(c, name)) && Accounted(SessionOf(c, name), items, answers)
    ensures e.session == name ==>
      Accounted(SessionOf(Next(c, e), name), ItemsAfter(items, e.action, EventId(e, c.sequence)), AnswersAfter(answers, e.action))
    ensures e.session != name ==> Accounted(SessionOf(Next(c, e), name), items, answers)
  {
    NextSessions(c, e, name);
    SameItems(c, e, items);
    if e.session == name {
      StepAccounted(SessionOf(c, name), items, answers, e.action, IdFor(c, e));
    }
  }

  lemma HistoriesGrow(init: seq<Event>, e: Event, name: string)
    ensures SubmitCount(init + [e]) == SubmitCount(init) + if e.action.Submit? then 1 else 0
    ensures Submissions(init + [e], name) ==
      if e.session == name then ItemsAfter(Submissions(init, name), e.action, EventId(e, SubmitCount(init)))
      else Submissions(init, name)
    ensures Answers(init + [e], name) ==
      if e.session == name then AnswersAfter(Answers(init, name), e.action) else Answers(init, name)
  {
    assert (init + [e])[..|init|] == init;
  }

  /** The coordinator's sequence and one of its sessions are as the events say. */
  ghost predicate AsTheEventsSay(c: Coordinator, events: seq<Event>, name: string)
  {
    c.sequence == SubmitCount(events) && Accounted(SessionOf(c, name), Submissions(events, name), Answers(events, name))
  }

  lemma EventKeepsAccounts(c: Coordinator, init: seq<Event>, e: Event, name: string)
    requires AsTheEventsSay(c, init, name) && Possible(c, e) && SessionOk(SessionOf(c, name))
    ensures AsTheEventsSay(Next(c, e), init + [e], name)
  {
    NextAccounted(c, e, name, Submissions(init, name), Answers(init, name));
    SequenceCounts(c, e);
    HistoriesGrow(init, e, name);
    var items, answers := Submissions(init + [e], name), Answers(init + [e], name);
    assert Accounted(SessionOf(Next(c, e), name), items, answers);
  }

  lemma SequenceCounts(c: Coordinator, e: Event)
    requires Possible(c, e)
    ensures Next(c, e).sequence == c.sequence + if e.action.Submit? then 1 else 0
    ensures e.action.Submit? ==> IdFor(c, e) == ItemId(e.session, Stamp(e.action), c.sequence + 1)
  {
  }

  lemma {:induction false} PlayAccounted(events: seq<Event>, name: string)
    requires Play(INITIAL, events).Some?
    ensures AsTheEventsSay(Play(INITIAL, events).value, events, name)
  {
    if events != [] {
      var init, e := events[..|events| - 1], events[|events| - 1];
      assert events == init + [e];
      PlayGrows(INITIAL, init, e);
      PlayAccounted(init, name);
      PlayKeepsFair(INITIAL, init, name);
      EventKeepsAccounts(Play(INITIAL, init).value, init, e, name);
    }
  }

  lemma {:induction false} PromptedMembers(items: seq<Item>, answers: seq<Answer>)
    requires |items| == |answers| && forall i, j :: 0 <= i < j < |items| ==> items[i].id != items[j].id
    ensures var prompted := Prompted(items, answers);
      (forall i, j :: 0 <= i < j < |prompted| ==> prompted[i] != prompted[j]) && (forall p :: p in prompted ==> p in items) &&
      forall i :: 0 <= i < |items| ==> (items[i] in prompted <==> answers[i].FromPrompt?)
  {
    if items != [] {
      var n := |items| - 1;
      assert items == items[..n] + [items[n]];
      PromptedMembers(items[..n], answers[..n]);
      var before := Prompted(items[..n], answers[..n]);
      assert items[n] !in items[..n] && items[n] !in before;
      forall i | 0 <= i < n ensures items[i] in Prompted(items, answers) <==> answers[i].FromPrompt? {
        assert items[..n][i] == items[i] && answers[..n][i] == answers[i];
      }
    }
  }

  /**
   * In every reachable state and for every session, as the events alone say: the items settled are the first ones
   * submitted; each is resolved exactly when the call that settled it returned normally; and a prompt was run for it,
   * once and with its own input, exactly when the steer call gave no message.
   */
  lemma ItemsAreAnswered(events: seq<Event>, name: string)
    requires Play(INITIAL, events).Some?
    ensures var s := SessionOf(Play(INITIAL, events).value, name);
      var items, answers := Submissions(events, name), Answers(events, name);
      |s.settled| == |answers| <= |items| &&
      (forall i :: 0 <= i < |answers| ==> s.settled[i] == Outcome(items[i].id, answers[i].ok)) &&
      (forall i :: 0 <= i < |answers| ==> (items[i] in s.prompts <==> answers[i].FromPrompt?)) &&
      (forall i, j :: 0 <= i < j < |s.prompts| ==> s.prompts[i] != s.prompts[j]) &&
      (forall p :: p in s.prompts ==> p in items[..if |answers| < |items| then |answers| + 1 else |answers|])
  {
    PlayAccounted(events, name);
    ItemIdsDiffer(events, name);
    assert forall i, j :: 0 <= i < j < |Submissions(events, name)| ==>
      Submissions(events, name)[i].id != Submissions(events, name)[j].id;
    var s := SessionOf(Play(INITIAL, events).value, name);
    var items, answers := Submissions(events, name), Answers(events, name);
    var n := |answers|;
    PromptedMembers(items[..n], answers);
    if s.drains != [] && s.drains[0].phase.Prompting? {
      assert items[n] == items[n..][0] == s.drains[0].phase.item;
      assert items[n] !in items[..n];
    }
    forall i | 0 <= i < n ensures items[i] in s.prompts <==> answers[i].FromPrompt? {
      assert items[..n][i] == items[i];
    }
  }

  lemma {:induction false} ItemIdsDiffer(events: seq<Event>, name: string)
    ensures forall i :: 0 <= i < |Submissions(events, name)| ==> Submissions(events, name)[i].id.number <= SubmitCount(events)
    ensures forall i, j :: 0 <= i < j < |Submissions(events, name)| ==>
      Submissions(events, name)[i].id != Submissions(events, name)[j].id
  {
    if events != [] {
      var init, e := events[..|events| - 1], events[|events| - 1];
      assert events == init + [e];
      ItemIdsDiffer(init, name);
      HistoriesGrow(init, e, name);
    }
  }
}
