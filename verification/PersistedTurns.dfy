/**
 * The session turn coordinator in persist mode, without busy detection. A submission awaits the persist call
 * before it pushes its signal, so it may push to a record that the map no longer knows; the guarantees are
 * therefore per record.
 */
module PersistedTurns {
  import opened Text
  import opened TurnIds

  /** `consumed` is the history of what was shifted off the record's `persisted` list. */
  datatype Record = Record(draining: bool, persisted: seq<ItemId>, consumed: seq<ItemId>)

  /** A submission between `stateFor` and the return of `persistPromptOnly`. */
  datatype Waiting = Waiting(record: nat, id: ItemId)

  datatype Phase = AwaitingIdle | RunningLoop | CheckingNewer

  /** A drain loop working on the signal it shifted last. */
  datatype Drain = Drain(record: nat, phase: Phase)

  /** A drain's call of the wait, the loop or the newer-message check, for the signal it shifted last. */
  datatype Made = Made(record: nat, phase: Phase)

  /** `pushes` is the history of signals pushed, with the record each went to; `made` that of the calls drains made. */
  datatype Session = Session(
    entry: Option<nat>,
    records: seq<Record>,
    waiting: seq<Waiting>,
    drains: seq<Drain>,
    pushes: seq<Waiting>,
    made: seq<Made>)

  const UNSEEN := Session(None, [], [], [], [], [])

  /** What was pushed to one record, in order. */
  function PushedTo(pushes: seq<Waiting>, r: nat): seq<ItemId>
  {
    if pushes == [] then []
    else
      var last := pushes[|pushes| - 1];
      PushedTo(pushes[..|pushes| - 1], r) + if last.record == r then [last.id] else []
  }

  datatype Answer = Newer | UpToDate | CheckFailed

  datatype Action =
    | Submit(now: string)
    | PersistReturns(submission: nat, stored: bool)
    | IdleReturns(drain: nat, ok: bool)
    | LoopReturns(drain: nat, ok: bool)
    | CheckReturns(drain: nat, answer: Answer)

  function Without<T>(xs: seq<T>, i: nat): seq<T>
    requires i < |xs|
  {
    xs[..i] + xs[i + 1..]
  }

  predicate Linked(s: Session)
  {
    (s.entry.Some? ==> s.entry.value < |s.records|) &&
    (forall k :: 0 <= k < |s.waiting| ==> s.waiting[k].record < |s.records|) &&
    (forall d :: 0 <= d < |s.drains| ==> s.drains[d].record < |s.records|)
  }

  predicate Enabled(s: Session, a: Action)
  {
    match a
    case Submit(_) => true
    case PersistReturns(k, _) => k < |s.waiting|
    case IdleReturns(d, _) => d < |s.drains| && s.drains[d].phase.AwaitingIdle?
    case LoopReturns(d, _) => d < |s.drains| && s.drains[d].phase.RunningLoop?
    case CheckReturns(d, _) => d < |s.drains| && s.drains[d].phase.CheckingNewer?
  }

  /** The `finally` of the drain: whatever record the map holds for the session, an empty one drops the entry. */
  function Finish(s: Session, d: nat): Session
    requires d < |s.drains| && s.drains[d].record < |s.records|
  {
    var r := s.drains[d].record;
    s.(records := s.records[r := s.records[r].(draining := false)],
       drains := Without(s.drains, d),
       entry := if s.records[r].persisted == [] then None else s.entry)
  }

  /** A drain makes its next call and awaits it. */
  function Await(s: Session, d: nat, phase: Phase): Session
    requires d < |s.drains|
  {
    s.(drains := s.drains[d := s.drains[d].(phase := phase)], made := s.made + [Made(s.drains[d].record, phase)])
  }

  /** The head of the drain loop: shift the next signal or finish. */
  function LoopHead(s: Session, d: nat): Session
    requires d < |s.drains| && s.drains[d].record < |s.records|
  {
    var r := s.drains[d].record;
    var record := s.records[r];
    if record.persisted == [] then Finish(s, d)
    else
      Await(s.(records := s.records[r := record.(persisted := record.persisted[1..],
                                                 consumed := record.consumed + [record.persisted[0]])]), d, AwaitingIdle)
  }

  /** `drainPersistedPrompts` up to its first await. */
  function StartDrain(s: Session, r: nat): Session
    requires r < |s.records|
  {
    if s.records[r].draining then s
    else
      LoopHead(s.(records := s.records[r := s.records[r].(draining := true)],
                  drains := s.drains + [Drain(r, CheckingNewer)]), |s.drains|)
  }

  function Push(s: Session, r: nat, id: ItemId): Session
    requires r < |s.records|
  {
    var record := s.records[r];
    s.(records := s.records[r := record.(persisted := record.persisted + [id])],
       pushes := s.pushes + [Waiting(r, id)])
  }

  function Step(s: Session, a: Action, id: ItemId): Session
    requires Linked(s) && Enabled(s, a)
  {
    match a
    case Submit(_) =>
      var s1 := if s.entry.Some? then s
                else s.(entry := Some(|s.records|), records := s.records + [Record(false, [], [])]);
      s1.(waiting := s1.waiting + [Waiting(s1.entry.value, id)])
    case PersistReturns(k, stored) =>
      var w := s.waiting[k];
      var s1 := s.(waiting := Without(s.waiting, k));
      if stored then StartDrain(Push(s1, w.record, w.id), w.record) else s1
    case IdleReturns(d, ok) =>
      if ok then Await(s, d, RunningLoop) else Finish(s, d)
    case LoopReturns(d, ok) =>
      if ok then Await(s, d, CheckingNewer) else Finish(s, d)
    case CheckReturns(d, answer) =>
      match answer
      case Newer => Await(s, d, RunningLoop)
      case UpToDate => LoopHead(s, d)
      case CheckFailed => Finish(s, d)
  }

  // ---------------------------------------------------------------- per record

  ghost predicate DrainedBy(s: Session, r: nat)
  {
    exists d :: 0 <= d < |s.drains| && s.drains[d].record == r
  }

  /** At most one drain per record, its flag says so, and signals leave in the order they were pushed. */
  ghost predicate RecordsOk(s: Session)
  {
    Linked(s) &&
    (forall d, e :: 0 <= d < e < |s.drains| ==> s.drains[d].record != s.drains[e].record) &&
    (forall r :: 0 <= r < |s.records| ==>
      (s.records[r].draining <==> DrainedBy(s, r)) &&
      PushedTo(s.pushes, r) == s.records[r].consumed + s.records[r].persisted) &&
    (forall i :: 0 <= i < |s.pushes| ==> s.pushes[i].record < |s.records|)
  }

  lemma FinishKeepsRecords(s: Session, d: nat)
    requires RecordsOk(s) && d < |s.drains|
    ensures RecordsOk(Finish(s, d))
  {
    var next := Finish(s, d);
    forall r | 0 <= r < |s.records| ensures next.records[r].draining <==> DrainedBy(next, r) {
      DrainedAfterFinish(s, d, r);
    }
    assert forall e :: 0 <= e < |next.drains| ==> next.drains[e] == s.drains[if e < d then e else e + 1];
  }

  lemma DrainedAfterFinish(s: Session, d: nat, r: nat)
    requires Linked(s) && d < |s.drains|
    requires forall d, e :: 0 <= d < e < |s.drains| ==> s.drains[d].record != s.drains[e].record
    ensures DrainedBy(Finish(s, d), r) <==> DrainedBy(s, r) && r != s.drains[d].record
  {
    var next := Finish(s, d);
    if DrainedBy(s, r) && r != s.drains[d].record {
      var e :| 0 <= e < |s.drains| && s.drains[e].record == r;
      assert next.drains[if e < d then e else e - 1].record == r;
    }
    if DrainedBy(next, r) {
      var e :| 0 <= e < |next.drains| && next.drains[e].record == r;
      assert s.drains[if e < d then e else e + 1].record == r;
    }
  }

  lemma SameDrainsKeepRecords(s: Session, next: Session)
    requires RecordsOk(s) && Linked(next)
    requires |next.drains| == |s.drains| && |next.records| == |s.records|
    requires forall d :: 0 <= d < |s.drains| ==> next.drains[d].record == s.drains[d].record
    requires forall r :: 0 <= r < |s.records| ==>
      next.records[r].draining == s.records[r].draining &&
      PushedTo(next.pushes, r) == next.records[r].consumed + next.records[r].persisted
    requires forall i :: 0 <= i < |next.pushes| ==> next.pushes[i].record < |s.records|
    ensures RecordsOk(next)
  {
    forall r | 0 <= r < |s.records| ensures DrainedBy(next, r) <==> DrainedBy(s, r) {
      if DrainedBy(s, r) {
        var d :| 0 <= d < |s.drains| && s.drains[d].record == r;
        assert next.drains[d].record == r;
      }
      if DrainedBy(next, r) {
        var d :| 0 <= d < |s.drains| && next.drains[d].record == r;
        assert s.drains[d].record == r;
      }
    }
  }

  lemma LoopHeadKeepsRecords(s: Session, d: nat)
    requires RecordsOk(s) && d < |s.drains|
    ensures RecordsOk(LoopHead(s, d))
  {
    if s.records[s.drains[d].record].persisted == [] {
      FinishKeepsRecords(s, d);
    } else {
      SameDrainsKeepRecords(s, LoopHead(s, d));
    }
  }

  lemma StartDrainKeepsRecords(s: Session, r: nat)
    requires RecordsOk(s) && r < |s.records|
    ensures RecordsOk(StartDrain(s, r))
  {
    if !s.records[r].draining {
      var on := s.(records := s.records[r := s.records[r].(draining := true)], drains := s.drains + [Drain(r, CheckingNewer)]);
      forall q | 0 <= q < |on.records| ensures on.records[q].draining <==> DrainedBy(on, q) {
        assert on.drains[|s.drains|].record == r;
        if DrainedBy(s, q) {
          var d :| 0 <= d < |s.drains| && s.drains[d].record == q;
          assert on.drains[d].record == q;
        }
      }
      assert forall d :: 0 <= d < |s.drains| ==> s.drains[d].record != r;
      LoopHeadKeepsRecords(on, |s.drains|);
    }
  }

  lemma NewRecordIsOk(s: Session)
    requires RecordsOk(s)
    ensures RecordsOk(s.(entry := Some(|s.records|), records := s.records + [Record(false, [], [])]))
  {
    var next := s.(entry := Some(|s.records|), records := s.records + [Record(false, [], [])]);
    assert !DrainedBy(s, |s.records|);
    forall r | 0 <= r < |next.records| ensures DrainedBy(next, r) <==> DrainedBy(s, r) {}
    NothingPushedTo(s.pushes, |s.records|);
  }

  lemma SubmitKeepsRecords(s: Session, now: string, id: ItemId)
    requires RecordsOk(s)
    ensures RecordsOk(Step(s, Submit(now), id))
  {
    var s1 := if s.entry.Some? then s else s.(entry := Some(|s.records|), records := s.records + [Record(false, [], [])]);
    if s.entry.None? {
      NewRecordIsOk(s);
    }
    SameDrainsKeepRecords(s1, Step(s, Submit(now), id));
  }

  lemma {:induction false} NothingPushedTo(pushes: seq<Waiting>, r: nat)
    requires forall i :: 0 <= i < |pushes| ==> pushes[i].record < r
    ensures PushedTo(pushes, r) == []
  {
    if pushes != [] {
      NothingPushedTo(pushes[..|pushes| - 1], r);
    }
  }

  lemma PersistKeepsRecords(s: Session, k: nat, stored: bool, id: ItemId)
    requires RecordsOk(s) && k < |s.waiting|
    ensures RecordsOk(Step(s, PersistReturns(k, stored), id))
  {
    var w := s.waiting[k];
    var s1 := s.(waiting := Without(s.waiting, k));
    SameDrainsKeepRecords(s, s1);
    if stored {
      var s2 := Push(s1, w.record, w.id);
      assert s2.pushes[..|s1.pushes|] == s1.pushes;
      SameDrainsKeepRecords(s1, s2);
      StartDrainKeepsRecords(s2, w.record);
    }
  }

  lemma StepKeepsRecords(s: Session, a: Action, id: ItemId)
    requires RecordsOk(s) && Enabled(s, a)
    ensures RecordsOk(Step(s, a, id))
  {
    if a.Submit? {
      SubmitKeepsRecords(s, a.now, id);
    } else if a.PersistReturns? {
      PersistKeepsRecords(s, a.submission, a.stored, id);
    } else if Fails(a) {
      FinishKeepsRecords(s, a.drain);
    } else if a.CheckReturns? && a.answer.UpToDate? {
      LoopHeadKeepsRecords(s, a.drain);
    } else {
      SameDrainsKeepRecords(s, Step(s, a, id));
    }
  }

  predicate Fails(a: Action)
  {
    (a.IdleReturns? && !a.ok) || (a.LoopReturns? && !a.ok) || (a.CheckReturns? && a.answer.CheckFailed?)
  }

  /**
   * A failing drain gives up only the signal it had already shifted: the record keeps its unstarted suffix,
   * stops draining, and the next successful submission to that record drains from that suffix on.
   */
  lemma FailureKeepsUnstarted(s: Session, a: Action, id: ItemId)
    requires RecordsOk(s) && Enabled(s, a) && Fails(a)
    ensures var r := s.drains[a.drain].record;
      var next := Step(s, a, id);
      next.records[r] == s.records[r].(draining := false) &&
      (forall q :: 0 <= q < |s.records| && q != r ==> next.records[q] == s.records[q]) &&
      (s.records[r].persisted != [] ==>
        next.entry == s.entry &&
        var retried := StartDrain(Push(next, r, id), r);
        retried.records[r].consumed == s.records[r].consumed + [s.records[r].persisted[0]] &&
        retried.records[r].persisted == s.records[r].persisted[1..] + [id])
  {
  }

  // ---------------------------------------------------------------- ids

  /** Every id sits in one place: one waiting submission or one push. */
  ghost predicate IdsApart(s: Session, name: string, last: nat)
  {
    Apart(s.waiting, s.pushes, name, last)
  }

  ghost predicate Apart(waiting: seq<Waiting>, pushes: seq<Waiting>, name: string, last: nat)
  {
    (forall k :: 0 <= k < |waiting| ==> waiting[k].id.number <= last && waiting[k].id.session == name) &&
    (forall i :: 0 <= i < |pushes| ==> pushes[i].id.number <= last && pushes[i].id.session == name) &&
    (forall k, l :: 0 <= k < l < |waiting| ==> waiting[k].id.number != waiting[l].id.number) &&
    (forall k, i :: 0 <= k < |waiting| && 0 <= i < |pushes| ==> waiting[k].id.number != pushes[i].id.number) &&
    (forall i, j :: 0 <= i < j < |pushes| ==> pushes[i].id.number != pushes[j].id.number)
  }

  lemma NewIdIsApart(waiting: seq<Waiting>, pushes: seq<Waiting>, w: Waiting, name: string, last: nat)
    requires Apart(waiting, pushes, name, last) && w.id.number == last + 1 && w.id.session == name
    ensures Apart(waiting + [w], pushes, name, last + 1)
  {
  }

  /** A waiting submission's id leaves, or becomes the last push. */
  lemma MovedIdStaysApart(waiting: seq<Waiting>, pushes: seq<Waiting>, k: nat, name: string, last: nat)
    requires Apart(waiting, pushes, name, last) && k < |waiting|
    ensures Apart(Without(waiting, k), pushes, name, last)
    ensures Apart(Without(waiting, k), pushes + [waiting[k]], name, last)
  {
    var left := Without(waiting, k);
    assert forall l :: 0 <= l < |left| ==> left[l] == waiting[if l < k then l else l + 1];
  }

  /** Only a successful persist pushes, and it pushes the id its submission was given. */
  lemma StepPushes(s: Session, a: Action, id: ItemId)
    requires Linked(s) && Enabled(s, a) && !a.Submit?
    ensures Step(s, a, id).waiting == (if a.PersistReturns? then Without(s.waiting, a.submission) else s.waiting)
    ensures Step(s, a, id).pushes == s.pushes +
      if a.PersistReturns? && a.stored then [s.waiting[a.submission]] else []
  {
  }

  lemma SubmitWaits(s: Session, a: Action, id: ItemId)
    requires Linked(s) && Enabled(s, a) && a.Submit?
    ensures Step(s, a, id).pushes == s.pushes
    ensures exists w: Waiting :: w.id == id && Step(s, a, id).waiting == s.waiting + [w]
  {
    var next := Step(s, a, id);
    assert next.waiting == s.waiting + [next.waiting[|s.waiting|]];
  }

  lemma StepKeepsIdsApart(s: Session, a: Action, id: ItemId, name: string, last: nat)
    requires Linked(s) && Enabled(s, a) && IdsApart(s, name, last)
    requires a.Submit? ==> id.number == last + 1 && id.session == name
    ensures IdsApart(Step(s, a, id), name, if a.Submit? then last + 1 else last)
  {
    if a.Submit? {
      SubmitWaits(s, a, id);
      NewIdIsApart(s.waiting, s.pushes, Step(s, a, id).waiting[|s.waiting|], name, last);
    } else {
      StepPushes(s, a, id);
      if a.PersistReturns? {
        MovedIdStaysApart(s.waiting, s.pushes, a.submission, name, last);
      }
      assert s.pushes + [] == s.pushes;
    }
  }

  // ---------------------------------------------------------------- all sessions

  /** `issued` lists the ids handed out so far; its length is the sequence counter. */
  datatype Coordinator = Coordinator(issued: seq<ItemId>, sessions: map<string, Session>)

  const INITIAL := Coordinator([], map[])

  datatype Event = Event(session: string, action: Action)

  function SessionOf(c: Coordinator, name: string): Session
  {
    if name in c.sessions then c.sessions[name] else UNSEEN
  }

  predicate Possible(c: Coordinator, e: Event)
  {
    Linked(SessionOf(c, e.session)) && Enabled(SessionOf(c, e.session), e.action)
  }

  /** `nextQueueItemId`, which only a submission calls. */
  function IdFor(c: Coordinator, e: Event): ItemId
  {
    ItemId(e.session, if e.action.Submit? then e.action.now else "", |c.issued| + 1)
  }

  function Next(c: Coordinator, e: Event): Coordinator
    requires Possible(c, e)
  {
    var id := IdFor(c, e);
    Coordinator(if e.action.Submit? then c.issued + [id] else c.issued,
                c.sessions[e.session := Step(SessionOf(c, e.session), e.action, id)])
  }

  function Play(c: Coordinator, events: seq<Event>): Option<Coordinator>
    decreases |events|
  {
    if events == [] then Some(c)
    else if !Possible(c, events[0]) then None
    else Play(Next(c, events[0]), events[1..])
  }

  ghost predicate Fair(c: Coordinator, name: string)
  {
    (forall i :: 0 <= i < |c.issued| ==> c.issued[i].number == i + 1) &&
    RecordsOk(SessionOf(c, name)) && IdsApart(SessionOf(c, name), name, |c.issued|)
  }

  lemma StepKeepsFair(c: Coordinator, e: Event, name: string)
    requires Possible(c, e) && Fair(c, name)
    ensures Fair(Next(c, e), name)
  {
    var c', s := Next(c, e), SessionOf(c, name);
    if e.session == name {
      var id := IdFor(c, e);
      NextIsStep(c, e);
      StepKeepsRecords(s, e.action, id);
      StepKeepsIdsApart(s, e.action, id, name, |c.issued|);
    } else {
      assert SessionOf(c', name) == s;
    }
  }

  lemma {:induction false} PlayKeepsFair(c: Coordinator, events: seq<Event>, name: string)
    requires Fair(c, name) && Play(c, events).Some?
    ensures Fair(Play(c, events).value, name)
    decreases |events|
  {
    if events != [] {
      StepKeepsFair(c, events[0], name);
      PlayKeepsFair(Next(c, events[0]), events[1..], name);
    }
  }

  /**
   * Persist mode, in every reachable state: no two ids ever handed out look alike; no signal is pushed twice
   * in a session; and every record has at most one drain and has shifted its signals in push order.
   */
  lemma PersistModeGuarantees(events: seq<Event>, name: string)
    requires Play(INITIAL, events).Some?
    ensures var ids := Play(INITIAL, events).value.issued;
      forall i, j :: 0 <= i < j < |ids| ==> ids[i].Show() != ids[j].Show()
    ensures var s := SessionOf(Play(INITIAL, events).value, name);
      Linked(s) &&
      (forall i, j :: 0 <= i < j < |s.pushes| ==> s.pushes[i].id.Show() != s.pushes[j].id.Show()) &&
      (forall d, e :: 0 <= d < e < |s.drains| ==> s.drains[d].record != s.drains[e].record) &&
      (forall r :: 0 <= r < |s.records| ==>
        (s.records[r].draining <==> DrainedBy(s, r)) &&
        PushedTo(s.pushes, r) == s.records[r].consumed + s.records[r].persisted)
  {
    PlayKeepsFair(INITIAL, events, name);
    var c := Play(INITIAL, events).value;
    forall i, j | 0 <= i < j < |c.issued| ensures c.issued[i].Show() != c.issued[j].Show() {
      ShownIdsDiffer(c.issued[i], c.issued[j]);
    }
    var s := SessionOf(c, name);
    forall i, j | 0 <= i < j < |s.pushes| ensures s.pushes[i].id.Show() != s.pushes[j].id.Show() {
      ShownIdsDiffer(s.pushes[i].id, s.pushes[j].id);
    }
  }

  // ---------------------------------------------------------------- exclusion across a session

  /** A drain ends on an empty record, which drops the map entry, while a submission is still waiting to be persisted. */
  predicate StrandsSubmission(s: Session, a: Action)
    requires Linked(s) && Enabled(s, a)
  {
    s.waiting != [] && EndsDrain(a) && s.records[s.drains[a.drain].record].persisted == []
  }

  /** A failure, or no newer user message: the drain goes to its loop head or its `finally`. */
  predicate EndsDrain(a: Action) { Fails(a) || (a.CheckReturns? && a.answer.UpToDate?) }

  /** One drain at most in the whole session, and everything alive uses the record the map knows. */
  predicate Exclusive(s: Session)
  {
    Linked(s) && |s.drains| <= 1 &&
    (forall k :: 0 <= k < |s.waiting| ==> s.entry == Some(s.waiting[k].record)) &&
    (forall d :: 0 <= d < |s.drains| ==> s.entry == Some(s.drains[d].record)) &&
    (forall r :: 0 <= r < |s.records| && s.records[r].draining ==> s.drains != [] && s.drains[0].record == r) &&
    (s.drains != [] ==> s.records[s.drains[0].record].draining)
  }

  lemma SubmitKeepsExclusive(s: Session, now: string, id: ItemId)
    requires Exclusive(s)
    ensures Exclusive(Step(s, Submit(now), id))
  {
  }

  lemma PersistKeepsExclusive(s: Session, k: nat, stored: bool, id: ItemId)
    requires Exclusive(s) && k < |s.waiting|
    ensures Exclusive(Step(s, PersistReturns(k, stored), id))
  {
    var left := Without(s.waiting, k);
    assert forall l :: 0 <= l < |left| ==> left[l] == s.waiting[if l < k then l else l + 1];
  }

  lemma ReturnsKeepExclusive(s: Session, a: Action, id: ItemId)
    requires Exclusive(s) && Enabled(s, a) && !a.Submit? && !a.PersistReturns? && !StrandsSubmission(s, a)
    ensures Exclusive(Step(s, a, id))
  {
    StepPushes(s, a, id);
    if EndsDrain(a) {
      EndKeepsExclusive(s, a, id);
    }
  }

  lemma EndKeepsExclusive(s: Session, a: Action, id: ItemId)
    requires Exclusive(s) && Enabled(s, a) && EndsDrain(a) && !StrandsSubmission(s, a)
    ensures Exclusive(Step(s, a, id))
  {
    var r := s.drains[0].record;
    assert a.drain == 0 && s.drains == [s.drains[0]];
    if Fails(a) || s.records[r].persisted == [] {
      assert Step(s, a, id) == Finish(s, 0);
      FinishKeepsExclusive(s);
    }
  }

  lemma FinishKeepsExclusive(s: Session)
    requires Exclusive(s) && s.drains != [] && (s.waiting == [] || s.records[s.drains[0].record].persisted != [])
    ensures Exclusive(Finish(s, 0))
  {
    assert Finish(s, 0).drains == [];
  }

  /** A step keeps the session to one drain and one live record exactly when it strands no submission. */
  lemma ExclusiveUnlessStranded(s: Session, a: Action, id: ItemId)
    requires Exclusive(s) && Enabled(s, a)
    ensures Exclusive(Step(s, a, id)) <==> !StrandsSubmission(s, a)
  {
    if a.Submit? {
      SubmitKeepsExclusive(s, a.now, id);
    } else if a.PersistReturns? {
      PersistKeepsExclusive(s, a.submission, a.stored, id);
    } else if StrandsSubmission(s, a) {
      StepPushes(s, a, id);
      assert Step(s, a, id).waiting[0] == s.waiting[0];
    } else {
      ReturnsKeepExclusive(s, a, id);
    }
  }

  /** No event of the run strands a submission of the session. */
  predicate NeverStrands(c: Coordinator, events: seq<Event>, name: string)
    requires Play(c, events).Some?
    decreases |events|
  {
    events == [] ||
    ((events[0].session == name ==> !StrandsSubmission(SessionOf(c, name), events[0].action)) &&
     NeverStrands(Next(c, events[0]), events[1..], name))
  }

  lemma {:induction false} PlayKeepsExclusive(c: Coordinator, events: seq<Event>, name: string)
    requires Play(c, events).Some? && Exclusive(SessionOf(c, name)) && NeverStrands(c, events, name)
    ensures Exclusive(SessionOf(Play(c, events).value, name))
    decreases |events|
  {
    if events != [] {
      var e, c' := events[0], Next(c, events[0]);
      if e.session == name {
        ExclusiveUnlessStranded(SessionOf(c, name), e.action, IdFor(c, e));
        NextIsStep(c, e);
      } else {
        assert SessionOf(c', name) == SessionOf(c, name);
      }
      PlayKeepsExclusive(c', events[1..], name);
    }
  }

  /** In a run that strands no submission of a session, that session never has two drains. */
  lemma OneLoopUnlessStranded(events: seq<Event>, name: string)
    requires Play(INITIAL, events).Some? && NeverStrands(INITIAL, events, name)
    ensures |SessionOf(Play(INITIAL, events).value, name).drains| <= 1
  {
    PlayKeepsExclusive(INITIAL, events, name);
  }

  ghost predicate LeadsTo(c: Coordinator, c': Coordinator)
  {
    exists events :: Play(c, events) == Some(c')
  }

  lemma LeadsOn(c: Coordinator, c': Coordinator, e: Event)
    requires LeadsTo(c, c') && Possible(c', e)
    ensures LeadsTo(c, Next(c', e))
  {
    var events :| Play(c, events) == Some(c');
    PlayAppend(c, events, e);
  }

  /** A submission that waits for an idle, empty record: its persist call returns and a drain starts there. */
  lemma WaitingTakesOff(s: Session, k: nat, id: ItemId)
    requires Linked(s) && k < |s.waiting|
    requires var record := s.records[s.waiting[k].record]; !record.draining && record.persisted == []
    ensures var r, next := s.waiting[k].record, Step(s, PersistReturns(k, true), id);
      Linked(next) && next.drains == s.drains + [Drain(r, AwaitingIdle)] && next.waiting == Without(s.waiting, k) &&
      |next.records| == |s.records| && forall q :: 0 <= q < |s.records| && q != r ==> next.records[q] == s.records[q]
  {
  }

  /** No drain; the first waiting submission and a later one wait for two different idle, empty records. */
  predicate TwoToGo(s: Session)
  {
    Linked(s) && s.drains == [] && |s.waiting| >= 2 &&
    var a, b := s.waiting[0].record, s.waiting[|s.waiting| - 1].record;
    a != b && !s.records[a].draining && s.records[a].persisted == [] && !s.records[b].draining && s.records[b].persisted == []
  }

  predicate TwoLoops(s: Session)
  {
    |s.drains| == 2 && s.drains[0].phase.RunningLoop? && s.drains[1].phase.RunningLoop?
  }

  lemma NextIsStep(c: Coordinator, e: Event)
    requires Possible(c, e)
    ensures SessionOf(Next(c, e), e.session) == Step(SessionOf(c, e.session), e.action, IdFor(c, e))
  {
  }

  /** Two drains, both waiting for the session to be idle. */
  predicate TwoStarted(s: Session)
  {
    Linked(s) && |s.drains| == 2 && s.drains[0].phase.AwaitingIdle? && s.drains[1].phase.AwaitingIdle?
  }

  lemma FirstTakesOff(s: Session, id: ItemId)
    requires TwoToGo(s)
    ensures OneToGo(Step(s, PersistReturns(0, true), id), |s.waiting| - 2)
  {
    WaitingTakesOff(s, 0, id);
    assert Without(s.waiting, 0)[|s.waiting| - 2] == s.waiting[|s.waiting| - 1];
  }

  /** One drain waits for idleness, and a submission waits for another idle, empty record. */
  predicate OneToGo(s: Session, k: nat)
  {
    Linked(s) && |s.drains| == 1 && s.drains[0].phase.AwaitingIdle? && k < |s.waiting| &&
    !s.records[s.waiting[k].record].draining && s.records[s.waiting[k].record].persisted == []
  }

  lemma BothStartDraining(c: Coordinator, name: string)
    requires TwoToGo(SessionOf(c, name))
    ensures exists c' :: LeadsTo(c, c') && TwoStarted(SessionOf(c', name))
  {
    assert Play(c, []) == Some(c);
    var e := Event(name, PersistReturns(0, true));
    var s, k := SessionOf(c, name), |SessionOf(c, name).waiting| - 2;
    FirstTakesOff(s, IdFor(c, e));
    LeadsOn(c, c, e);
    NextIsStep(c, e);
    SecondTakesOff(c, Next(c, e), name, k);
  }

  lemma SecondTakesOff(c: Coordinator, c1: Coordinator, name: string, k: nat)
    requires LeadsTo(c, c1) && OneToGo(SessionOf(c1, name), k)
    ensures exists c' :: LeadsTo(c, c') && TwoStarted(SessionOf(c', name))
  {
    var e := Event(name, PersistReturns(k, true));
    NextIsStep(c1, e);
    WaitingTakesOff(SessionOf(c1, name), k, IdFor(c1, e));
    LeadsOn(c, c1, e);
    assert TwoStarted(SessionOf(Next(c1, e), name));
  }

  lemma BothRun(c: Coordinator, c0: Coordinator, name: string)
    requires LeadsTo(c, c0) && TwoStarted(SessionOf(c0, name))
    ensures exists c' :: LeadsTo(c, c') && TwoLoops(SessionOf(c', name))
  {
    var e1 := Event(name, IdleReturns(0, true));
    NextIsStep(c0, e1);
    LeadsOn(c, c0, e1);
    var c1 := Next(c0, e1);
    var e2 := Event(name, IdleReturns(1, true));
    NextIsStep(c1, e2);
    LeadsOn(c, c1, e2);
    assert TwoLoops(SessionOf(Next(c1, e2), name));
  }

  /** After a stranding step, one more submission waits for a record of its own. */
  lemma StrandedThenSubmit(s: Session, a: Action, id: ItemId, now: string, next: ItemId)
    requires Exclusive(s) && Enabled(s, a) && StrandsSubmission(s, a)
    ensures Linked(Step(s, a, id)) && TwoToGo(Step(Step(s, a, id), Submit(now), next))
  {
    var stranded := Step(s, a, id);
    StepPushes(s, a, id);
    assert stranded.drains == [] && stranded.entry.None? && stranded.waiting == s.waiting;
    var w := s.waiting[0];
    assert s.entry == Some(w.record) && s.entry == Some(s.drains[a.drain].record);
    var t := Step(stranded, Submit(now), next);
    assert t.waiting[0] == w && t.waiting[|t.waiting| - 1].record == |s.records|;
  }

  /** From every state a stranding step leads to, some continuation has two loops of the session running at once. */
  lemma StrandedRunsTwoLoops(c: Coordinator, e: Event)
    requires Possible(c, e) && Exclusive(SessionOf(c, e.session)) && StrandsSubmission(SessionOf(c, e.session), e.action)
    ensures exists c' :: LeadsTo(Next(c, e), c') && TwoLoops(SessionOf(c', e.session))
  {
    var name, c0 := e.session, Next(c, e);
    var submit := Event(name, Submit(""));
    NextIsStep(c, e);
    StrandedThenSubmit(SessionOf(c, name), e.action, IdFor(c, e), "", IdFor(c0, submit));
    NextIsStep(c0, submit);
    assert Play(c0, []) == Some(c0);
    LeadsOn(c0, c0, submit);
    var c1 := Next(c0, submit);
    BothStartDraining(c1, name);
    var c2 :| LeadsTo(c1, c2) && TwoStarted(SessionOf(c2, name));
    LeadsToTransitive(c0, c1, c2);
    BothRun(c0, c2, name);
  }

  lemma LeadsToTransitive(a: Coordinator, b: Coordinator, c: Coordinator)
    requires LeadsTo(a, b) && LeadsTo(b, c)
    ensures LeadsTo(a, c)
  {
    var first :| Play(a, first) == Some(b);
    var second :| Play(b, second) == Some(c);
    PlayConcat(a, first, second);
  }

  lemma {:induction false} PlayConcat(c: Coordinator, first: seq<Event>, second: seq<Event>)
    requires Play(c, first).Some?
    ensures Play(c, first + second) == Play(Play(c, first).value, second)
    decreases |first|
  {
    if first == [] {
      EmptyAppend(second);
    } else {
      assert (first + second)[1..] == first[1..] + second && (first + second)[0] == first[0];
      PlayConcat(Next(c, first[0]), first[1..], second);
    }
  }

  lemma {:induction false} PlayAppend(c: Coordinator, first: seq<Event>, last: Event)
    requires Play(c, first).Some? && Possible(Play(c, first).value, last)
    ensures Play(c, first + [last]) == Some(Next(Play(c, first).value, last))
    decreases |first|
  {
    if first == [] {
      assert Play(Next(c, last), [last][1..]) == Some(Next(c, last));
    } else {
      assert (first + [last])[1..] == first[1..] + [last];
      PlayAppend(Next(c, first[0]), first[1..], last);
    }
  }

  /** A reachable state of a run in which only session "s" is active. */
  ghost predicate Reached(ids: seq<ItemId>, s: Session)
  {
    exists c :: LeadsTo(INITIAL, c) && c.issued == ids && SessionOf(c, "s") == s
  }

  lemma Move(ids: seq<ItemId>, s: Session, a: Action, s': Session)
    requires Reached(ids, s) && Linked(s) && Enabled(s, a)
    requires Step(s, a, ItemId("s", if a.Submit? then a.now else "", |ids| + 1)) == s'
    ensures Reached(if a.Submit? then ids + [ItemId("s", a.now, |ids| + 1)] else ids, s')
  {
    var c :| LeadsTo(INITIAL, c) && c.issued == ids && SessionOf(c, "s") == s;
    LeadsOn(INITIAL, c, Event("s", a));
  }

  /** A signal pushed to an idle, empty record is taken up at once. */
  lemma MovePersist(ids: seq<ItemId>, s: Session, w: Waiting, s': Session)
    requires Reached(ids, s) && Linked(s) && s.waiting == [w] + s'.waiting && w.record < |s.records|
    requires !s.records[w.record].draining && s.records[w.record].persisted == []
    requires s'.records == s.records[w.record := Record(true, [], s.records[w.record].consumed + [w.id])]
    requires s'.drains == s.drains + [Drain(w.record, AwaitingIdle)]
    requires s'.pushes == s.pushes + [w] && s'.entry == s.entry && s'.made == s.made + [Made(w.record, AwaitingIdle)]
    ensures Reached(ids, s')
  {
    assert Without(s.waiting, 0) == s'.waiting;
    assert ([] + [w.id])[1..] == [];
    Move(ids, s, PersistReturns(0, true), Step(s, PersistReturns(0, true), ItemId("s", "", |ids| + 1)));
  }

  lemma MoveSubmit(ids: seq<ItemId>, s: Session, ids': seq<ItemId>, s': Session)
    requires Reached(ids, s) && Linked(s) && s'.drains == s.drains && s'.pushes == s.pushes && s'.made == s.made && s'.entry.Some?
    requires ids' == ids + [ItemId("s", "", |ids| + 1)]
    requires s'.entry == if s.entry.Some? then s.entry else Some(|s.records|)
    requires s'.records == if s.entry.Some? then s.records else s.records + [Record(false, [], [])]
    requires s'.waiting == s.waiting + [Waiting(s'.entry.value, ItemId("s", "", |ids| + 1))]
    ensures Reached(ids', s')
  {
    Move(ids, s, Submit(""), s');
  }

  const ONE := ItemId("s", "", 1)
  const TWO := ItemId("s", "", 2)

  /** The first submission drains while the second is still persisting. */
  const BUSY := Session(Some(0), [Record(true, [], [ONE])], [Waiting(0, TWO)], [Drain(0, AwaitingIdle)], [Waiting(0, ONE)],
                       [Made(0, AwaitingIdle)])

  lemma TwoSubmit()
    ensures Reached([ONE, TWO], Session(Some(0), [Record(false, [], [])], [Waiting(0, ONE), Waiting(0, TWO)], [], [], []))
  {
    assert Play(INITIAL, []) == Some(INITIAL) && LeadsTo(INITIAL, INITIAL);
    var s1 := Session(Some(0), [Record(false, [], [])], [Waiting(0, ONE)], [], [], []);
    MoveSubmit([], UNSEEN, [ONE], s1);
    MoveSubmit([ONE], s1, [ONE, TWO], s1.(waiting := [Waiting(0, ONE), Waiting(0, TWO)]));
  }

  lemma OneDrains()
    ensures Reached([ONE, TWO], BUSY)
  {
    TwoSubmit();
    var s2 := Session(Some(0), [Record(false, [], [])], [Waiting(0, ONE), Waiting(0, TWO)], [], [], []);
    assert [] + [ONE] == [ONE];
    MovePersist([ONE, TWO], s2, Waiting(0, ONE), BUSY);
  }

  /** The same session, with the first submission's loop run and the check for newer messages under way. */
  const CHECKING := BUSY.(drains := [Drain(0, CheckingNewer)], made := [Made(0, AwaitingIdle), Made(0, RunningLoop), Made(0, CheckingNewer)])

  lemma CheckIsReached()
    ensures Reached([ONE, TWO], CHECKING)
  {
    OneDrains();
    var looping := BUSY.(drains := [Drain(0, RunningLoop)], made := [Made(0, AwaitingIdle), Made(0, RunningLoop)]);
    assert Await(BUSY, 0, RunningLoop) == looping;
    Move([ONE, TWO], BUSY, IdleReturns(0, true), looping);
    assert looping.made + [Made(0, CheckingNewer)] == CHECKING.made;
    Move([ONE, TWO], looping, LoopReturns(0, true), CHECKING);
  }

  /** Some run comes to a stranding step, and so two loops of one session can come to run at once. */
  lemma TwoLoopsInOneSession()
    ensures exists c :: LeadsTo(INITIAL, c) && TwoLoops(SessionOf(c, "s"))
  {
    CheckIsReached();
    var c :| LeadsTo(INITIAL, c) && c.issued == [ONE, TWO] && SessionOf(c, "s") == CHECKING;
    var e := Event("s", CheckReturns(0, UpToDate));
    StrandedRunsTwoLoops(c, e);
    LeadsOn(INITIAL, c, e);
    var c' :| LeadsTo(Next(c, e), c') && TwoLoops(SessionOf(c', "s"));
    LeadsToTransitive(INITIAL, Next(c, e), c');
  }

  // ---------------------------------------------------------------- every signal is worked on

  function CallsOf(made: seq<Made>, phase: Phase): nat
  {
    if made == [] then 0 else CallsOf(made[..|made| - 1], phase) + if made[|made| - 1].phase == phase then 1 else 0
  }

  function CallsFor(made: seq<Made>, call: Made): nat
  {
    if made == [] then 0 else CallsFor(made[..|made| - 1], call) + if made[|made| - 1] == call then 1 else 0
  }

  lemma CallsGrow(made: seq<Made>, last: Made, phase: Phase, call: Made)
    ensures CallsOf(made + [last], phase) == CallsOf(made, phase) + if last.phase == phase then 1 else 0
    ensures CallsFor(made + [last], call) == CallsFor(made, call) + if last == call then 1 else 0
  {
    assert (made + [last])[..|made|] == made;
  }

  /** How many calls of a kind the answers to a session's earlier calls ask for, read off the events. */
  function CallsDue(events: seq<Event>, name: string, phase: Phase): nat
  {
    if events == [] then 0
    else
      var e := events[|events| - 1];
      CallsDue(events[..|events| - 1], name, phase) + if e.session == name && AsksFor(e.action) == Some(phase) then 1 else 0
  }

  /** An idle session, or a newer user message, asks for a loop; a loop that returned asks for the check. */
  function AsksFor(a: Action): Option<Phase>
  {
    match a
    case IdleReturns(_, true) => Some(RunningLoop)
    case LoopReturns(_, true) => Some(CheckingNewer)
    case CheckReturns(_, Newer) => Some(RunningLoop)
    case _ => None
  }

  /** One wait per signal shifted, record by record. */
  ghost predicate WaitsFit(s: Session)
  {
    forall r :: 0 <= r < |s.records| ==> CallsFor(s.made, Made(r, AwaitingIdle)) == |s.records[r].consumed|
  }

  lemma {:induction false} NoCallsFor(made: seq<Made>, r: nat)
    requires forall i :: 0 <= i < |made| ==> made[i].record < r
    ensures CallsFor(made, Made(r, AwaitingIdle)) == 0
  {
    if made != [] {
      NoCallsFor(made[..|made| - 1], r);
    }
  }

  ghost predicate MadeLinked(s: Session)
  {
    Linked(s) && forall i :: 0 <= i < |s.made| ==> s.made[i].record < |s.records|
  }

  lemma LoopHeadMakes(s: Session, d: nat)
    requires MadeLinked(s) && WaitsFit(s) && d < |s.drains|
    ensures var next := LoopHead(s, d);
      MadeLinked(next) && WaitsFit(next) &&
      forall p: Phase :: p != AwaitingIdle ==> CallsOf(next.made, p) == CallsOf(s.made, p)
  {
    var r, next := s.drains[d].record, LoopHead(s, d);
    if s.records[r].persisted != [] {
      forall q, p: Phase {
        CallsGrow(s.made, Made(r, AwaitingIdle), p, Made(q, AwaitingIdle));
      }
    }
  }

  lemma AwaitMakes(s: Session, d: nat, phase: Phase)
    requires MadeLinked(s) && WaitsFit(s) && d < |s.drains| && phase != AwaitingIdle
    ensures var next := Await(s, d, phase);
      MadeLinked(next) && WaitsFit(next) &&
      forall p: Phase :: CallsOf(next.made, p) == CallsOf(s.made, p) + if p == phase then 1 else 0
  {
    forall q, p: Phase {
      CallsGrow(s.made, Made(s.drains[d].record, phase), p, Made(q, AwaitingIdle));
    }
  }

  lemma PersistMakes(s: Session, k: nat, stored: bool, id: ItemId)
    requires MadeLinked(s) && WaitsFit(s) && k < |s.waiting|
    ensures var next := Step(s, PersistReturns(k, stored), id);
      MadeLinked(next) && WaitsFit(next) &&
      forall p: Phase :: p != AwaitingIdle ==> CallsOf(next.made, p) == CallsOf(s.made, p)
  {
    if stored {
      var w := s.waiting[k];
      var pushed := Push(s.(waiting := Without(s.waiting, k)), w.record, w.id);
      if !pushed.records[w.record].draining {
        LoopHeadMakes(pushed.(records := pushed.records[w.record := pushed.records[w.record].(draining := true)],
                              drains := pushed.drains + [Drain(w.record, CheckingNewer)]), |pushed.drains|);
      }
    }
  }

  lemma SubmitMakes(s: Session, now: string, id: ItemId)
    requires MadeLinked(s) && WaitsFit(s)
    ensures var next := Step(s, Submit(now), id);
      MadeLinked(next) && WaitsFit(next) && next.made == s.made
  {
    NoCallsFor(s.made, |s.records|);
  }

  /** What a step adds to the calls made: the one its event asks for, and a wait for each signal shifted. */
  lemma StepMakes(s: Session, a: Action, id: ItemId)
    requires MadeLinked(s) && WaitsFit(s) && Enabled(s, a)
    ensures var next := Step(s, a, id);
      MadeLinked(next) && WaitsFit(next) &&
      forall p: Phase :: p != AwaitingIdle ==> CallsOf(next.made, p) == CallsOf(s.made, p) + if AsksFor(a) == Some(p) then 1 else 0
  {
    if a.Submit? {
      SubmitMakes(s, a.now, id);
    } else if a.PersistReturns? {
      PersistMakes(s, a.submission, a.stored, id);
    } else if Fails(a) {
      assert Step(s, a, id) == Finish(s, a.drain);
    } else if a.CheckReturns? && a.answer.UpToDate? {
      LoopHeadMakes(s, a.drain);
    } else {
      AwaitMakes(s, a.drain, if a.LoopReturns? then CheckingNewer else RunningLoop);
    }
  }

  ghost predicate CallsFit(s: Session, events: seq<Event>, name: string)
  {
    MadeLinked(s) && WaitsFit(s) && forall p: Phase :: p != AwaitingIdle ==> CallsOf(s.made, p) == CallsDue(events, name, p)
  }

  lemma CallsDueGrow(events: seq<Event>, e: Event, name: string, p: Phase)
    ensures CallsDue(events + [e], name, p) == CallsDue(events, name, p) + if e.session == name && AsksFor(e.action) == Some(p) then 1 else 0
  {
    assert (events + [e])[..|events|] == events;
  }

  lemma NextCallsFit(c: Coordinator, init: seq<Event>, e: Event, name: string)
    requires Possible(c, e) && CallsFit(SessionOf(c, name), init, name)
    ensures CallsFit(SessionOf(Next(c, e), name), init + [e], name)
  {
    forall p: Phase {
      CallsDueGrow(init, e, name, p);
    }
    if e.session == name {
      NextIsStep(c, e);
      StepMakes(SessionOf(c, name), e.action, IdFor(c, e));
    } else {
      assert SessionOf(Next(c, e), name) == SessionOf(c, name);
    }
  }

  lemma {:induction false} PlayShrinks(c: Coordinator, events: seq<Event>, e: Event)
    requires Play(c, events + [e]).Some?
    ensures Play(c, events).Some? && Possible(Play(c, events).value, e)
    decreases |events|
  {
    if events == [] {
      assert ([] + [e])[0] == e;
    } else {
      assert (events + [e])[1..] == events[1..] + [e] && (events + [e])[0] == events[0];
      PlayShrinks(Next(c, events[0]), events[1..], e);
    }
  }

  /**
   * In every reachable state and for every session: a drain has waited once for each signal it shifted; the loop was run
   * once for each session found idle and for each newer user message found; and it was checked for newer messages once
   * for each loop that returned.
   */
  lemma {:induction false} SignalsAreWorkedOn(events: seq<Event>, name: string)
    requires Play(INITIAL, events).Some?
    ensures CallsFit(SessionOf(Play(INITIAL, events).value, name), events, name)
  {
    if events != [] {
      var init, e := events[..|events| - 1], events[|events| - 1];
      assert events == init + [e];
      PlayShrinks(INITIAL, init, e);
      PlayAppend(INITIAL, init, e);
      SignalsAreWorkedOn(init, name);
      NextCallsFit(Play(INITIAL, init).value, init, e, name);
    }
  }
}
