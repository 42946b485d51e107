/** The coordinator object in queue mode: the code between two awaits, proved against the step function of the protocol. */
module TurnCoordinator {
  import opened Text
  import opened TurnIds
  import opened QueuedTurns

  class SessionState {
    var draining: bool
    var queue: seq<Item>

    constructor ()
      ensures !draining && queue == []
    {
      draining, queue := false, [];
    }
  }

  /** An event changes its own session only. */
  lemma NextIsLocal(c: Coordinator, e: Event)
    requires Possible(c, e)
    ensures SessionOf(Next(c, e), e.session) == Step(SessionOf(c, e.session), e.action, IdFor(c, e))
    ensures forall name :: name != e.session ==> SessionOf(Next(c, e), name) == SessionOf(c, name)
  {
  }

  /** The records that the map of states holds, as the protocol sees them. */
  ghost predicate Agrees(live: map<string, Record>, c: Coordinator)
  {
    forall name: string :: Fits(live, name, SessionOf(c, name))
  }

  ghost predicate Fits(live: map<string, Record>, name: string, s: Session)
  {
    SessionOk(s) &&
    if name in live then s.entry.Some? && s.records[s.entry.value] == live[name] else s.entry.None?
  }

  /** The records after a submission: the item joins a running drain's queue, or starts a drain that takes it. */
  function Submitted(live: map<string, Record>, name: string, item: Item): map<string, Record>
  {
    live[name := Record(true, if name in live then live[name].queue + [item] else [])]
  }

  lemma MappedIsDraining(live: map<string, Record>, c: Coordinator, name: string)
    requires Agrees(live, c)
    ensures Linked(SessionOf(c, name)) && (name in live ==> live[name].draining)
  {
    assert Fits(live, name, SessionOf(c, name));
  }

  lemma SubmitAgrees(live: map<string, Record>, c: Coordinator, e: Event)
    requires Agrees(live, c) && e.action.Submit?
    ensures Possible(c, e)
    ensures e.session in live ==> live[e.session].draining
    ensures var item := Item(ItemId(e.session, e.action.now, c.sequence + 1), e.action.input);
      Agrees(Submitted(live, e.session, item), Next(c, e)) && Next(c, e).sequence == c.sequence + 1
  {
    var s := SessionOf(c, e.session);
    assert Fits(live, e.session, s);
    SubmitKeepsSession(s, IdFor(c, e), e.action.input);
    SubmitRecord(s, IdFor(c, e), e.action.input);
    NextIsLocal(c, e);
    var next := Submitted(live, e.session, Item(IdFor(c, e), e.action.input));
    forall name ensures Fits(next, name, SessionOf(Next(c, e), name)) {
      assert name != e.session ==> Fits(live, name, SessionOf(c, name));
    }
  }

  /** The records after a loop step: the queue is shifted, or an empty one goes. */
  function Resumed(live: map<string, Record>, name: string): map<string, Record>
    requires name in live
  {
    if live[name].queue == [] then live - {name} else live[name := Record(true, live[name].queue[1..])]
  }

  lemma ResumeAgrees(live: map<string, Record>, c: Coordinator, e: Event)
    requires Agrees(live, c) && Possible(c, e) && e.action.Resume?
    ensures e.action.drain == 0 && e.session in live && live[e.session].draining
    ensures Agrees(Resumed(live, e.session), Next(c, e)) && Next(c, e).sequence == c.sequence
  {
    var s := SessionOf(c, e.session);
    assert Fits(live, e.session, s);
    if Queue(s) == [] {
      LoopEnds(s);
    } else {
      LoopGoesOn(s);
    }
    NextIsLocal(c, e);
    forall name | name != e.session ensures Fits(live, name, SessionOf(Next(c, e), name)) {
      assert Fits(live, name, SessionOf(c, name));
    }
  }

  lemma ReturnAgrees(live: map<string, Record>, c: Coordinator, e: Event)
    requires Agrees(live, c) && Possible(c, e) && (e.action.SteerReturns? || e.action.PromptReturns?)
    ensures Agrees(live, Next(c, e)) && Next(c, e).sequence == c.sequence
  {
    assert Fits(live, e.session, SessionOf(c, e.session));
    ReturnKeepsSession(SessionOf(c, e.session), e.action, IdFor(c, e));
    NextIsLocal(c, e);
    assert forall name :: Fits(live, name, SessionOf(c, name));
  }

  lemma Overwrite(live: map<string, Record>, name: string, first: Record, second: Record)
    ensures live[name := first][name := second] == live[name := second]
  {
  }

  class SessionTurnCoordinator {
    var states: map<string, SessionState>
    var sequence: nat
    /** The protocol state this object is in. */
    ghost var protocol: Coordinator
    /** The state object that each running drain loop was started with: set when a loop starts, removed when it ends. */
    ghost var loops: map<string, SessionState>

    ghost function Live(): map<string, Record>
      reads this`states, states.Values
    {
      map name | name in states :: Record(states[name].draining, states[name].queue)
    }

    ghost predicate Valid()
      reads this, states.Values
    {
      sequence == protocol.sequence && loops == states && Agrees(Live(), protocol) && Apart()
    }

    /** Sessions do not share a state object. */
    ghost predicate Apart()
      reads this`states
    {
      forall a, b :: a in states && b in states && a != b ==> states[a] != states[b]
    }

    constructor ()
      ensures Valid() && protocol == INITIAL && states == map[]
    {
      states, sequence := map[], 0;
      protocol, loops := INITIAL, map[];
    }

    method StateFor(name: string) returns (state: SessionState)
      requires Apart()
      modifies this`states
      ensures Apart() && name in states && state == states[name]
      ensures name in old(states) ==> states == old(states)
      ensures name !in old(states) ==> fresh(state) && states == old(states)[name := state]
      ensures name !in old(states) ==> !state.draining && state.queue == []
      ensures Live() == if name in old(states) then old(Live()) else old(Live())[name := Record(false, [])]
    {
      if name in states {
        state := states[name];
      } else {
        state := new SessionState();
        states := states[name := state];
      }
    }

    /** The head of the drain loop: takes the next item, or ends the loop and drops the entry. */
    method TakeNext(name: string, state: SessionState) returns (item: Option<Item>)
      modifies this`states, state
      ensures old(state.queue) != [] ==>
        item == Some(old(state.queue)[0]) && state.queue == old(state.queue)[1..] && state.draining == old(state.draining) &&
        states == old(states)
      ensures old(state.queue) == [] ==> item == None && state.queue == [] && !state.draining && states == old(states) - {name}
    {
      if |state.queue| > 0 {
        item := Some(state.queue[0]);
        state.queue := state.queue[1..];
      } else {
        item := None;
        state.draining := false;
        states := states - {name};
      }
    }

    /** Queues an item and starts a drain unless one runs. */
    method Push(name: string, state: SessionState, next: Item) returns (item: Option<Item>)
      requires Apart() && name in states && state == states[name]
      modifies this`states, this`loops, state
      ensures states == old(states) && loops == if old(state.draining) then old(loops) else old(loops)[name := state]
      ensures var all := old(state.queue) + [next];
        if old(state.draining) then item == None && state.queue == all else item == Some(all[0]) && state.queue == all[1..]
      ensures state.draining && Live() == old(Live())[name := Record(true, state.queue)]
    {
      state.queue := state.queue + [next];
      item := None;
      if !state.draining {
        state.draining := true;
        loops := loops[name := state];
        item := TakeNext(name, state);
      }
    }

    /** What a submission does to the objects. */
    method Accept(name: string, input: string, now: string) returns (id: ItemId, item: Option<Item>)
      requires Apart() && (name in states ==> states[name].draining) && loops == states
      modifies this`states, this`sequence, this`loops, states.Values
      ensures Apart() && name in states && (name in old(states) || fresh(states[name])) && loops == states
      ensures states == if name in old(states) then old(states) else old(states)[name := states[name]]
      ensures sequence == old(sequence) + 1 && id == ItemId(name, now, sequence)
      ensures item == if name in old(states) then None else Some(Item(id, input))
      ensures Live() == Submitted(old(Live()), name, Item(id, input))
    {
      ghost var live := Live();
      var state := StateFor(name);
      sequence := sequence + 1;
      id := ItemId(name, now, sequence);
      item := Push(name, state, Item(id, input));
      Overwrite(live, name, Record(false, []), Record(true, state.queue));
    }

    /** `submit`, up to the first await of the drain it may start; `item` is what that drain then works on. */
    method Submit(name: string, input: string, now: string) returns (id: ItemId, item: Option<Item>)
      requires Valid()
      modifies this, states.Values
      ensures Valid() && name in states && (name in old(states) || fresh(states[name]))
      ensures states == if name in old(states) then old(states) else old(states)[name := states[name]]
      ensures protocol == Next(old(protocol), Event(name, Action.Submit(input, now)))
      ensures id == ItemId(name, now, old(sequence) + 1)
      ensures item == if name in old(states) then None else Some(Item(id, input))
    {
      ghost var live, event := Live(), Event(name, Action.Submit(input, now));
      MappedIsDraining(live, protocol, name);
      id, item := Accept(name, input, now);
      FollowSubmission(live, event);
    }

    /** The protocol takes the submission that the objects have taken. */
    ghost method FollowSubmission(live: map<string, Record>, e: Event)
      requires Agrees(live, protocol) && e.action.Submit? && Possible(protocol, e)
      requires Live() == Submitted(live, e.session, Item(ItemId(e.session, e.action.now, protocol.sequence + 1), e.action.input))
      requires sequence == protocol.sequence + 1 && loops == states && Apart()
      modifies this`protocol
      ensures Valid() && protocol == Next(old(protocol), e)
    {
      SubmitAgrees(live, protocol, e);
      protocol := Next(protocol, e);
    }

    /** What the head of a drain loop does to the objects. */
    method Advance(name: string, state: SessionState) returns (item: Option<Item>)
      requires Apart() && name in states && state == states[name] && state.draining && loops == states
      modifies this`states, this`loops, state
      ensures Apart() && loops == states && states == if old(state.queue) == [] then old(states) - {name} else old(states)
      ensures item == if old(state.queue) == [] then None else Some(old(state.queue)[0])
      ensures Live() == Resumed(old(Live()), name)
    {
      item := TakeNext(name, state);
      if item.None? {
        loops := loops - {name};
      }
    }

    /** A drain loop goes on with its own state object after an item has settled. */
    method Resume(name: string, state: SessionState) returns (item: Option<Item>)
      requires Valid() && Possible(protocol, Event(name, Action.Resume(0))) && name in loops && state == loops[name]
      modifies this, states.Values
      ensures Valid() && forall other :: other in states ==> other in old(states) && states[other] == old(states)[other]
      ensures protocol == Next(old(protocol), Event(name, Action.Resume(0)))
      ensures item == if old(state.queue) == [] then None else Some(old(state.queue)[0])
    {
      ghost var live, event := Live(), Event(name, Action.Resume(0));
      MappedIsDraining(live, protocol, name);
      item := Advance(name, state);
      FollowResumption(live, event);
    }

    /** The protocol takes the loop step that the objects have taken. */
    ghost method FollowResumption(live: map<string, Record>, e: Event)
      requires Agrees(live, protocol) && e.action.Resume? && Possible(protocol, e) && e.session in live
      requires Live() == Resumed(live, e.session)
      requires sequence == protocol.sequence && loops == states && Apart()
      modifies this`protocol
      ensures Valid() && protocol == Next(old(protocol), e)
    {
      ResumeAgrees(live, protocol, e);
      protocol := Next(protocol, e);
    }

    /** A steering or prompt call of the running drain returns, which may settle its item; no object changes. */
    ghost method CallReturns(e: Event)
      requires Valid() && Possible(protocol, e) && (e.action.SteerReturns? || e.action.PromptReturns?)
      modifies this`protocol
      ensures Valid() && protocol == Next(old(protocol), e)
    {
      ReturnAgrees(Live(), protocol, e);
      protocol := Next(protocol, e);
    }

    /** `pending`. */
    method Pending(name: string) returns (ids: seq<ItemId>)
      requires Valid()
      ensures Linked(SessionOf(protocol, name)) && ids == QueuedTurns.Pending(protocol, name)
    {
      assert Fits(Live(), name, SessionOf(protocol, name));
      ids := [];
      if name in states {
        ids := Ids(states[name].queue);
      }
    }
  }
}
