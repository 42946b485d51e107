/** The lifecycle of normalized response events: validation, transition, and the traces they accept. */
module ResponseLifecycle {
  import opened Text

  datatype Kind =
    | RunStarted | RunCompleted | RunFailed | RunCancelled
    | ResponseStarted | ResponseCompleted | ResponseFailed | ResponseCancelled
    | TextDelta | TextCompleted | ReasoningDelta | ReasoningCompleted | StructuredCompleted
    | ToolRequested | ToolUpdated | ToolCompleted | ToolFailed | ToolCancelled
    | SessionUpdated | UsageReported | MetadataAttached

  /** `text` is the payload text of a delta and irrelevant for other kinds. */
  datatype Event = Event(kind: Kind, responseId: Option<string>, itemId: Option<string>, text: string)

  /** "started" and "requested" are `Open`. */
  datatype Phase = Open | Completed | Failed | Cancelled

  datatype State = State(
    run: Option<Phase>,
    responses: map<string, Phase>,
    textItems: map<string, Phase>,
    reasoningItems: map<string, Phase>,
    structuredItems: map<string, Phase>,
    toolItems: map<string, Phase>)

  const FRESH := State(None, map[], map[], map[], map[], map[])

  datatype Reason =
    | RunIsTerminal | RunAlreadyStarted | RunNotStarted
    | ResponseIdMissing | ResponseExists | ResponseNotStarted
    | ItemIdMissing | ItemExists | ItemIsTerminal | ToolNotRequested | EmptyDelta

  datatype Verdict = Accepted | Rejected(reason: Reason)

  predicate RunTerminal(k: Kind) { k.RunCompleted? || k.RunFailed? || k.RunCancelled? }
  predicate ResponseTerminal(k: Kind) { k.ResponseCompleted? || k.ResponseFailed? || k.ResponseCancelled? }
  predicate ToolTerminal(k: Kind) { k.ToolCompleted? || k.ToolFailed? || k.ToolCancelled? }
  predicate Delta(k: Kind) { k.TextDelta? || k.ReasoningDelta? }
  predicate Output(k: Kind) { Delta(k) || k.TextCompleted? || k.ReasoningCompleted? || k.StructuredCompleted? }
  predicate ToolKind(k: Kind) { k.ToolRequested? || k.ToolUpdated? || ToolTerminal(k) }
  predicate ResponseKind(k: Kind) { k.ResponseStarted? || ResponseTerminal(k) || Output(k) }

  /** A null and an empty id both count as missing. */
  predicate Present(id: Option<string>) { id.Some? && id.value != "" }

  function Find(m: map<string, Phase>, id: Option<string>): Option<Phase>
  {
    if id.Some? && id.value in m then Some(m[id.value]) else None
  }

  /** The shared part of the five output checks: a started response and an item id. */
  function OutputVerdict(state: State, e: Event, items: map<string, Phase>): Verdict
  {
    if !Present(e.responseId) || Find(state.responses, e.responseId) != Some(Open) then Rejected(ResponseNotStarted)
    else if !Present(e.itemId) then Rejected(ItemIdMissing)
    else if Find(items, e.itemId) == Some(Completed) then Rejected(ItemIsTerminal)
    else if Delta(e.kind) && e.text == "" then Rejected(EmptyDelta)
    else Accepted
  }

  /** `validateNormalizedResponseTransition`. */
  function Validate(state: State, e: Event): Verdict
  {
    if state.run.Some? && state.run.value != Open then Rejected(RunIsTerminal)
    else
      match e.kind
      case RunStarted => if state.run.Some? then Rejected(RunAlreadyStarted) else Accepted
      case ResponseStarted =>
        if !Present(e.responseId) then Rejected(ResponseIdMissing)
        else if e.responseId.value in state.responses then Rejected(ResponseExists)
        else Accepted
      case TextDelta => OutputVerdict(state, e, state.textItems)
      case TextCompleted => OutputVerdict(state, e, state.textItems)
      case ReasoningDelta => OutputVerdict(state, e, state.reasoningItems)
      case ReasoningCompleted => OutputVerdict(state, e, state.reasoningItems)
      case StructuredCompleted =>
        var v := OutputVerdict(state, e, map[]);
        if v.Accepted? && e.itemId.value in state.structuredItems then Rejected(ItemExists) else v
      case ToolRequested =>
        if !Present(e.itemId) then Rejected(ItemIdMissing)
        else if e.itemId.value in state.toolItems then Rejected(ItemExists)
        else Accepted
      case SessionUpdated => Accepted
      case UsageReported => Accepted
      case MetadataAttached => Accepted
      case _ =>
        if ToolKind(e.kind) then
          if !Present(e.itemId) || Find(state.toolItems, e.itemId) != Some(Open) then Rejected(ToolNotRequested) else Accepted
        else if ResponseTerminal(e.kind) then
          if !Present(e.responseId) || Find(state.responses, e.responseId) != Some(Open)
          then Rejected(ResponseNotStarted) else Accepted
        else if state.run == Some(Open) then Accepted else Rejected(RunNotStarted)
  }

  /** The phase an event leaves behind in whatever entry it writes. */
  function PhaseAfter(k: Kind): Phase
  {
    match k
    case RunCompleted => Completed
    case ResponseCompleted => Completed
    case TextCompleted => Completed
    case ReasoningCompleted => Completed
    case StructuredCompleted => Completed
    case ToolCompleted => Completed
    case RunFailed => Failed
    case ResponseFailed => Failed
    case ToolFailed => Failed
    case RunCancelled => Cancelled
    case ResponseCancelled => Cancelled
    case ToolCancelled => Cancelled
    case _ => Open
  }

  function Put(m: map<string, Phase>, id: Option<string>, phase: Phase): map<string, Phase>
  {
    if id.Some? then m[id.value := phase] else m
  }

  /** `applyNormalizedResponseTransition`. */
  function Apply(state: State, e: Event): State
  {
    var phase := PhaseAfter(e.kind);
    if e.kind.RunStarted? || RunTerminal(e.kind) then state.(run := Some(phase))
    else if e.kind.ResponseStarted? || ResponseTerminal(e.kind) then
      state.(responses := Put(state.responses, e.responseId, phase))
    else if e.kind.TextDelta? || e.kind.TextCompleted? then state.(textItems := Put(state.textItems, e.itemId, phase))
    else if e.kind.ReasoningDelta? || e.kind.ReasoningCompleted? then
      state.(reasoningItems := Put(state.reasoningItems, e.itemId, phase))
    else if e.kind.StructuredCompleted? then
      state.(structuredItems := Put(state.structuredItems, e.itemId, phase))
    else if ToolKind(e.kind) then state.(toolItems := Put(state.toolItems, e.itemId, phase))
    else state
  }

  function After(trace: seq<Event>): State
  {
    if trace == [] then FRESH else Apply(After(trace[..|trace| - 1]), trace[|trace| - 1])
  }

  /** Every event is valid in the state its predecessors lead to. */
  ghost predicate AcceptedTrace(trace: seq<Event>)
  {
    forall i :: 0 <= i < |trace| ==> Validate(After(trace[..i]), trace[i]).Accepted?
  }

  // ---------------------------------------------------------------- keys

  /** The six sub-machines, one instance per id. */
  datatype Key =
    | RunKey
    | ResponseKey(id: string)
    | TextKey(id: string)
    | ReasoningKey(id: string)
    | StructuredKey(id: string)
    | ToolKey(id: string)

  function Get(state: State, k: Key): Option<Phase>
  {
    match k
    case RunKey => state.run
    case ResponseKey(id) => Find(state.responses, Some(id))
    case TextKey(id) => Find(state.textItems, Some(id))
    case ReasoningKey(id) => Find(state.reasoningItems, Some(id))
    case StructuredKey(id) => Find(state.structuredItems, Some(id))
    case ToolKey(id) => Find(state.toolItems, Some(id))
  }

  lemma MapsEqual(a: map<string, Phase>, b: map<string, Phase>)
    requires forall id :: Find(a, Some(id)) == Find(b, Some(id))
    ensures a == b
  {
    forall id ensures id in a <==> id in b
      ensures id in a && id in b ==> a[id] == b[id]
    {
      assert Find(a, Some(id)) == Find(b, Some(id));
    }
  }

  lemma StatesEqual(a: State, b: State)
    requires forall k :: Get(a, k) == Get(b, k)
    ensures a == b
  {
    assert Get(a, RunKey) == Get(b, RunKey);
    forall id
      ensures Find(a.responses, Some(id)) == Find(b.responses, Some(id))
      ensures Find(a.textItems, Some(id)) == Find(b.textItems, Some(id))
      ensures Find(a.reasoningItems, Some(id)) == Find(b.reasoningItems, Some(id))
      ensures Find(a.structuredItems, Some(id)) == Find(b.structuredItems, Some(id))
      ensures Find(a.toolItems, Some(id)) == Find(b.toolItems, Some(id))
    {
      assert Get(a, ResponseKey(id)) == Get(b, ResponseKey(id));
      assert Get(a, TextKey(id)) == Get(b, TextKey(id));
      assert Get(a, ReasoningKey(id)) == Get(b, ReasoningKey(id));
      assert Get(a, StructuredKey(id)) == Get(b, StructuredKey(id));
      assert Get(a, ToolKey(id)) == Get(b, ToolKey(id));
    }
    MapsEqual(a.responses, b.responses);
    MapsEqual(a.textItems, b.textItems);
    MapsEqual(a.reasoningItems, b.reasoningItems);
    MapsEqual(a.structuredItems, b.structuredItems);
    MapsEqual(a.toolItems, b.toolItems);
  }

  /** The item an event is about. */
  function ItemKey(e: Event): Option<Key>
  {
    if !Present(e.itemId) then None
    else
      match e.kind
      case TextDelta => Some(TextKey(e.itemId.value))
      case TextCompleted => Some(TextKey(e.itemId.value))
      case ReasoningDelta => Some(ReasoningKey(e.itemId.value))
      case ReasoningCompleted => Some(ReasoningKey(e.itemId.value))
      case StructuredCompleted => Some(StructuredKey(e.itemId.value))
      case _ => if ToolKind(e.kind) then Some(ToolKey(e.itemId.value)) else None
  }

  /** The one entry an event writes, if any. */
  function Written(e: Event): Option<Key>
  {
    if e.kind.RunStarted? || RunTerminal(e.kind) then Some(RunKey)
    else if e.kind.ResponseStarted? || ResponseTerminal(e.kind) then
      if e.responseId.Some? then Some(ResponseKey(e.responseId.value)) else None
    else ItemKey(e)
  }

  /** The state with one entry written. */
  function Set(state: State, k: Key, phase: Phase): State
  {
    match k
    case RunKey => state.(run := Some(phase))
    case ResponseKey(id) => state.(responses := state.responses[id := phase])
    case TextKey(id) => state.(textItems := state.textItems[id := phase])
    case ReasoningKey(id) => state.(reasoningItems := state.reasoningItems[id := phase])
    case StructuredKey(id) => state.(structuredItems := state.structuredItems[id := phase])
    case ToolKey(id) => state.(toolItems := state.toolItems[id := phase])
  }

  lemma GetSet(state: State, k: Key, phase: Phase, l: Key)
    ensures Get(Set(state, k, phase), l) == if l == k then Some(phase) else Get(state, l)
  {
  }

  lemma ItemApplyIsSet(state: State, e: Event)
    requires WellFormed(e) && (Output(e.kind) || ToolKind(e.kind))
    ensures Written(e).Some? && Apply(state, e) == Set(state, Written(e).value, PhaseAfter(e.kind))
  {
  }

  lemma OtherApplyIsSet(state: State, e: Event)
    requires WellFormed(e) && !Output(e.kind) && !ToolKind(e.kind)
    ensures Apply(state, e) == if Written(e).Some? then Set(state, Written(e).value, PhaseAfter(e.kind)) else state
  {
  }

  lemma ApplyIsSet(state: State, e: Event)
    requires WellFormed(e)
    ensures Apply(state, e) == if Written(e).Some? then Set(state, Written(e).value, PhaseAfter(e.kind)) else state
  {
    if Output(e.kind) || ToolKind(e.kind) {
      ItemApplyIsSet(state, e);
    } else {
      OtherApplyIsSet(state, e);
    }
  }

  lemma ApplyWrites(state: State, e: Event, k: Key)
    requires WellFormed(e)
    ensures Get(Apply(state, e), k) == if Written(e) == Some(k) then Some(PhaseAfter(e.kind)) else Get(state, k)
  {
    ApplyIsSet(state, e);
    if Written(e).Some? {
      GetSet(state, Written(e).value, PhaseAfter(e.kind), k);
    }
  }

  // ---------------------------------------------------------------- the trace language

  datatype Role = Begin | Continue | End

  /** The part an event plays in the life of a run, response or item. */
  function RoleOf(e: Event, k: Key): Option<Role>
  {
    match k
    case RunKey => if e.kind.RunStarted? then Some(Begin) else if RunTerminal(e.kind) then Some(End) else None
    case ResponseKey(id) =>
      if !ResponseKind(e.kind) || e.responseId != Some(id) then None
      else if e.kind.ResponseStarted? then Some(Begin)
      else if ResponseTerminal(e.kind) then Some(End)
      else Some(Continue)
    case _ =>
      if ItemKey(e) != Some(k) then None
      else if e.kind.ToolRequested? then Some(Begin)
      else if Delta(e.kind) || e.kind.ToolUpdated? then Some(Continue)
      else Some(End)
  }

  /** Runs, responses and tool items have to be begun; text, reasoning and structured items do not. */
  predicate NeedsBegin(k: Key) { k.RunKey? || k.ResponseKey? || k.ToolKey? }

  /** The ids an event of its kind carries are present and a delta is not empty. */
  predicate WellFormed(e: Event)
  {
    (ResponseKind(e.kind) ==> Present(e.responseId)) &&
    (Output(e.kind) || ToolKind(e.kind) ==> Present(e.itemId)) &&
    (Delta(e.kind) ==> e.text != "")
  }

  /**
   * The declarative language: each life begins at most once, goes on only after it began, and is silent after
   * its one end; the end of the run is the last event of all.
   */
  ghost predicate InLanguage(t: seq<Event>)
  {
    (forall i :: 0 <= i < |t| ==> WellFormed(t[i])) &&
    (forall i, j, k :: 0 <= i < j < |t| && RoleOf(t[i], k) == Some(Begin) ==> RoleOf(t[j], k) != Some(Begin)) &&
    (forall j, k :: 0 <= j < |t| && NeedsBegin(k) && RoleOf(t[j], k).Some? && RoleOf(t[j], k) != Some(Begin)
      ==> exists i :: 0 <= i < j && RoleOf(t[i], k) == Some(Begin)) &&
    (forall i, j, k :: 0 <= i < j < |t| && RoleOf(t[i], k) == Some(End) ==> RoleOf(t[j], k).None?) &&
    (forall i :: 0 <= i < |t| && RunTerminal(t[i].kind) ==> i == |t| - 1)
  }

  ghost predicate Happened(t: seq<Event>, k: Key, role: Role)
  {
    exists i :: 0 <= i < |t| && RoleOf(t[i], k) == Some(role)
  }

  /** What the language asks of one more event, key by key. */
  ghost predicate FitsKey(t: seq<Event>, e: Event, k: Key)
  {
    RoleOf(e, k).Some? ==>
      !Happened(t, k, End) &&
      if RoleOf(e, k) == Some(Begin) then !Happened(t, k, Begin) else NeedsBegin(k) ==> Happened(t, k, Begin)
  }

  ghost predicate Fits(t: seq<Event>, e: Event)
  {
    WellFormed(e) && !Happened(t, RunKey, End) && forall k :: FitsKey(t, e, k)
  }

  lemma LanguageShrinks(t: seq<Event>, e: Event)
    requires InLanguage(t + [e])
    ensures InLanguage(t) && Fits(t, e)
  {
    var u := t + [e];
    assert u[|t|] == e;
    assert forall i :: 0 <= i < |t| ==> u[i] == t[i];
    forall j, k | 0 <= j < |u| && NeedsBegin(k) && RoleOf(u[j], k).Some? && RoleOf(u[j], k) != Some(Begin)
      ensures exists i :: 0 <= i < j && RoleOf(t[i], k) == Some(Begin)
    {
      var i :| 0 <= i < j && RoleOf(u[i], k) == Some(Begin);
      assert RoleOf(t[i], k) == Some(Begin);
    }
    forall i | 0 <= i < |t| ensures !RunTerminal(t[i].kind) {
      assert !RunTerminal(u[i].kind);
    }
    forall k ensures FitsKey(t, e, k) {
      if RoleOf(e, k).Some? && RoleOf(e, k) != Some(Begin) && NeedsBegin(k) {
        assert exists i :: 0 <= i < |t| && RoleOf(t[i], k) == Some(Begin);
      }
    }
  }

  lemma LanguageExtends(t: seq<Event>, e: Event)
    requires InLanguage(t) && Fits(t, e)
    ensures InLanguage(t + [e])
  {
    var u := t + [e];
    forall i | 0 <= i < |u| && RunTerminal(u[i].kind) ensures i == |u| - 1 {
      assert i < |t| ==> RoleOf(t[i], RunKey) == Some(End);
    }
    forall j, k | 0 <= j < |u| && NeedsBegin(k) && RoleOf(u[j], k).Some? && RoleOf(u[j], k) != Some(Begin)
      ensures exists i :: 0 <= i < j && RoleOf(u[i], k) == Some(Begin)
    {
      assert FitsKey(t, e, k);
      var i :| 0 <= i < |t| && i < j && RoleOf(t[i], k) == Some(Begin);
      assert u[i] == t[i];
    }
    forall i, k | 0 <= i < |t| && RoleOf(t[i], k).Some? && RoleOf(t[i], k) != Some(Continue)
      ensures RoleOf(e, k) != RoleOf(t[i], k)
      ensures RoleOf(t[i], k) == Some(End) ==> RoleOf(e, k).None?
    {
      assert FitsKey(t, e, k);
    }
  }

  /** The state is a summary of the trace: an entry is closed iff its life ended, present iff it was begun. */
  ghost predicate Mirrors(state: State, t: seq<Event>)
  {
    forall k :: MirrorsAt(state, t, k)
  }

  ghost predicate MirrorsAt(state: State, t: seq<Event>, k: Key)
  {
    (Closed(Get(state, k)) <==> Happened(t, k, End)) &&
    (NeedsBegin(k) ==> (Get(state, k).Some? <==> Happened(t, k, Begin)))
  }

  predicate Closed(phase: Option<Phase>) { phase.Some? && phase.value != Open }

  /** The values the item maps can hold. */
  ghost predicate Typed(state: State)
  {
    (forall id :: id in state.textItems ==> state.textItems[id] in {Open, Completed}) &&
    (forall id :: id in state.reasoningItems ==> state.reasoningItems[id] in {Open, Completed}) &&
    (forall id :: id in state.structuredItems ==> state.structuredItems[id] == Completed)
  }

  /** The same demand as `FitsKey`, asked of the state. */
  predicate Allows(state: State, e: Event, k: Key)
  {
    RoleOf(e, k).Some? ==>
      !Closed(Get(state, k)) && (NeedsBegin(k) ==> (RoleOf(e, k) == Some(Begin) <==> Get(state, k).None?))
  }

  /** What `ValidateByKeys` claims of one event. */
  predicate JudgedByKeys(state: State, e: Event)
  {
    Validate(state, e).Accepted? <==>
      WellFormed(e) && !Closed(state.run) && Allows(state, e, RunKey) &&
      (ResponseKind(e.kind) ==> Allows(state, e, ResponseKey(e.responseId.value))) &&
      (ItemKey(e).Some? ==> Allows(state, e, ItemKey(e).value))
  }

  lemma ValidateOutput(state: State, e: Event)
    requires Typed(state) && Output(e.kind)
    ensures JudgedByKeys(state, e)
  {
  }

  lemma ValidateTool(state: State, e: Event)
    requires Typed(state) && ToolKind(e.kind)
    ensures JudgedByKeys(state, e)
  {
  }

  lemma ValidateOther(state: State, e: Event)
    requires Typed(state) && !Output(e.kind) && !ToolKind(e.kind)
    ensures JudgedByKeys(state, e)
  {
  }

  /** The validator asks its question of exactly the entries the event plays a role in. */
  lemma ValidateByKeys(state: State, e: Event)
    requires Typed(state)
    ensures Validate(state, e).Accepted? <==>
      WellFormed(e) && !Closed(state.run) && Allows(state, e, RunKey) &&
      (ResponseKind(e.kind) ==> Allows(state, e, ResponseKey(e.responseId.value))) &&
      (ItemKey(e).Some? ==> Allows(state, e, ItemKey(e).value))
  {
    if Output(e.kind) {
      ValidateOutput(state, e);
    } else if ToolKind(e.kind) {
      ValidateTool(state, e);
    } else {
      ValidateOther(state, e);
    }
    assert JudgedByKeys(state, e);
  }

  lemma FitsIsAllows(state: State, t: seq<Event>, e: Event, k: Key)
    requires MirrorsAt(state, t, k)
    ensures FitsKey(t, e, k) <==> Allows(state, e, k)
  {
    if !NeedsBegin(k) {
      assert RoleOf(e, k) != Some(Begin);
    }
  }

  lemma VerdictIsFit(state: State, t: seq<Event>, e: Event)
    requires Mirrors(state, t) && Typed(state)
    ensures Validate(state, e).Accepted? <==> Fits(t, e)
  {
    ValidateByKeys(state, e);
    assert MirrorsAt(state, t, RunKey);
    forall k ensures FitsKey(t, e, k) <==> Allows(state, e, k) {
      FitsIsAllows(state, t, e, k);
    }
    if Validate(state, e).Accepted? {
      forall k ensures Allows(state, e, k) {
        assert RoleOf(e, k).Some? ==> k == RunKey || ItemKey(e) == Some(k) ||
                                       (ResponseKind(e.kind) && k == ResponseKey(e.responseId.value));
      }
    }
  }

  predicate DeltaOrDone(k: Kind)
  {
    k.TextDelta? || k.TextCompleted? || k.ReasoningDelta? || k.ReasoningCompleted? || k.StructuredCompleted?
  }

  lemma ApplyTyped(state: State, e: Event)
    requires Typed(state)
    ensures Typed(Apply(state, e))
  {
    if DeltaOrDone(e.kind) {
      DeltaApplies(state, e);
    } else {
      OthersLeaveItems(state, e);
    }
  }

  lemma DeltaApplies(state: State, e: Event)
    requires DeltaOrDone(e.kind)
    ensures Apply(state, e) ==
      if e.kind.TextDelta? then state.(textItems := Put(state.textItems, e.itemId, Open))
      else if e.kind.TextCompleted? then state.(textItems := Put(state.textItems, e.itemId, Completed))
      else if e.kind.ReasoningDelta? then state.(reasoningItems := Put(state.reasoningItems, e.itemId, Open))
      else if e.kind.ReasoningCompleted? then state.(reasoningItems := Put(state.reasoningItems, e.itemId, Completed))
      else state.(structuredItems := Put(state.structuredItems, e.itemId, Completed))
  {
  }

  lemma OthersLeaveItems(state: State, e: Event)
    requires !DeltaOrDone(e.kind)
    ensures var next := Apply(state, e);
      next.textItems == state.textItems && next.reasoningItems == state.reasoningItems && next.structuredItems == state.structuredItems
  {
  }

  lemma {:induction false} AfterTyped(t: seq<Event>)
    ensures Typed(After(t))
  {
    if t != [] {
      AfterTyped(t[..|t| - 1]);
      ApplyTyped(After(t[..|t| - 1]), t[|t| - 1]);
    }
  }

  /** A written entry gets the phase of the role played; an unwritten one is at most continued. */
  lemma WrittenRole(e: Event, k: Key)
    requires WellFormed(e)
    ensures Written(e) == Some(k) ==> RoleOf(e, k).Some? && (PhaseAfter(e.kind) != Open <==> RoleOf(e, k) == Some(End))
    ensures Written(e) != Some(k) ==> RoleOf(e, k) in {None, Some(Continue)}
  {
  }

  lemma MirrorStep(state: State, t: seq<Event>, e: Event, k: Key)
    requires MirrorsAt(state, t, k) && WellFormed(e) && FitsKey(t, e, k)
    ensures MirrorsAt(Apply(state, e), t + [e], k)
  {
    ApplyWrites(state, e, k);
    WrittenRole(e, k);
    HappenedGrows(t, e, k, Begin);
    HappenedGrows(t, e, k, End);
  }

  lemma HappenedGrows(t: seq<Event>, e: Event, k: Key, role: Role)
    ensures Happened(t + [e], k, role) <==> Happened(t, k, role) || RoleOf(e, k) == Some(role)
  {
    var u := t + [e];
    assert u[|t|] == e;
    if Happened(t, k, role) {
      var i :| 0 <= i < |t| && RoleOf(t[i], k) == Some(role);
      assert u[i] == t[i];
    }
  }

  lemma {:induction false} StateMirrorsTrace(t: seq<Event>)
    requires InLanguage(t)
    ensures Mirrors(After(t), t)
  {
    if t != [] {
      var init, e := t[..|t| - 1], t[|t| - 1];
      assert t == init + [e];
      LanguageShrinks(init, e);
      StateMirrorsTrace(init);
      forall k ensures MirrorsAt(After(t), t, k) {
        assert FitsKey(init, e, k) && MirrorsAt(After(init), init, k);
        MirrorStep(After(init), init, e, k);
      }
    }
  }

  /** Which phase an event's name announces for the entry it writes. */
  predicate Announces(k: Kind, phase: Phase)
  {
    match phase
    case Completed =>
      k in {RunCompleted, ResponseCompleted, TextCompleted, ReasoningCompleted, StructuredCompleted, ToolCompleted}
    case Failed => k in {RunFailed, ResponseFailed, ToolFailed}
    case Cancelled => k in {RunCancelled, ResponseCancelled, ToolCancelled}
    case Open => k in {RunStarted, ResponseStarted, TextDelta, ReasoningDelta, ToolRequested, ToolUpdated}
  }

  /** The last event of the trace that writes an entry. */
  ghost predicate LastWrite(t: seq<Event>, k: Key, i: nat)
  {
    i < |t| && Written(t[i]) == Some(k) && forall j :: i < j < |t| ==> Written(t[j]) != Some(k)
  }

  lemma WrittenAnnounces(e: Event)
    requires WellFormed(e) && Written(e).Some?
    ensures Announces(e.kind, PhaseAfter(e.kind))
  {
  }

  lemma LastWriteGrows(t: seq<Event>, e: Event, k: Key, i: nat)
    ensures Written(e) == Some(k) ==> LastWrite(t + [e], k, |t|)
    ensures Written(e) != Some(k) && LastWrite(t, k, i) ==> LastWrite(t + [e], k, i) && (t + [e])[i] == t[i]
  {
  }

  /**
   * After well-formed events an entry is absent exactly when no event wrote it, and otherwise holds the phase that the
   * last event to write it announces.
   */
  lemma {:induction false} StateRecordsLastWrite(t: seq<Event>, k: Key)
    requires forall i :: 0 <= i < |t| ==> WellFormed(t[i])
    ensures match Get(After(t), k)
      case None => forall i :: 0 <= i < |t| ==> Written(t[i]) != Some(k)
      case Some(phase) => exists i: nat :: LastWrite(t, k, i) && Announces(t[i].kind, phase)
  {
    if t != [] {
      var init, e := t[..|t| - 1], t[|t| - 1];
      assert t == init + [e];
      StateRecordsLastWrite(init, k);
      ApplyWrites(After(init), e, k);
      LastWriteGrows(init, e, k, 0);
      if Written(e) == Some(k) {
        WrittenAnnounces(e);
        assert t[|init|] == e;
      } else if Get(After(init), k).Some? {
        var i: nat :| LastWrite(init, k, i) && Announces(init[i].kind, Get(After(init), k).value);
        LastWriteGrows(init, e, k, i);
        assert t[i] == init[i];
      }
    }
  }

  lemma AcceptedGrows(t: seq<Event>, e: Event)
    ensures AcceptedTrace(t + [e]) <==> AcceptedTrace(t) && Validate(After(t), e).Accepted?
  {
    var u := t + [e];
    assert u[..|t|] == t;
    assert forall i :: 0 <= i < |t| ==> u[..i] == t[..i];
    if AcceptedTrace(u) {
      assert Validate(After(u[..|t|]), u[|t|]).Accepted?;
      forall i | 0 <= i < |t| ensures Validate(After(t[..i]), t[i]).Accepted? {
        assert Validate(After(u[..i]), u[i]).Accepted?;
      }
    }
  }

  /** Step-by-step validation accepts exactly the traces of the language. */
  lemma {:induction false} AcceptedIffInLanguage(t: seq<Event>)
    ensures AcceptedTrace(t) <==> InLanguage(t)
  {
    if t != [] {
      var init, e := t[..|t| - 1], t[|t| - 1];
      assert t == init + [e];
      AcceptedIffInLanguage(init);
      AfterTyped(init);
      if InLanguage(init) {
        StateMirrorsTrace(init);
      }
      AcceptedGrows(init, e);
      if InLanguage(t) {
        LanguageShrinks(init, e);
        VerdictIsFit(After(init), init, e);
      } else if InLanguage(init) {
        VerdictIsFit(After(init), init, e);
        if Fits(init, e) {
          LanguageExtends(init, e);
        }
      }
    }
  }

  // ---------------------------------------------------------------- commutation

  /** The entries a verdict depends on. */
  function Reads(e: Event): set<Key>
  {
    {RunKey} +
    (if ResponseKind(e.kind) && e.responseId.Some? then {ResponseKey(e.responseId.value)} else {}) +
    (if ItemKey(e).Some? then {ItemKey(e).value} else {})
  }

  function Writes(e: Event): set<Key>
  {
    if Written(e).Some? then {Written(e).value} else {}
  }

  predicate Independent(e: Event, f: Event)
  {
    Writes(e) !! Reads(f) + Writes(f) && Writes(f) !! Reads(e) + Writes(e)
  }

  lemma VerdictDependsOnReads(a: State, b: State, e: Event)
    requires Typed(a) && Typed(b)
    requires forall k :: k in Reads(e) ==> Get(a, k) == Get(b, k)
    ensures Validate(a, e).Accepted? <==> Validate(b, e).Accepted?
  {
    ValidateByKeys(a, e);
    ValidateByKeys(b, e);
    assert RunKey in Reads(e);
  }

  lemma AcceptedIsWellFormed(state: State, e: Event)
    requires Validate(state, e).Accepted?
    ensures WellFormed(e)
  {
  }

  lemma VerdictUnmoved(state: State, e: Event, f: Event)
    requires Typed(state) && WellFormed(e) && Writes(e) !! Reads(f)
    ensures Validate(Apply(state, e), f).Accepted? <==> Validate(state, f).Accepted?
  {
    ApplyTyped(state, e);
    forall k | k in Reads(f) ensures Get(Apply(state, e), k) == Get(state, k) {
      ApplyWrites(state, e, k);
    }
    VerdictDependsOnReads(state, Apply(state, e), f);
  }

  lemma WritesCommute(state: State, e: Event, f: Event)
    requires WellFormed(e) && WellFormed(f) && Writes(e) !! Writes(f)
    ensures Apply(Apply(state, e), f) == Apply(Apply(state, f), e)
  {
    forall k ensures Get(Apply(Apply(state, e), f), k) == Get(Apply(Apply(state, f), e), k) {
      ApplyWrites(state, e, k);
      ApplyWrites(state, f, k);
      ApplyWrites(Apply(state, e), f, k);
      ApplyWrites(Apply(state, f), e, k);
    }
    StatesEqual(Apply(Apply(state, e), f), Apply(Apply(state, f), e));
  }

  /** Two independent events may be swapped: both stay acceptable and the resulting state is the same. */
  lemma IndependentEventsCommute(state: State, e: Event, f: Event)
    requires Typed(state) && Independent(e, f)
    requires Validate(state, e).Accepted? && Validate(Apply(state, e), f).Accepted?
    ensures Validate(state, f).Accepted? && Validate(Apply(state, f), e).Accepted?
    ensures Apply(Apply(state, e), f) == Apply(Apply(state, f), e)
  {
    AcceptedIsWellFormed(state, e);
    AcceptedIsWellFormed(Apply(state, e), f);
    VerdictUnmoved(state, e, f);
    VerdictUnmoved(state, f, e);
    WritesCommute(state, e, f);
  }

  /** Swapping adjacent independent events anywhere in an accepted trace keeps it accepted, with the same end state. */
  lemma {:induction false} SwapKeepsAcceptance(past: seq<Event>, e: Event, f: Event, rest: seq<Event>)
    requires Independent(e, f)
    requires AcceptedTrace(past + [e, f] + rest)
    ensures AcceptedTrace(past + [f, e] + rest)
    ensures After(past + [f, e] + rest) == After(past + [e, f] + rest)
  {
    var t, u := past + [e, f] + rest, past + [f, e] + rest;
    if rest == [] {
      assert t == past + [e] + [f] && u == past + [f] + [e];
      AcceptedGrows(past + [e], f);
      AcceptedGrows(past, e);
      AcceptedGrows(past, f);
      AcceptedGrows(past + [f], e);
      AfterGrows(past, e);
      AfterGrows(past, f);
      AfterGrows(past + [e], f);
      AfterGrows(past + [f], e);
      AfterTyped(past);
      IndependentEventsCommute(After(past), e, f);
    } else {
      var init, g := rest[..|rest| - 1], rest[|rest| - 1];
      assert t == (past + [e, f] + init) + [g];
      assert u == (past + [f, e] + init) + [g];
      AcceptedGrows(past + [e, f] + init, g);
      SwapKeepsAcceptance(past, e, f, init);
      AcceptedGrows(past + [f, e] + init, g);
      AfterGrows(past + [e, f] + init, g);
      AfterGrows(past + [f, e] + init, g);
    }
  }

  lemma AfterGrows(t: seq<Event>, e: Event)
    ensures After(t + [e]) == Apply(After(t), e)
  {
    assert (t + [e])[..|t|] == t;
  }

  // ---------------------------------------------------------------- open responses

  function OpenResponses(state: State): set<string>
  {
    OpenIn(state.responses)
  }

  function OpenIn(m: map<string, Phase>): set<string>
  {
    set id | id in m && m[id] == Open
  }

  /** Opening a new entry adds one, closing an open one takes one away. */
  lemma OpenInChanges(m: map<string, Phase>, id: string, phase: Phase)
    ensures phase == Open && id !in m ==> |OpenIn(m[id := phase])| == |OpenIn(m)| + 1
    ensures phase != Open && Find(m, Some(id)) == Some(Open) ==> |OpenIn(m[id := phase])| == |OpenIn(m)| - 1
  {
    if phase == Open && id !in m {
      assert OpenIn(m[id := phase]) == OpenIn(m) + {id};
    }
    if phase != Open && Find(m, Some(id)) == Some(Open) {
      assert OpenIn(m[id := phase]) == OpenIn(m) - {id} && id in OpenIn(m);
    }
  }

  function Starts(t: seq<Event>): int
  {
    if t == [] then 0 else Starts(t[..|t| - 1]) + if t[|t| - 1].kind.ResponseStarted? then 1 else 0
  }

  function Terminals(t: seq<Event>): int
  {
    if t == [] then 0 else Terminals(t[..|t| - 1]) + if ResponseTerminal(t[|t| - 1].kind) then 1 else 0
  }

  lemma ResponseFacts(state: State, e: Event)
    requires Validate(state, e).Accepted?
    ensures e.kind.ResponseStarted? ==> e.responseId.Some? && e.responseId.value !in state.responses
    ensures ResponseTerminal(e.kind) ==> Find(state.responses, e.responseId) == Some(Open)
    ensures Apply(state, e).responses ==
      if e.kind.ResponseStarted? || ResponseTerminal(e.kind)
      then state.responses[e.responseId.value := PhaseAfter(e.kind)] else state.responses
    ensures e.kind.ResponseStarted? || ResponseTerminal(e.kind) ==>
      (PhaseAfter(e.kind) == Open <==> e.kind.ResponseStarted?)
  {
  }

  lemma OpenResponsesStep(state: State, e: Event)
    requires Validate(state, e).Accepted?
    ensures |OpenResponses(Apply(state, e))| == |OpenResponses(state)| +
      (if e.kind.ResponseStarted? then 1 else 0) - (if ResponseTerminal(e.kind) then 1 else 0)
  {
    ResponseFacts(state, e);
    if e.kind.ResponseStarted? || ResponseTerminal(e.kind) {
      OpenInChanges(state.responses, e.responseId.value, PhaseAfter(e.kind));
    }
  }

  /** In every accepted trace the open responses number the starts minus the terminal events. */
  lemma {:induction false} OpenIsStartsMinusTerminals(t: seq<Event>)
    requires AcceptedTrace(t)
    ensures |OpenResponses(After(t))| == Starts(t) - Terminals(t)
  {
    if t == [] {
      assert OpenResponses(After(t)) == {};
    } else {
      var init, e := t[..|t| - 1], t[|t| - 1];
      assert t == init + [e];
      AcceptedGrows(init, e);
      OpenIsStartsMinusTerminals(init);
      OpenResponsesStep(After(init), e);
    }
  }

  // ---------------------------------------------------------------- reasons

  predicate Missing(id: Option<string>) { id == None || id == Some("") }

  /** Whether the reason given for a rejection is so. */
  ghost predicate IsSo(state: State, e: Event, reason: Reason)
  {
    match reason
    case RunIsTerminal => state.run.Some? && state.run.value in {Completed, Failed, Cancelled}
    case RunAlreadyStarted => e.kind.RunStarted? && state.run == Some(Open)
    case RunNotStarted => e.kind in {RunCompleted, RunFailed, RunCancelled} && state.run == None
    case ResponseIdMissing => e.kind.ResponseStarted? && Missing(e.responseId)
    case ResponseExists => e.kind.ResponseStarted? && e.responseId.Some? && e.responseId.value in state.responses
    case ResponseNotStarted =>
      ResponseKind(e.kind) && !e.kind.ResponseStarted? &&
      (Missing(e.responseId) || e.responseId.value !in state.responses || state.responses[e.responseId.value] != Open)
    case ItemIdMissing => Missing(e.itemId)
    case ItemExists =>
      e.itemId.Some? &&
      ((e.kind.ToolRequested? && e.itemId.value in state.toolItems) ||
       (e.kind.StructuredCompleted? && e.itemId.value in state.structuredItems))
    case ItemIsTerminal =>
      e.itemId.Some? &&
      ((e.kind in {TextDelta, TextCompleted} && e.itemId.value in state.textItems && state.textItems[e.itemId.value] == Completed) ||
       (e.kind in {ReasoningDelta, ReasoningCompleted} && e.itemId.value in state.reasoningItems &&
        state.reasoningItems[e.itemId.value] == Completed))
    case ToolNotRequested =>
      ToolKind(e.kind) && !e.kind.ToolRequested? &&
      (Missing(e.itemId) || e.itemId.value !in state.toolItems || state.toolItems[e.itemId.value] != Open)
    case EmptyDelta => e.kind in {TextDelta, ReasoningDelta} && e.text == ""
  }

  lemma OutputRejectionIsTrue(state: State, e: Event)
    requires Output(e.kind)
    ensures Validate(state, e).Rejected? ==> IsSo(state, e, Validate(state, e).reason)
  {
  }

  lemma ToolRejectionIsTrue(state: State, e: Event)
    requires ToolKind(e.kind)
    ensures Validate(state, e).Rejected? ==> IsSo(state, e, Validate(state, e).reason)
  {
  }

  lemma OtherRejectionIsTrue(state: State, e: Event)
    requires !Output(e.kind) && !ToolKind(e.kind)
    ensures Validate(state, e).Rejected? ==> IsSo(state, e, Validate(state, e).reason)
  {
  }

  /** A rejection always gives a reason that is so. */
  lemma RejectionsAreTrue(state: State, e: Event)
    ensures Validate(state, e).Rejected? ==> IsSo(state, e, Validate(state, e).reason)
  {
    if Output(e.kind) {
      OutputRejectionIsTrue(state, e);
    } else if ToolKind(e.kind) {
      ToolRejectionIsTrue(state, e);
    } else {
      OtherRejectionIsTrue(state, e);
    }
  }
}
