/** What the state store's calls do to the stored value: reads, single calls, and the composition of all updates. */
module StoreValues {
  import opened Text
  import opened StateStore
  import opened StoreCrashes
  import opened StoreUpdates

  // ---------------------------------------------------------------- reading

  predicate OnlyNuls(content: string) { forall i :: 0 <= i < |content| ==> content[i] == '\0' }

  /**
   * What reading makes of each kind of content, in each recovery mode. An update goes on with the value, a reader
   * resolves; unusable content is refused in fail-closed mode and moved aside otherwise.
   */
  lemma ReadingDoes<T(!new)>(def: Definition<T>, disk: Disk, job: Job<T>)
    ensures var work := Work(def, disk, job, ToRead, ReadFile);
      var withDefault := if job.Update? then ToRun(def.default) else Over(true);
      var refused := if job.Update? then ToRelease(false) else Over(false);
      work.disk == disk && !work.commits &&
      match disk.file
      case None => work.phase == withDefault
      case Some(content) =>
        if OnlyNuls(content) then
          work.phase == if def.failClosed && !def.interruptedWriteDefault then refused else withDefault
        else
          match def.parse(content)
          case Value(v) => work.phase == if job.Update? then ToRun(v) else Over(true)
          case _ => work.phase == if def.failClosed then refused else ToQuarantine
  {
    if disk.file.Some? {
      NulsAreNuls(disk.file.value);
    }
  }

  lemma NulsAreNuls(content: string)
    ensures OnlyNuls(content) <==> EmptyOrNulOnly(content)
  {
    if OnlyNuls(content) {
      forall c | c in content ensures c == '\0' {
        var i :| 0 <= i < |content| && content[i] == c;
      }
    } else {
      var i :| 0 <= i < |content| && content[i] != '\0';
      assert content[i] in content;
    }
  }

  /** A call rejects for these reasons and no other. */
  lemma RejectsIff<T(!new)>(def: Definition<T>, disk: Disk, job: Job<T>, phase: Phase<T>, deed: Deed)
    requires CanWork(def, disk, job, phase, deed) && PhaseFits(job, phase)
    ensures Work(def, disk, job, phase, deed).phase == (if job.Update? then ToRelease(false) else Over(false)) <==>
      deed.Fail? ||
      (deed.ReadFile? && def.failClosed && disk.file.Some? &&
       if OnlyNuls(disk.file.value) then !def.interruptedWriteDefault else !def.parse(disk.file.value).Value?) ||
      (deed.Quarantine? && disk.file.None?) ||
      (deed.RunUpdater? && job.update(phase.current).None?) ||
      (deed.StartWrite? && def.validate(phase.next).None?)
  {
    if disk.file.Some? {
      NulsAreNuls(disk.file.value);
    }
  }

  // ---------------------------------------------------------------- the composition of the updates

  /** What is written of a valid value can be read back, and does not look like an interrupted write. */
  ghost predicate PrintsBack<T(!new)>(def: Definition<T>)
  {
    forall v: T :: def.validate(v).Some? ==>
      var content := def.show(def.validate(v).value);
      def.parse(content) == Value(def.validate(v).value) && !OnlyNuls(content)
  }

  /** The file holds a value that can be read as it stands. */
  ghost predicate Holds<T(!new)>(def: Definition<T>, file: Option<string>, v: T)
  {
    match file
    case None => v == def.default
    case Some(content) => !OnlyNuls(content) && def.parse(content) == Value(v)
  }

  predicate Spoilt<T(!new)>(def: Definition<T>, content: string)
  {
    !OnlyNuls(content) && !def.parse(content).Value?
  }

  /** The value that the first update builds on, if the file lets it. */
  function StartValue<T(!new)>(def: Definition<T>, file: Option<string>): Option<T>
  {
    match file
    case None => Some(def.default)
    case Some(content) =>
      if OnlyNuls(content) then
        if def.failClosed && !def.interruptedWriteDefault then None else Some(def.default)
      else
        match def.parse(content)
        case Value(v) => Some(v)
        case _ => if def.failClosed then None else Some(def.default)
  }

  /** The updates applied one after the other, each to the validated result of the one before. */
  function Chain<T>(def: Definition<T>, v: Option<T>, committed: seq<Commitment<T>>): Option<T>
  {
    if committed == [] then v
    else
      var before := Chain(def, v, committed[..|committed| - 1]);
      var job := committed[|committed| - 1].job;
      if before.None? || !job.Update? then None
      else
        var next := job.update(before.value);
        if next.None? then None else def.validate(next.value)
  }

  lemma ChainGrows<T>(def: Definition<T>, v: Option<T>, committed: seq<Commitment<T>>, last: Commitment<T>)
    ensures Chain(def, v, committed + [last]) ==
      var before := Chain(def, v, committed);
      if before.None? || !last.job.Update? then None
      else
        var next := last.job.update(before.value);
        if next.None? then None else def.validate(next.value)
  {
    assert (committed + [last])[..|committed|] == committed;
  }

  /** Before the first commit the file is as it was, or was spoilt and moved aside; after it, the file is the composition. */
  ghost predicate FileIsChain<T(!new)>(def: Definition<T>, start: Disk, disk: Disk, committed: seq<Commitment<T>>)
  {
    if committed == [] then
      disk.file == start.file || (disk.file.None? && start.file.Some? && Spoilt(def, start.file.value) && !def.failClosed)
    else
      var value := Chain(def, StartValue(def, start.file), committed);
      value.Some? && disk.file == Some(def.show(value.value))
  }

  /** Whatever can be read is the composition so far. */
  lemma ReadsChain<T(!new)>(def: Definition<T>, start: Disk, disk: Disk, committed: seq<Commitment<T>>)
    requires PrintsBack(def) && FileIsChain(def, start, disk, committed)
    ensures Read(def, disk.file).Usable? ==>
      Chain(def, StartValue(def, start.file), committed) == Some(Read(def, disk.file).value)
    ensures Read(def, disk.file).Quarantined? ==> committed == [] && Spoilt(def, start.file.value) && !def.failClosed
  {
    if disk.file.Some? {
      NulsAreNuls(disk.file.value);
    }
    if committed != [] {
      ChainIsValid(def, StartValue(def, start.file), committed);
    }
  }

  lemma ChainIsValid<T(!new)>(def: Definition<T>, v: Option<T>, committed: seq<Commitment<T>>)
    requires committed != [] && Chain(def, v, committed).Some?
    ensures exists w :: def.validate(w) == Chain(def, v, committed)
  {
    var before := Chain(def, v, committed[..|committed| - 1]);
    assert def.validate(committed[|committed| - 1].job.update(before.value).value) == Chain(def, v, committed);
  }

  lemma RenameChains<T(!new)>(def: Definition<T>, start: Disk, s: System<T>, c: nat, deed: Deed)
    requires PrintsBack(def) && FileIsChain(def, start, s.disk, s.committed)
    requires Sound(def, start, s) && Running(s, c) && CanDo(def, s, c, deed) && deed.Rename?
    ensures var next := Done(def, s, c, deed);
      FileIsChain(def, start, next.disk, next.committed)
  {
    var call := s.calls[c];
    assert Critical(s, c);
    ReadsChain(def, start, s.disk, s.committed);
    RenamedBytes(def, s.disk, call.job, call.phase, deed);
    ChainGrows(def, StartValue(def, start.file), s.committed, Commitment(c, call.job));
  }

  lemma DeedChains<T(!new)>(def: Definition<T>, start: Disk, s: System<T>, c: nat, deed: Deed)
    requires PrintsBack(def) && FileIsChain(def, start, s.disk, s.committed)
    requires Sound(def, start, s) && Running(s, c) && CanDo(def, s, c, deed) && Polite(def, s, Do(c, deed))
    ensures var next := Done(def, s, c, deed);
      FileIsChain(def, start, next.disk, next.committed)
  {
    if deed.Rename? {
      RenameChains(def, start, s, c, deed);
    } else if deed.Quarantine? && s.disk.file.Some? {
      ReadsChain(def, start, s.disk, s.committed);
      assert s.calls[c].job.Reader? ==> ReaderMoves(s, Do(c, deed));
      assert s.calls[c].job.Update? ==> Critical(s, c);
      assert Unparsable(def, s.disk.file.value);
    }
  }

  lemma {:induction false} RunChains<T(!new)>(def: Definition<T>, start: Disk, s: System<T>, run: seq<Action<T>>)
    requires PrintsBack(def) && FileIsChain(def, start, s.disk, s.committed)
    requires Sound(def, start, s) && Possible(def, s, run) && Orderly(def, s, run)
    ensures FileIsChain(def, start, After(def, s, run).disk, After(def, s, run).committed)
    decreases |run|
  {
    if run != [] {
      StepSound(def, start, s, run[0]);
      if run[0].Do? {
        DeedChains(def, start, s, run[0].call, run[0].deed);
      }
      RunChains(def, start, Next(def, s, run[0]), run[1..]);
    }
  }

  /**
   * When values print and parse back, then after every orderly run from any file, the file holds the composition of all
   * committed updates, in commit order, applied to the value at the start; none has failed and none is lost. Where the
   * start refuses to be read, nothing is ever committed and the file stays.
   */
  lemma UpdatesCompose<T(!new)>(def: Definition<T>, disk: Disk, run: seq<Action<T>>)
    requires Initial(disk) && PrintsBack(def)
    requires Possible(def, Start(disk), run) && Orderly(def, Start(disk), run)
    ensures var s := After(def, Start(disk), run);
      var value := Chain(def, StartValue(def, disk.file), s.committed);
      (s.committed == [] ==>
        s.disk.file == disk.file || (s.disk.file.None? && disk.file.Some? && Spoilt(def, disk.file.value) && !def.failClosed)) &&
      (s.committed != [] ==> value.Some? && s.disk.file == Some(def.show(value.value))) &&
      (StartValue(def, disk.file).None? ==> s.committed == [] && s.disk.file == disk.file)
  {
    RunChains(def, disk, Start(disk), run);
    RefusedStart(def, After(def, Start(disk), run).committed);
  }

  lemma {:induction false} RefusedStart<T(!new)>(def: Definition<T>, committed: seq<Commitment<T>>)
    ensures Chain(def, None, committed).None?
  {
    if committed != [] {
      RefusedStart(def, committed[..|committed| - 1]);
    }
  }

  // ---------------------------------------------------------------- one update alone

  /** One process with one update. */
  ghost function Alone<T>(disk: Disk, job: Job<T>, phase: Phase<T>, lock: Option<nat>, committed: seq<Commitment<T>>): System<T>
  {
    System(disk, lock, {0}, {0}, map[0 := Call(0, job, phase)], map[0 := if phase.Over? then [] else [0]], committed)
  }

  lemma AloneIsQueued<T(!new)>(def: Definition<T>, disk: Disk, job: Job<T>)
    requires job.Update?
    ensures Reached(def, disk, Alone(disk, job, Queued, None, []))
  {
    StartIsReached(def, disk);
    var s0: System<T> := Start(disk);
    var s1 := s0.(alive := {0}, used := {0});
    Move(def, disk, s0, Launch(0), s1);
    EmptyAppend([0 as nat]);
    var s2 := Entered(s1, 0, 0, job);
    assert s2.queues == map[0 := [0]];
    Move(def, disk, s1, Enqueue(0, 0, job), s2);
    assert s2 == Alone(disk, job, Queued, None, []);
  }

  lemma AloneAtGate<T(!new)>(def: Definition<T>, disk: Disk, job: Job<T>, phase: Phase<T>, lock: Option<nat>, gate: GateMove)
    requires Reached(def, disk, Alone(disk, job, phase, lock, [])) && !phase.Over? && (gate.Begin? || gate.Acquire?)
    requires AtGate(Alone(disk, job, phase, lock, []), 0, gate)
    ensures Reached(def, disk, Alone(disk, job, GatePhase(def, phase, gate), GateLock(def, Alone(disk, job, phase, lock, []), 0, gate), []))
  {
    var s := Alone(disk, job, phase, lock, []);
    var next := Alone(disk, job, GatePhase(def, phase, gate), GateLock(def, s, 0, gate), []);
    assert next.calls == s.calls[0 := Call(0, job, GatePhase(def, phase, gate))];
    assert next == Gated(def, s, 0, gate);
    Move(def, disk, s, Gate(0, gate), next);
  }

  /** The update is about to read, with the lock if there is one. */
  lemma AloneReads<T(!new)>(def: Definition<T>, disk: Disk, job: Job<T>)
    requires job.Update?
    ensures Reached(def, disk, Alone(disk, job, ToRead, if def.advisoryLock then Some(0) else None, []))
  {
    AloneIsQueued(def, disk, job);
    AloneAtGate(def, disk, job, Queued, None, Begin);
    if def.advisoryLock {
      AloneAtGate(def, disk, job, Locking, None, Acquire);
    }
  }

  lemma AloneWorks<T(!new)>(
    def: Definition<T>, start: Disk, disk: Disk, job: Job<T>, phase: Phase<T>, lock: Option<nat>, deed: Deed, next: Disk, then_: Phase<T>)
    requires Reached(def, start, Alone(disk, job, phase, lock, [])) && CanWork(def, disk, job, phase, deed)
    requires Work(def, disk, job, phase, deed) == Progress(next, then_, deed.Rename?) && !phase.Over? && !then_.Over?
    ensures Reached(def, start, Alone(next, job, then_, lock, if deed.Rename? then [Commitment(0, job)] else []))
  {
    var s := Alone(disk, job, phase, lock, []);
    var t := Alone(next, job, then_, lock, if deed.Rename? then [Commitment(0, job)] else []);
    EmptyAppend([Commitment(0, job)]);
    assert t.calls == s.calls[0 := Call(0, job, then_)];
    assert Done(def, s, 0, deed) == t;
    Move(def, start, s, Do(0, deed), t);
  }

  /** The update has a result to write. */
  lemma AloneRuns<T(!new)>(def: Definition<T>, disk: Disk, v: T, job: Job<T>)
    requires Holds(def, disk.file, v) && job.Update? && job.update(v).Some?
    ensures Reached(def, disk, Alone(disk, job, ToWrite(job.update(v).value), if def.advisoryLock then Some(0) else None, []))
  {
    AloneReads(def, disk, job);
    ReadingDoes(def, disk, job);
    var lock: Option<nat> := if def.advisoryLock then Some(0) else None;
    AloneWorks(def, disk, disk, job, ToRead, lock, ReadFile, disk, ToRun(v));
    AloneWorks(def, disk, disk, job, ToRun(v), lock, RunUpdater, disk, ToWrite(job.update(v).value));
  }

  /** The update has written all of its result. */
  lemma AloneWrites<T(!new)>(def: Definition<T>, disk: Disk, v: T, job: Job<T>, temp: nat)
    requires Holds(def, disk.file, v) && job.Update? && job.update(v).Some? && def.validate(job.update(v).value).Some?
    requires temp !in disk.usedTemps
    ensures var bytes := def.show(def.validate(job.update(v).value).value);
      Reached(def, disk, Alone(WithTemp(disk, temp, bytes), job, Writing(temp, bytes, |bytes|), if def.advisoryLock then Some(0) else None, []))
  {
    AloneRuns(def, disk, v, job);
    var lock: Option<nat> := if def.advisoryLock then Some(0) else None;
    var next := job.update(v).value;
    var bytes := def.show(def.validate(next).value);
    AloneWorks(def, disk, disk, job, ToWrite(next), lock, StartWrite(temp), WithTemp(disk, temp, ""), Writing(temp, bytes, 0));
    assert bytes[..|bytes|] == bytes;
    assert disk.temps[temp := ""][temp := bytes] == disk.temps[temp := bytes];
    AloneWorks(def, disk, WithTemp(disk, temp, ""), job, Writing(temp, bytes, 0), lock, WriteBytes(|bytes|),
               WithTemp(disk, temp, bytes), Writing(temp, bytes, |bytes|));
  }

  lemma AloneReleases<T(!new)>(def: Definition<T>, start: Disk, disk: Disk, job: Job<T>, committed: seq<Commitment<T>>)
    requires Reached(def, start, Alone(disk, job, ToRelease(true), if def.advisoryLock then Some(0) else None, committed))
    ensures Reached(def, start, Alone(disk, job, Over(true), None, committed))
  {
    var s := Alone(disk, job, ToRelease(true), if def.advisoryLock then Some(0) else None, committed);
    var t := Alone(disk, job, Over(true), None, committed);
    assert t.calls == s.calls[0 := Call(0, job, Over(true))] && t.queues == s.queues[0 := []];
    assert Gated(def, s, 0, Release) == t;
    Move(def, start, s, Gate(0, Release), t);
  }

  /** An update alone, on a file that holds a value, can resolve with its validated result in the file. */
  lemma UpdateAloneResolves<T(!new)>(def: Definition<T>, disk: Disk, v: T, job: Job<T>, temp: nat)
    requires Holds(def, disk.file, v) && job.Update? && job.update(v).Some? && def.validate(job.update(v).value).Some?
    requires temp !in disk.usedTemps
    ensures exists s ::
      Reached(def, disk, s) && 0 in s.calls && s.calls[0] == Call(0, job, Over(true)) && s.committed == [Commitment(0, job)] &&
      s.disk.file == Some(def.show(def.validate(job.update(v).value).value)) && s.lock == None
  {
    AloneWrites(def, disk, v, job, temp);
    var bytes := def.show(def.validate(job.update(v).value).value);
    var lock: Option<nat> := if def.advisoryLock then Some(0) else None;
    AloneWorks(def, disk, WithTemp(disk, temp, bytes), job, Writing(temp, bytes, |bytes|), lock, Rename(0),
               Renamed(disk, temp, bytes), ToRelease(true));
    AloneReleases(def, disk, Renamed(disk, temp, bytes), job, [Commitment(0, job)]);
  }

  // ---------------------------------------------------------------- a process settles its updates in order

  /** The updates a process has called for, in order. */
  function Sent<T>(run: seq<Action<T>>, pid: nat): seq<nat>
  {
    if run == [] then []
    else
      var sent, a := Sent(run[..|run| - 1], pid), run[|run| - 1];
      if a.Enqueue? && a.pid == pid && a.job.Update? then sent + [a.call] else sent
  }

  predicate SettledCall<T>(s: System<T>, c: nat) { c in s.calls && s.calls[c].phase.Over? }

  predicate OpenUpdate<T>(s: System<T>, pid: nat, c: nat)
  {
    c in s.calls && s.calls[c].pid == pid && s.calls[c].job.Update? && !s.calls[c].phase.Over?
  }

  /** The first so many of the updates sent are settled, the others are open and make up the queue. */
  ghost predicate SettledUpTo<T(!new)>(s: System<T>, sent: seq<nat>, pid: nat, k: nat)
  {
    k <= |sent| && QueueOf(s, pid) == sent[k..] && (forall i :: 0 <= i < k ==> SettledCall(s, sent[i])) &&
    forall i :: k <= i < |sent| ==> OpenUpdate(s, pid, sent[i])
  }

  ghost predicate InOrder<T(!new)>(s: System<T>, sent: seq<nat>, pid: nat)
  {
    exists k: nat :: SettledUpTo(s, sent, pid, k)
  }

  /** Calls and queue of a process stay as they are. */
  lemma SameKeepsOrder<T(!new)>(s: System<T>, next: System<T>, sent: seq<nat>, pid: nat)
    requires InOrder(s, sent, pid) && QueueOf(next, pid) == QueueOf(s, pid)
    requires forall i :: 0 <= i < |sent| && SettledCall(s, sent[i]) ==> SettledCall(next, sent[i])
    requires forall i :: 0 <= i < |sent| && OpenUpdate(s, pid, sent[i]) ==> OpenUpdate(next, pid, sent[i])
    ensures InOrder(next, sent, pid)
  {
    var k: nat :| SettledUpTo(s, sent, pid, k);
    assert SettledUpTo(next, sent, pid, k);
  }

  lemma JoinKeepsOrder<T(!new)>(s: System<T>, next: System<T>, sent: seq<nat>, pid: nat, c: nat)
    requires InOrder(s, sent, pid) && QueueOf(next, pid) == QueueOf(s, pid) + [c] && OpenUpdate(next, pid, c)
    requires forall d :: d in s.calls ==> d in next.calls && next.calls[d] == s.calls[d]
    ensures InOrder(next, sent + [c], pid)
  {
    var k: nat :| SettledUpTo(s, sent, pid, k);
    assert (sent + [c])[k..] == sent[k..] + [c];
    assert SettledUpTo(next, sent + [c], pid, k);
  }

  lemma EnterKeepsOrder<T(!new)>(s: System<T>, sent: seq<nat>, pid: nat, c: nat, owner: nat, job: Job<T>)
    requires InOrder(s, sent, pid) && c !in s.calls
    ensures InOrder(Entered(s, c, owner, job), if owner == pid && job.Update? then sent + [c] else sent, pid)
  {
    var next := Entered(s, c, owner, job);
    assert forall d :: d in s.calls ==> d in next.calls && next.calls[d] == s.calls[d];
    if owner == pid && job.Update? {
      JoinKeepsOrder(s, next, sent, pid, c);
    } else {
      SameKeepsOrder(s, next, sent, pid);
    }
  }

  lemma HeadLeaves<T(!new)>(s: System<T>, next: System<T>, sent: seq<nat>, pid: nat, c: nat)
    requires InOrder(s, sent, pid) && QueueOf(s, pid) != [] && QueueOf(s, pid)[0] == c && QueueOf(next, pid) == QueueOf(s, pid)[1..]
    requires SettledCall(next, c) && forall d :: d in s.calls && d != c ==> d in next.calls && next.calls[d] == s.calls[d]
    requires forall i, j :: 0 <= i < j < |sent| ==> sent[i] != sent[j]
    ensures InOrder(next, sent, pid)
  {
    var k: nat :| SettledUpTo(s, sent, pid, k);
    assert sent[k..][0] == sent[k] && sent[k..][1..] == sent[k + 1..];
    assert SettledUpTo(next, sent, pid, k + 1);
  }

  /** An update that settles heads its process's queue, so it is the first open one. */
  lemma LeaveKeepsOrder<T(!new)>(s: System<T>, next: System<T>, sent: seq<nat>, pid: nat, c: nat, resolved: bool)
    requires InOrder(s, sent, pid) && c in s.calls && Heads(s, c) && OpenUpdate(s, s.calls[c].pid, c)
    requires next.calls == s.calls[c := s.calls[c].(phase := Over(resolved))]
    requires next.queues == s.queues[s.calls[c].pid := QueueOf(s, s.calls[c].pid)[1..]]
    requires forall i, j :: 0 <= i < j < |sent| ==> sent[i] != sent[j]
    ensures InOrder(next, sent, pid)
  {
    if s.calls[c].pid == pid {
      HeadLeaves(s, next, sent, pid, c);
    } else {
      SameKeepsOrder(s, next, sent, pid);
    }
  }

  lemma StayKeepsOrder<T(!new)>(s: System<T>, next: System<T>, sent: seq<nat>, pid: nat, c: nat, phase: Phase<T>)
    requires InOrder(s, sent, pid) && c in s.calls && next.queues == s.queues
    requires next.calls == s.calls[c := s.calls[c].(phase := phase)]
    requires s.calls[c].job.Update? ==> !phase.Over? && !s.calls[c].phase.Over?
    requires !s.calls[c].job.Update? ==> c !in sent
    ensures InOrder(next, sent, pid)
  {
    SameKeepsOrder(s, next, sent, pid);
  }

  /** What was sent are updates, each once. */
  ghost predicate SentOnce<T(!new)>(s: System<T>, sent: seq<nat>)
  {
    (forall i :: 0 <= i < |sent| ==> sent[i] in s.calls && s.calls[sent[i]].job.Update?) &&
    forall i, j :: 0 <= i < j < |sent| ==> sent[i] != sent[j]
  }

  lemma GateKeepsOrder<T(!new)>(def: Definition<T>, s: System<T>, sent: seq<nat>, pid: nat, c: nat, gate: GateMove)
    requires QueueInv(s) && InOrder(s, sent, pid) && SentOnce(s, sent) && Running(s, c) && AtGate(s, c, gate)
    ensures InOrder(Gated(def, s, c, gate), sent, pid)
  {
    var next := Gated(def, s, c, gate);
    if gate.GiveUp? || gate.Release? {
      assert Active(s.calls[c]) && Heads(s, c);
      LeaveKeepsOrder(s, next, sent, pid, c, gate.Release? && s.calls[c].phase.ok);
    } else {
      StayKeepsOrder(s, next, sent, pid, c, GatePhase(def, s.calls[c].phase, gate));
    }
  }

  lemma DeedKeepsOrder<T(!new)>(def: Definition<T>, s: System<T>, sent: seq<nat>, pid: nat, c: nat, deed: Deed)
    requires QueueInv(s) && InOrder(s, sent, pid) && SentOnce(s, sent) && c in s.calls && CanDo(def, s, c, deed)
    ensures InOrder(Done(def, s, c, deed), sent, pid)
  {
    var call := s.calls[c];
    var work := Work(def, s.disk, call.job, call.phase, deed);
    WorkStaysInside(def, s.disk, call.job, call.phase, deed);
    StayKeepsOrder(s, Advanced(s, c, work), sent, pid, c, work.phase);
  }

  function SentAfter<T>(sent: seq<nat>, a: Action<T>, pid: nat): seq<nat>
  {
    if a.Enqueue? && a.pid == pid && a.job.Update? then sent + [a.call] else sent
  }

  lemma StepKeepsOrder<T(!new)>(def: Definition<T>, s: System<T>, sent: seq<nat>, pid: nat, a: Action<T>)
    requires QueueInv(s) && InOrder(s, sent, pid) && SentOnce(s, sent) && Enabled(def, s, a)
    ensures InOrder(Next(def, s, a), SentAfter(sent, a, pid), pid)
  {
    if a.Enqueue? {
      EnterKeepsOrder(s, sent, pid, a.call, a.pid, a.job);
    } else if a.Gate? {
      GateKeepsOrder(def, s, sent, pid, a.call, a.gate);
    } else if a.Do? {
      DeedKeepsOrder(def, s, sent, pid, a.call, a.deed);
    } else {
      SameKeepsOrder(s, Next(def, s, a), sent, pid);
    }
  }

  lemma StepKeepsSent<T(!new)>(def: Definition<T>, s: System<T>, sent: seq<nat>, pid: nat, a: Action<T>)
    requires SentOnce(s, sent) && Enabled(def, s, a)
    ensures SentOnce(Next(def, s, a), SentAfter(sent, a, pid))
  {
    var next := Next(def, s, a);
    assert forall c :: c in s.calls ==> c in next.calls && next.calls[c].job == s.calls[c].job;
  }

  lemma {:induction false} RunGrows<T(!new)>(def: Definition<T>, s: System<T>, run: seq<Action<T>>, a: Action<T>)
    requires Possible(def, s, run + [a])
    ensures Possible(def, s, run) && Enabled(def, After(def, s, run), a)
    ensures After(def, s, run + [a]) == Next(def, After(def, s, run), a)
    decreases |run|
  {
    if run == [] {
      assert ([] + [a])[1..] == [];
    } else {
      assert (run + [a])[1..] == run[1..] + [a] && (run + [a])[0] == run[0];
      RunGrows(def, Next(def, s, run[0]), run[1..], a);
    }
  }

  ghost predicate Ordered<T(!new)>(s: System<T>, sent: seq<nat>, pid: nat)
  {
    QueueInv(s) && SentOnce(s, sent) && InOrder(s, sent, pid)
  }

  lemma StepStaysOrdered<T(!new)>(def: Definition<T>, s: System<T>, sent: seq<nat>, pid: nat, a: Action<T>)
    requires Ordered(s, sent, pid) && Enabled(def, s, a)
    ensures Ordered(Next(def, s, a), SentAfter(sent, a, pid), pid)
  {
    QueueInvKept(def, s, a);
    StepKeepsOrder(def, s, sent, pid, a);
    StepKeepsSent(def, s, sent, pid, a);
  }

  /** In every run, each process settles its updates in the order it called for them, and its queue holds the open ones. */
  lemma {:induction false} UpdatesSettleInOrder<T(!new)>(def: Definition<T>, disk: Disk, run: seq<Action<T>>, pid: nat)
    requires Possible(def, Start(disk), run)
    ensures Ordered(After(def, Start(disk), run), Sent(run, pid), pid)
  {
    if run == [] {
      assert SettledUpTo(Start<T>(disk), [], pid, 0);
    } else {
      var init, a := run[..|run| - 1], run[|run| - 1];
      assert run == init + [a];
      RunGrows(def, Start(disk), init, a);
      UpdatesSettleInOrder(def, disk, init, pid);
      StepStaysOrdered(def, After(def, Start(disk), init), Sent(init, pid), pid, a);
      assert Sent(run, pid) == SentAfter(Sent(init, pid), a, pid);
    }
  }
}
