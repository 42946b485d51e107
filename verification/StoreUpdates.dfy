/** Mutual exclusion of the state store's updates, and that none of them is lost. */
module StoreUpdates {
  import opened Text
  import opened StateStore
  import opened StoreCrashes

  // ---------------------------------------------------------------- queue and lock

  /** Between acquiring and releasing. */
  predicate Inside<T>(phase: Phase<T>) { Working(phase) || phase.ToRelease? }

  /** Past the process queue and not yet over. */
  predicate Active<T>(call: Call<T>)
  {
    call.job.Update? && (Inside(call.phase) || call.phase.Locking? || call.phase.Judged?)
  }

  /** A live update is in the critical section. */
  predicate Critical<T>(s: System<T>, c: nat)
  {
    Running(s, c) && s.calls[c].job.Update? && Inside(s.calls[c].phase)
  }

  predicate Heads<T>(s: System<T>, c: nat)
    requires c in s.calls
  {
    QueueOf(s, s.calls[c].pid) != [] && QueueOf(s, s.calls[c].pid)[0] == c
  }

  /** Pids are not reused, and only the head of a process's queue gets past the queue. */
  ghost predicate QueueInv<T(!new)>(s: System<T>)
  {
    s.alive <= s.used && (s.lock.Some? ==> s.lock.value in s.used) &&
    (forall c :: c in s.calls ==> s.calls[c].pid in s.used && PhaseFits(s.calls[c].job, s.calls[c].phase)) &&
    (forall c :: Running(s, c) && Active(s.calls[c]) ==> Heads(s, c))
  }

  /** A live update in the critical section holds the lock, and a live process holds it only for such an update. */
  ghost predicate LockInv<T(!new)>(s: System<T>)
  {
    (forall c :: Critical(s, c) ==> s.lock == Some(s.calls[c].pid)) &&
    (s.lock.Some? && s.lock.value in s.alive ==> exists c :: Critical(s, c) && s.calls[c].pid == s.lock.value)
  }

  predicate Removes<T>(a: Action<T>) { a.Gate? && a.gate.RemoveStale? }

  /** The removal of a stale lock hits no lock that a live process has taken since it was judged. */
  predicate Benign<T>(s: System<T>, a: Action<T>)
  {
    Removes(a) ==> s.lock.None? || s.lock.value !in s.alive
  }

  lemma WorkStaysInside<T(!new)>(def: Definition<T>, disk: Disk, job: Job<T>, phase: Phase<T>, a: Deed)
    requires CanWork(def, disk, job, phase, a) && PhaseFits(job, phase)
    ensures var work := Work(def, disk, job, phase, a);
      Working(phase) && PhaseFits(job, work.phase) && (job.Update? ==> Inside(work.phase))
  {
  }

  /** A call's change of phase keeps the queue discipline if the call was past the queue already, or heads it. */
  lemma PhaseChangeKeepsQueue<T(!new)>(s: System<T>, next: System<T>, c: nat, phase: Phase<T>)
    requires QueueInv(s) && c in s.calls && next.calls == s.calls[c := s.calls[c].(phase := phase)]
    requires next.alive == s.alive && next.used == s.used && next.queues == s.queues
    requires next.lock.Some? ==> next.lock.value in s.used
    requires PhaseFits(s.calls[c].job, phase) && (Running(s, c) && Active(next.calls[c]) ==> Active(s.calls[c]) || Heads(s, c))
    ensures QueueInv(next)
  {
  }

  /** An update that settles leaves the head of its queue. */
  lemma LeavingKeepsQueue<T(!new)>(s: System<T>, next: System<T>, c: nat, resolved: bool)
    requires QueueInv(s) && Running(s, c) && Active(s.calls[c])
    requires next.calls == s.calls[c := s.calls[c].(phase := Over(resolved))] && next.alive == s.alive && next.used == s.used
    requires var queue := QueueOf(s, s.calls[c].pid);
      next.queues == s.queues[s.calls[c].pid := if queue == [] then [] else queue[1..]]
    requires next.lock.Some? ==> next.lock.value in s.used
    ensures QueueInv(next)
  {
    forall d | Running(next, d) && Active(next.calls[d]) ensures Heads(next, d) {
      assert d != c && next.calls[d] == s.calls[d];
      assert Heads(s, d) && Heads(s, c);
      assert s.calls[d].pid != s.calls[c].pid;
    }
  }

  lemma GateKeepsQueue<T(!new)>(def: Definition<T>, s: System<T>, c: nat, gate: GateMove)
    requires QueueInv(s) && Running(s, c) && AtGate(s, c, gate)
    ensures QueueInv(Gated(def, s, c, gate))
  {
    var call, next := s.calls[c], Gated(def, s, c, gate);
    if gate.GiveUp? || gate.Release? {
      LeavingKeepsQueue(s, next, c, gate.Release? && call.phase.ok);
    } else {
      PhaseChangeKeepsQueue(s, next, c, GatePhase(def, call.phase, gate));
    }
  }

  lemma EnteringKeepsQueue<T(!new)>(s: System<T>, c: nat, pid: nat, job: Job<T>)
    requires QueueInv(s) && c !in s.calls && pid in s.alive
    ensures QueueInv(Entered(s, c, pid, job))
  {
    var next := Entered(s, c, pid, job);
    forall d | Running(next, d) && Active(next.calls[d]) ensures Heads(next, d) {
      assert d != c && Heads(s, d);
    }
  }

  lemma DeedKeepsQueue<T(!new)>(def: Definition<T>, s: System<T>, c: nat, deed: Deed)
    requires QueueInv(s) && c in s.calls && CanDo(def, s, c, deed)
    ensures QueueInv(Done(def, s, c, deed))
  {
    var call := s.calls[c];
    var work := Work(def, s.disk, call.job, call.phase, deed);
    WorkStaysInside(def, s.disk, call.job, call.phase, deed);
    PhaseChangeKeepsQueue(s, Advanced(s, c, work), c, work.phase);
  }

  lemma QueueInvKept<T(!new)>(def: Definition<T>, s: System<T>, a: Action<T>)
    requires QueueInv(s) && Enabled(def, s, a)
    ensures QueueInv(Next(def, s, a))
  {
    if a.Do? {
      DeedKeepsQueue(def, s, a.call, a.deed);
    } else if a.Gate? {
      GateKeepsQueue(def, s, a.call, a.gate);
    } else if a.Enqueue? {
      EnteringKeepsQueue(s, a.call, a.pid, a.job);
    }
  }

  lemma ExclusionByLock<T(!new)>(s: System<T>, c: nat, d: nat)
    requires QueueInv(s) && LockInv(s) && Critical(s, c) && Critical(s, d)
    ensures c == d
  {
    assert Heads(s, c) && Heads(s, d);
  }

  /** Removing a lock keeps the lock discipline exactly when it removes no live process's lock. */
  lemma RemovalIsBenign<T(!new)>(def: Definition<T>, s: System<T>, a: Action<T>)
    requires LockInv(s) && Enabled(def, s, a) && Removes(a)
    ensures LockInv(Next(def, s, a)) <==> Benign(s, a)
  {
    var next := Next(def, s, a);
    if !Benign(s, a) {
      var c :| Critical(s, c) && s.calls[c].pid == s.lock.value;
      assert Critical(next, c);
    } else {
      forall c ensures !Critical(next, c) {
        assert Critical(next, c) ==> Critical(s, c);
      }
    }
  }

  /** After a removal that is not benign, the remover can acquire, and two live updates are in the critical section. */
  lemma BadRemovalLetsTwoIn<T(!new)>(def: Definition<T>, s: System<T>, a: Action<T>)
    requires QueueInv(s) && LockInv(s) && Enabled(def, s, a) && Removes(a) && !Benign(s, a)
    ensures var removed := Next(def, s, a);
      Enabled(def, removed, Gate(a.call, Acquire)) &&
      exists d ::
        d != a.call && Critical(Next(def, removed, Gate(a.call, Acquire)), a.call) &&
        Critical(Next(def, removed, Gate(a.call, Acquire)), d)
  {
    var d :| Critical(s, d) && s.calls[d].pid == s.lock.value;
    var inside := Next(def, Next(def, s, a), Gate(a.call, Acquire));
    assert Critical(inside, a.call) && Critical(inside, d);
  }

  /** A step that leaves the lock alone and takes no call in or out of the critical section keeps the discipline. */
  lemma SameSectionKeepsLock<T(!new)>(s: System<T>, next: System<T>)
    requires LockInv(s) && next.lock == s.lock
    requires next.lock.Some? && next.lock.value in next.alive ==> next.lock.value in s.alive
    requires forall c :: Critical(next, c) ==> Critical(s, c) && next.calls[c].pid == s.calls[c].pid
    requires forall c :: Critical(s, c) && s.calls[c].pid in next.alive ==>
      Critical(next, c) && next.calls[c].pid == s.calls[c].pid
    ensures LockInv(next)
  {
    if next.lock.Some? && next.lock.value in next.alive {
      var c :| Critical(s, c) && s.calls[c].pid == s.lock.value;
      assert Critical(next, c);
    }
  }

  /** Releasing empties the critical section. */
  lemma ReleaseKeepsLock<T(!new)>(s: System<T>, next: System<T>, c: nat, resolved: bool)
    requires QueueInv(s) && LockInv(s) && Critical(s, c) && next.lock == None && next.alive == s.alive
    requires next.calls == s.calls[c := s.calls[c].(phase := Over(resolved))]
    ensures LockInv(next)
  {
    forall d ensures !Critical(next, d) {
      if Critical(next, d) {
        assert Critical(s, d);
        ExclusionByLock(s, c, d);
      }
    }
  }

  lemma AcquireKeepsLock<T(!new)>(s: System<T>, next: System<T>, c: nat)
    requires LockInv(s) && s.lock == None && Running(s, c) && s.calls[c].job.Update? && next.alive == s.alive
    requires next.calls == s.calls[c := s.calls[c].(phase := ToRead)] && next.lock == Some(s.calls[c].pid)
    ensures LockInv(next)
  {
    assert Critical(next, c);
    assert forall d :: Critical(next, d) && d != c ==> Critical(s, d);
  }

  lemma GateKeepsLock<T(!new)>(def: Definition<T>, s: System<T>, c: nat, gate: GateMove)
    requires def.advisoryLock && QueueInv(s) && LockInv(s) && !gate.RemoveStale? && Running(s, c) && AtGate(s, c, gate)
    ensures LockInv(Gated(def, s, c, gate))
  {
    var next := Gated(def, s, c, gate);
    if gate.Release? {
      ReleaseKeepsLock(s, next, c, s.calls[c].phase.ok);
    } else if gate.Acquire? {
      AcquireKeepsLock(s, next, c);
    } else {
      SameSectionKeepsLock(s, next);
    }
  }

  lemma DeedKeepsLock<T(!new)>(def: Definition<T>, s: System<T>, c: nat, deed: Deed)
    requires QueueInv(s) && LockInv(s) && c in s.calls && CanDo(def, s, c, deed)
    ensures LockInv(Done(def, s, c, deed))
  {
    var call := s.calls[c];
    WorkStaysInside(def, s.disk, call.job, call.phase, deed);
    SameSectionKeepsLock(s, Advanced(s, c, Work(def, s.disk, call.job, call.phase, deed)));
  }

  lemma LockInvKept<T(!new)>(def: Definition<T>, s: System<T>, a: Action<T>)
    requires def.advisoryLock && QueueInv(s) && LockInv(s) && Enabled(def, s, a) && Benign(s, a)
    ensures LockInv(Next(def, s, a))
  {
    if Removes(a) {
      RemovalIsBenign(def, s, a);
    } else if a.Gate? {
      GateKeepsLock(def, s, a.call, a.gate);
    } else if a.Do? {
      DeedKeepsLock(def, s, a.call, a.deed);
    } else {
      SameSectionKeepsLock(s, Next(def, s, a));
    }
  }

  /** One update at a time: by the lock, or because at most one process is alive. */
  ghost predicate Serial<T(!new)>(def: Definition<T>, s: System<T>)
  {
    if def.advisoryLock then LockInv(s) else forall p, q :: p in s.alive && q in s.alive ==> p == q
  }

  lemma Exclusion<T(!new)>(def: Definition<T>, s: System<T>, c: nat, d: nat)
    requires QueueInv(s) && Serial(def, s) && Critical(s, c) && Critical(s, d)
    ensures c == d
  {
    assert Heads(s, c) && Heads(s, d);
  }

  // ---------------------------------------------------------------- the file is the fold of the commits

  /** The validated value a job leaves behind when it finds a given value. */
  function Result<T>(def: Definition<T>, job: Job<T>, current: T): Option<T>
  {
    match job
    case Update(update) =>
      var next := update(current);
      if next.None? then None else def.validate(next.value)
    case Writer(next) => def.validate(next)
    case Reader => None
  }

  /** The file content one committed job leaves behind. */
  function Commit<T>(def: Definition<T>, job: Job<T>, file: Option<string>): Option<string>
  {
    var current := ValueOf(def, file);
    if current.None? then file
    else
      var result := Result(def, job, current.value);
      if result.None? then file else Some(def.show(result.value))
  }

  /** Running the committed jobs one after the other, with nobody else around. */
  function Fold<T>(def: Definition<T>, file: Option<string>, committed: seq<Commitment<T>>): Option<string>
  {
    if committed == [] then file
    else Commit(def, committed[|committed| - 1].job, Fold(def, file, committed[..|committed| - 1]))
  }

  lemma FoldGrows<T>(def: Definition<T>, file: Option<string>, committed: seq<Commitment<T>>, last: Commitment<T>)
    ensures Fold(def, file, committed + [last]) == Commit(def, last.job, Fold(def, file, committed))
  {
    assert (committed + [last])[..|committed|] == committed;
  }

  ghost predicate Unparsable<T(!new)>(def: Definition<T>, content: string)
  {
    Read(def, Some(content)).Quarantined?
  }

  /** The content was moved aside at some time. */
  ghost predicate MovedOnce(disk: Disk, content: string)
  {
    exists name :: name in disk.moved && disk.moved[name] == content
  }

  /** What an update in the critical section has in hand comes from the present content of the file. */
  ghost predicate InStep<T(!new)>(def: Definition<T>, file: Option<string>, job: Job<T>, phase: Phase<T>)
  {
    match phase
    case ToQuarantine => file.None? || Unparsable(def, file.value)
    case ToList => file.None?
    case Sweeping(_) => file.None?
    case ToRun(current) => Read(def, file) == Usable(current)
    case ToWrite(next) => job.Update? && Read(def, file).Usable? && job.update(Read(def, file).value) == Some(next)
    case Writing(_, bytes, _) =>
      Read(def, file).Usable? && Result(def, job, Read(def, file).value).Some? &&
      bytes == def.show(Result(def, job, Read(def, file).value).value)
    case _ => true
  }

  /** The file is the fold of the commits, or that fold is unparsable and was moved aside. Only unparsable content is. */
  ghost predicate FileIsFold<T(!new)>(def: Definition<T>, start: Disk, disk: Disk, committed: seq<Commitment<T>>)
  {
    var fold := Fold(def, start.file, committed);
    (disk.file == fold || (disk.file.None? && fold.Some? && Unparsable(def, fold.value) && MovedOnce(disk, fold.value))) &&
    forall name :: name in disk.moved ==> Unparsable(def, disk.moved[name])
  }

  lemma WorkKeepsInStep<T(!new)>(def: Definition<T>, disk: Disk, job: Job<T>, phase: Phase<T>, deed: Deed)
    requires job.Update? && CanWork(def, disk, job, phase, deed) && InStep(def, disk.file, job, phase)
    ensures var work := Work(def, disk, job, phase, deed);
      InStep(def, work.disk.file, job, work.phase)
  {
  }

  lemma RenameCommits<T(!new)>(
    def: Definition<T>, start: Disk, disk: Disk, c: nat, job: Job<T>, phase: Phase<T>, deed: Deed, committed: seq<Commitment<T>>)
    requires job.Update? && CanWork(def, disk, job, phase, deed) && InStep(def, disk.file, job, phase) && deed.Rename?
    requires CallWhole(def, disk, phase) && FileIsFold(def, start, disk, committed)
    ensures FileIsFold(def, start, Work(def, disk, job, phase, deed).disk, committed + [Commitment(c, job)])
  {
    RenamedBytes(def, disk, job, phase, deed);
    FoldGrows(def, start.file, committed, Commitment(c, job));
    assert ValueOf(def, Fold(def, start.file, committed)) == ValueOf(def, disk.file);
  }

  lemma QuarantineKeepsFold<T(!new)>(def: Definition<T>, start: Disk, disk: Disk, name: string, committed: seq<Commitment<T>>)
    requires disk.file.Some? && Unparsable(def, disk.file.value) && name !in disk.moved
    requires FileIsFold(def, start, disk, committed)
    ensures FileIsFold(def, start, MovedAside(disk, name), committed)
  {
    var next := MovedAside(disk, name);
    assert name in next.moved && next.moved[name] == disk.file.value;
  }

  /** An update's step keeps file and commits in agreement. */
  lemma WorkKeepsFold<T(!new)>(
    def: Definition<T>, start: Disk, disk: Disk, c: nat, job: Job<T>, phase: Phase<T>, deed: Deed, committed: seq<Commitment<T>>)
    requires job.Update? && CanWork(def, disk, job, phase, deed) && InStep(def, disk.file, job, phase)
    requires CallWhole(def, disk, phase) && FileIsFold(def, start, disk, committed)
    ensures var work := Work(def, disk, job, phase, deed);
      FileIsFold(def, start, work.disk, if work.commits then committed + [Commitment(c, job)] else committed)
  {
    var work := Work(def, disk, job, phase, deed);
    if deed.Rename? {
      RenameCommits(def, start, disk, c, job, phase, deed, committed);
    } else if deed.Quarantine? && disk.file.Some? {
      QuarantineKeepsFold(def, start, disk, deed.name, committed);
      assert work.disk == MovedAside(disk, deed.name);
    } else {
      assert work.disk.file == disk.file && work.disk.moved == disk.moved;
    }
  }

  /** Moving a present file aside keeps file and commits in agreement exactly when its content is then unparsable. */
  lemma MoveKeepsFoldIff<T(!new)>(
    def: Definition<T>, start: Disk, disk: Disk, job: Job<T>, phase: Phase<T>, deed: Deed, committed: seq<Commitment<T>>)
    requires CanWork(def, disk, job, phase, deed) && deed.Quarantine? && disk.file.Some?
    requires FileIsFold(def, start, disk, committed)
    ensures FileIsFold(def, start, Work(def, disk, job, phase, deed).disk, committed) <==> Unparsable(def, disk.file.value)
  {
    var next := Work(def, disk, job, phase, deed).disk;
    assert next == MovedAside(disk, deed.name);
    assert deed.name in next.moved && next.moved[deed.name] == disk.file.value;
    if Unparsable(def, disk.file.value) {
      QuarantineKeepsFold(def, start, disk, deed.name, committed);
    }
  }

  /** A reader that moves only unparsable content keeps file and commits in agreement, and every update's view right. */
  lemma ReaderKeepsFold<T(!new)>(
    def: Definition<T>, start: Disk, disk: Disk, phase: Phase<T>, deed: Deed, committed: seq<Commitment<T>>)
    requires CanWork(def, disk, Reader, phase, deed) && PhaseFits<T>(Reader, phase) && FileIsFold(def, start, disk, committed)
    requires deed.Quarantine? && disk.file.Some? ==> Unparsable(def, disk.file.value)
    ensures var work := Work(def, disk, Reader, phase, deed);
      !work.commits && FileIsFold(def, start, work.disk, committed) &&
      (work.disk.file == disk.file || (work.disk.file.None? && disk.file.Some? && Unparsable(def, disk.file.value)))
  {
    var work := Work(def, disk, Reader, phase, deed);
    if deed.Quarantine? && disk.file.Some? {
      MoveKeepsFoldIff(def, start, disk, Reader, phase, deed, committed);
    } else {
      assert work.disk.file == disk.file && work.disk.moved == disk.moved;
    }
  }

  lemma InStepSurvivesMove<T(!new)>(def: Definition<T>, file: Option<string>, job: Job<T>, phase: Phase<T>)
    requires InStep(def, file, job, phase) && file.Some? && Unparsable(def, file.value)
    ensures InStep(def, None, job, phase)
  {
  }

  // ---------------------------------------------------------------- runs

  /** All that holds of every state an orderly run reaches. */
  ghost predicate Sound<T(!new)>(def: Definition<T>, start: Disk, s: System<T>)
  {
    QueueInv(s) && Serial(def, s) && Whole(def, start, s) && FileIsFold(def, start, s.disk, s.committed) && CallsSound(def, s)
  }

  ghost predicate CallsSound<T(!new)>(def: Definition<T>, s: System<T>)
  {
    (forall c :: c in s.calls ==> !s.calls[c].job.Writer?) &&
    (forall c :: Critical(s, c) ==> InStep(def, s.disk.file, s.calls[c].job, s.calls[c].phase))
  }

  /** The step is a reader's moving a present file aside. */
  predicate ReaderMoves<T>(s: System<T>, a: Action<T>)
  {
    a.Do? && a.deed.Quarantine? && a.call in s.calls && s.calls[a.call].job.Reader? && s.disk.file.Some?
  }

  /**
   * With a lock file: no removal of a live process's lock. Without: a process is launched only when none is alive. A
   * reader moves only content that is unparsable at that moment, and there are no standalone writes.
   */
  ghost predicate Polite<T(!new)>(def: Definition<T>, s: System<T>, a: Action<T>)
  {
    (if def.advisoryLock then Benign(s, a) else a.Launch? ==> s.alive == {}) &&
    (ReaderMoves(s, a) ==> Unparsable(def, s.disk.file.value)) &&
    (a.Enqueue? ==> !a.job.Writer?)
  }

  lemma SerialKept<T(!new)>(def: Definition<T>, s: System<T>, a: Action<T>)
    requires QueueInv(s) && Serial(def, s) && Enabled(def, s, a) && Polite(def, s, a)
    ensures Serial(def, Next(def, s, a))
  {
    if def.advisoryLock {
      LockInvKept(def, s, a);
    }
  }

  lemma UpdateDeedSound<T(!new)>(def: Definition<T>, start: Disk, s: System<T>, c: nat, deed: Deed)
    requires Sound(def, start, s) && Running(s, c) && CanDo(def, s, c, deed) && s.calls[c].job.Update?
    ensures var next := Done(def, s, c, deed);
      FileIsFold(def, start, next.disk, next.committed) && CallsSound(def, next)
  {
    var call, next := s.calls[c], Done(def, s, c, deed);
    WorkStaysInside(def, s.disk, call.job, call.phase, deed);
    assert Critical(s, c);
    WorkKeepsInStep(def, s.disk, call.job, call.phase, deed);
    WorkKeepsFold(def, start, s.disk, c, call.job, call.phase, deed, s.committed);
    forall d | Critical(next, d) ensures InStep(def, next.disk.file, next.calls[d].job, next.calls[d].phase) {
      if d != c {
        assert Critical(s, d);
        Exclusion(def, s, c, d);
      }
    }
  }

  lemma ReaderDeedSound<T(!new)>(def: Definition<T>, start: Disk, s: System<T>, c: nat, deed: Deed)
    requires Sound(def, start, s) && Running(s, c) && CanDo(def, s, c, deed) && s.calls[c].job.Reader?
    requires deed.Quarantine? && s.disk.file.Some? ==> Unparsable(def, s.disk.file.value)
    ensures var next := Done(def, s, c, deed);
      FileIsFold(def, start, next.disk, next.committed) && CallsSound(def, next)
  {
    var call, next := s.calls[c], Done(def, s, c, deed);
    ReaderKeepsFold(def, start, s.disk, call.phase, deed, s.committed);
    forall d | Critical(next, d) ensures InStep(def, next.disk.file, next.calls[d].job, next.calls[d].phase) {
      assert d != c && Critical(s, d);
      if next.disk.file != s.disk.file {
        InStepSurvivesMove(def, s.disk.file, s.calls[d].job, s.calls[d].phase);
      }
    }
  }

  lemma DeedSound<T(!new)>(def: Definition<T>, start: Disk, s: System<T>, c: nat, deed: Deed)
    requires Sound(def, start, s) && Running(s, c) && CanDo(def, s, c, deed) && Polite(def, s, Do(c, deed))
    ensures var next := Done(def, s, c, deed);
      FileIsFold(def, start, next.disk, next.committed) && CallsSound(def, next)
  {
    if s.calls[c].job.Update? {
      UpdateDeedSound(def, start, s, c, deed);
    } else {
      assert ReaderMoves(s, Do(c, deed)) <==> deed.Quarantine? && s.disk.file.Some?;
      ReaderDeedSound(def, start, s, c, deed);
    }
  }

  lemma StepSound<T(!new)>(def: Definition<T>, start: Disk, s: System<T>, a: Action<T>)
    requires Sound(def, start, s) && Enabled(def, s, a) && Polite(def, s, a)
    ensures Sound(def, start, Next(def, s, a))
  {
    QueueInvKept(def, s, a);
    SerialKept(def, s, a);
    StepKeepsWhole(def, start, s, a);
    if a.Do? {
      DeedSound(def, start, s, a.call, a.deed);
    } else {
      OtherStepSound(def, s, a);
    }
  }

  /** A call that enters the critical section has nothing in hand yet. */
  lemma NewPhaseSound<T(!new)>(def: Definition<T>, s: System<T>, next: System<T>, c: nat)
    requires CallsSound(def, s) && next.disk == s.disk && next.alive == s.alive
    requires c in next.calls && !next.calls[c].job.Writer? && next.calls == s.calls[c := next.calls[c]]
    requires next.calls[c].job.Update? ==> !Working(next.calls[c].phase) || next.calls[c].phase.ToRead?
    ensures CallsSound(def, next)
  {
    forall d | Critical(next, d) ensures InStep(def, next.disk.file, next.calls[d].job, next.calls[d].phase) {
      assert d != c ==> Critical(s, d);
    }
  }

  lemma GateSound<T(!new)>(def: Definition<T>, s: System<T>, c: nat, gate: GateMove)
    requires CallsSound(def, s) && Running(s, c) && AtGate(s, c, gate)
    ensures CallsSound(def, Gated(def, s, c, gate))
  {
    NewPhaseSound(def, s, Gated(def, s, c, gate), c);
  }

  lemma FewerAliveSound<T(!new)>(def: Definition<T>, s: System<T>, next: System<T>)
    requires CallsSound(def, s) && next.disk == s.disk && next.calls == s.calls
    requires forall c :: c in s.calls && s.calls[c].pid in next.alive ==> s.calls[c].pid in s.alive
    ensures CallsSound(def, next)
  {
    assert forall c :: Critical(next, c) ==> Critical(s, c);
  }

  lemma OtherStepSound<T(!new)>(def: Definition<T>, s: System<T>, a: Action<T>)
    requires QueueInv(s) && CallsSound(def, s) && Enabled(def, s, a) && Polite(def, s, a) && !a.Do?
    ensures CallsSound(def, Next(def, s, a))
  {
    if a.Gate? {
      GateSound(def, s, a.call, a.gate);
    } else if a.Enqueue? {
      NewPhaseSound(def, s, Entered(s, a.call, a.pid, a.job), a.call);
    } else {
      FewerAliveSound(def, s, Next(def, s, a));
    }
  }

  /** A run of polite steps. */
  ghost predicate Orderly<T(!new)>(def: Definition<T>, s: System<T>, run: seq<Action<T>>)
    requires Possible(def, s, run)
    decreases |run|
  {
    run == [] || (Polite(def, s, run[0]) && Orderly(def, Next(def, s, run[0]), run[1..]))
  }

  lemma {:induction false} RunSound<T(!new)>(def: Definition<T>, start: Disk, s: System<T>, run: seq<Action<T>>)
    requires Sound(def, start, s) && Possible(def, s, run) && Orderly(def, s, run)
    ensures Sound(def, start, After(def, s, run))
    decreases |run|
  {
    if run != [] {
      StepSound(def, start, s, run[0]);
      RunSound(def, start, Next(def, s, run[0]), run[1..]);
    }
  }

  /**
   * In every orderly interleaving of any number of processes, with crashes anywhere, with or without a lock file: at
   * most one live update is in the critical section, and the file is the fold of the committed updates in commit
   * order, so none is lost.
   */
  lemma UpdatesAreNeverLost<T(!new)>(def: Definition<T>, disk: Disk, run: seq<Action<T>>)
    requires Initial(disk) && Possible(def, Start(disk), run) && Orderly(def, Start(disk), run)
    ensures var s := After(def, Start(disk), run);
      (forall c, d :: Critical(s, c) && Critical(s, d) ==> c == d) &&
      FileIsFold(def, disk, s.disk, s.committed) &&
      ValueOf(def, s.disk.file) == ValueOf(def, Fold(def, disk.file, s.committed))
  {
    RunSound(def, disk, Start(disk), run);
    var s := After(def, Start(disk), run);
    forall c, d | Critical(s, c) && Critical(s, d) ensures c == d {
      Exclusion(def, s, c, d);
    }
  }

  // ---------------------------------------------------------------- unparsable content

  /** An update never overwrites unparsable content. */
  lemma RenameSparesUnparsable<T(!new)>(def: Definition<T>, start: Disk, s: System<T>, c: nat, deed: Deed)
    requires Sound(def, start, s) && Running(s, c) && CanDo(def, s, c, deed) && deed.Rename?
    ensures !Read(def, s.disk.file).Quarantined?
  {
    assert Critical(s, c);
  }

  lemma StepKeepsUnparsable<T(!new)>(def: Definition<T>, start: Disk, s: System<T>, a: Action<T>, content: string)
    requires Sound(def, start, s) && Enabled(def, s, a) && Unparsable(def, content)
    requires s.disk.file == Some(content) || MovedOnce(s.disk, content)
    ensures var next := Next(def, s, a);
      next.disk.file == Some(content) || MovedOnce(next.disk, content)
  {
    if a.Do? {
      var call := s.calls[a.call];
      FileChangesWhole(def, s.disk, call.job, call.phase, a.deed);
      var next := Next(def, s, a).disk;
      if MovedOnce(s.disk, content) {
        var name :| name in s.disk.moved && s.disk.moved[name] == content;
        assert name in next.moved && next.moved[name] == content;
      } else if a.deed.Rename? {
        RenameSparesUnparsable(def, start, s, a.call, a.deed);
      } else if next.file != s.disk.file {
        assert a.deed.name in next.moved && next.moved[a.deed.name] == content;
      }
    }
  }

  /**
   * Unparsable content that the file once held is still in the file or was moved aside, after any orderly run; and
   * what was moved aside lies in its quarantine file unless a cleanup removed that.
   */
  lemma {:induction false} UnparsableIsMovedNotOverwritten<T(!new)>(
    def: Definition<T>, start: Disk, s: System<T>, run: seq<Action<T>>, content: string)
    requires Sound(def, start, s) && Possible(def, s, run) && Orderly(def, s, run) && Unparsable(def, content)
    requires s.disk.file == Some(content) || MovedOnce(s.disk, content)
    ensures var disk := After(def, s, run).disk;
      disk.file == Some(content) ||
      exists name :: name in disk.moved && disk.moved[name] == content &&
        (name in disk.swept || (name in disk.aside && disk.aside[name].content == content))
    decreases |run|
  {
    if run != [] {
      StepSound(def, start, s, run[0]);
      StepKeepsUnparsable(def, start, s, run[0], content);
      UnparsableIsMovedNotOverwritten(def, start, Next(def, s, run[0]), run[1..], content);
    } else if s.disk.file != Some(content) {
      var name :| name in s.disk.moved && s.disk.moved[name] == content;
    }
  }

  /** So it is from the start: unparsable content at any time of an orderly run is never lost by being overwritten. */
  lemma UnparsableIsKept<T(!new)>(
    def: Definition<T>, disk: Disk, first: seq<Action<T>>, rest: seq<Action<T>>, content: string)
    requires Initial(disk) && Possible(def, Start(disk), first) && Orderly(def, Start(disk), first)
    requires var s := After(def, Start(disk), first);
      s.disk.file == Some(content) && Unparsable(def, content) && Possible(def, s, rest) && Orderly(def, s, rest)
    ensures var late := After(def, After(def, Start(disk), first), rest).disk;
      late.file == Some(content) ||
      exists name :: name in late.moved && late.moved[name] == content &&
        (name in late.swept || (name in late.aside && late.aside[name].content == content))
  {
    RunSound(def, disk, Start(disk), first);
    UnparsableIsMovedNotOverwritten(def, disk, After(def, Start(disk), first), rest, content);
  }

  // ---------------------------------------------------------------- which runs are orderly

  ghost predicate NoWrites<T(!new)>(run: seq<Action<T>>)
  {
    forall a :: a in run && a.Enqueue? ==> !a.job.Writer?
  }

  predicate Renames<T>(a: Action<T>) { a.Do? && a.deed.Rename? }

  predicate ReadsFile<T>(a: Action<T>, c: nat) { a.Do? && a.call == c && a.deed.ReadFile? }

  predicate MovesFile<T>(a: Action<T>, c: nat) { a.Do? && a.call == c && a.deed.Quarantine? }

  /** The call is a reader, now or once it comes up in the run. */
  ghost predicate IsReader<T(!new)>(s: System<T>, run: seq<Action<T>>, c: nat)
  {
    (c in s.calls && s.calls[c].job.Reader?) || exists i :: 0 <= i < |run| && run[i].Enqueue? && run[i].call == c && run[i].job.Reader?
  }

  /** The call reads the file somewhere from index `i` on and before index `k`. */
  ghost predicate ReadsBetween<T(!new)>(run: seq<Action<T>>, c: nat, i: int, k: int)
  {
    exists j :: i <= j < k && 0 <= j < |run| && ReadsFile(run[j], c)
  }

  /**
   * No rename falls between a reader's reading the file and its moving the file aside: whenever it moves the file, it
   * has read it since the last rename. `stale` are calls that may have read before a rename that is already past.
   */
  ghost predicate ReadersMoveWhatTheyRead<T(!new)>(s: System<T>, run: seq<Action<T>>, stale: set<nat>)
  {
    forall c, k :: 0 <= k < |run| && MovesFile(run[k], c) && IsReader(s, run, c) ==>
      (c in stale ==> ReadsBetween(run, c, 0, k)) &&
      forall j :: 0 <= j < k && Renames(run[j]) ==> ReadsBetween(run, c, j + 1, k)
  }

  /** Every call about to move the file, the stale ones aside, faces unparsable content or none. */
  ghost predicate FacesUnparsable<T(!new)>(def: Definition<T>, s: System<T>, stale: set<nat>)
  {
    s.disk.file.Some? ==>
      forall c :: c in s.calls && c !in stale && s.calls[c].phase.ToQuarantine? ==> Unparsable(def, s.disk.file.value)
  }

  function StaleAfter<T>(next: System<T>, a: Action<T>, stale: set<nat>): set<nat>
  {
    if Renames(a) then next.calls.Keys else if a.Do? && a.deed.ReadFile? then stale - {a.call} else stale
  }

  lemma DeedFacesUnparsable<T(!new)>(def: Definition<T>, s: System<T>, c: nat, deed: Deed, stale: set<nat>)
    requires FacesUnparsable(def, s, stale) && c in s.calls && CanDo(def, s, c, deed)
    ensures var next := Done(def, s, c, deed);
      FacesUnparsable(def, next, StaleAfter(next, Do(c, deed), stale))
  {
    var next := Done(def, s, c, deed);
    if !deed.Rename? && next.disk.file.Some? {
      assert next.disk.file == s.disk.file;
      forall d | d in next.calls && d !in StaleAfter(next, Do(c, deed), stale) && next.calls[d].phase.ToQuarantine?
        ensures Unparsable(def, next.disk.file.value)
      {
        if d != c {
          assert next.calls[d] == s.calls[d];
        }
      }
    }
  }

  lemma StepFacesUnparsable<T(!new)>(def: Definition<T>, s: System<T>, a: Action<T>, stale: set<nat>)
    requires FacesUnparsable(def, s, stale) && Enabled(def, s, a)
    ensures FacesUnparsable(def, Next(def, s, a), StaleAfter(Next(def, s, a), a, stale))
  {
    if a.Do? {
      DeedFacesUnparsable(def, s, a.call, a.deed, stale);
    } else {
      var next := Next(def, s, a);
      assert next.disk == s.disk;
      assert forall c :: c in next.calls && next.calls[c].phase.ToQuarantine? ==> c in s.calls && next.calls[c] == s.calls[c];
    }
  }

  lemma ReaderStays<T(!new)>(def: Definition<T>, s: System<T>, run: seq<Action<T>>, c: nat)
    requires run != [] && Enabled(def, s, run[0]) && IsReader(Next(def, s, run[0]), run[1..], c)
    ensures IsReader(s, run, c)
  {
    if i :| 0 <= i < |run[1..]| && run[1..][i].Enqueue? && run[1..][i].call == c && run[1..][i].job.Reader? {
      assert run[i + 1] == run[1..][i];
    } else {
      var next := Next(def, s, run[0]);
      assert c in next.calls && next.calls[c].job.Reader?;
      assert (c in s.calls && s.calls[c].job == next.calls[c].job) || run[0].Enqueue?;
    }
  }

  lemma ReadsLater<T(!new)>(run: seq<Action<T>>, c: nat, i: nat, k: nat)
    requires run != [] && ReadsBetween(run, c, i + 1, k + 1)
    ensures ReadsBetween(run[1..], c, i, k)
  {
    var j :| i + 1 <= j < k + 1 && 0 <= j < |run| && ReadsFile(run[j], c);
    assert run[1..][j - 1] == run[j];
  }

  lemma RestMovesWhatItRead<T(!new)>(def: Definition<T>, s: System<T>, run: seq<Action<T>>, stale: set<nat>)
    requires run != [] && Enabled(def, s, run[0]) && ReadersMoveWhatTheyRead(s, run, stale)
    ensures var next := Next(def, s, run[0]);
      ReadersMoveWhatTheyRead(next, run[1..], StaleAfter(next, run[0], stale))
  {
    var next, rest := Next(def, s, run[0]), run[1..];
    var later := StaleAfter(next, run[0], stale);
    forall c, k | 0 <= k < |rest| && MovesFile(rest[k], c) && IsReader(next, rest, c)
      ensures c in later ==> ReadsBetween(rest, c, 0, k)
      ensures forall j :: 0 <= j < k && Renames(rest[j]) ==> ReadsBetween(rest, c, j + 1, k)
    {
      ReaderStays(def, s, run, c);
      assert rest[k] == run[k + 1];
      if c in later {
        StaleReadsLater(next, run, stale, c, k);
      }
      forall j | 0 <= j < k && Renames(rest[j]) ensures ReadsBetween(rest, c, j + 1, k) {
        assert rest[j] == run[j + 1];
        ReadsLater(run, c, j + 1, k);
      }
    }
  }

  lemma StaleReadsLater<T(!new)>(next: System<T>, run: seq<Action<T>>, stale: set<nat>, c: nat, k: nat)
    requires run != [] && c in StaleAfter(next, run[0], stale)
    requires c in stale ==> ReadsBetween(run, c, 0, k + 1)
    requires Renames(run[0]) ==> ReadsBetween(run, c, 1, k + 1)
    ensures ReadsBetween(run[1..], c, 0, k)
  {
    if !Renames(run[0]) {
      var j :| 0 <= j < k + 1 && 0 <= j < |run| && ReadsFile(run[j], c);
      assert j != 0;
      assert ReadsBetween(run, c, 1, k + 1);
    }
    ReadsLater(run, c, 0, k);
  }

  /** The next step of such a run moves only unparsable content, if it is a reader's move at all. */
  lemma FirstMoveIsPolite<T(!new)>(def: Definition<T>, s: System<T>, run: seq<Action<T>>, stale: set<nat>)
    requires run != [] && Enabled(def, s, run[0]) && ReadersMoveWhatTheyRead(s, run, stale) && FacesUnparsable(def, s, stale)
    ensures ReaderMoves(s, run[0]) ==> Unparsable(def, s.disk.file.value)
  {
    if ReaderMoves(s, run[0]) {
      var c := run[0].call;
      assert MovesFile(run[0], c) && IsReader(s, run, c);
      assert c !in stale;
    }
  }

  /** Nothing happens between a call's judging a lock stale and its removing the lock. */
  ghost predicate RecoversAtOnce<T(!new)>(run: seq<Action<T>>, judged: bool)
  {
    (run != [] && Removes(run[0]) ==> judged) &&
    forall i :: 0 < i < |run| && Removes(run[i]) ==> run[i - 1].Gate? && run[i - 1].gate.JudgeStale?
  }

  lemma RestRecoversAtOnce<T(!new)>(run: seq<Action<T>>, judged: bool)
    requires run != [] && RecoversAtOnce(run, judged)
    ensures RecoversAtOnce(run[1..], run[0].Gate? && run[0].gate.JudgeStale?)
  {
    var rest := run[1..];
    assert rest != [] ==> rest[0] == run[1];
    assert forall i :: 0 < i < |rest| ==> rest[i] == run[i + 1] && rest[i - 1] == run[i];
  }

  /**
   * Whenever checking and removing a stale lock is one uninterrupted act, and no rename falls between a reader's read
   * and its move, a run of updates and reads is orderly.
   */
  lemma {:induction false} AtomicRecoveryIsOrderly<T(!new)>(
    def: Definition<T>, s: System<T>, run: seq<Action<T>>, judged: bool, stale: set<nat>)
    requires def.advisoryLock && Possible(def, s, run) && NoWrites(run) && RecoversAtOnce(run, judged)
    requires ReadersMoveWhatTheyRead(s, run, stale) && FacesUnparsable(def, s, stale)
    requires judged ==> s.lock.Some? && s.lock.value !in s.alive
    ensures Orderly(def, s, run)
    decreases |run|
  {
    if run != [] {
      var next := Next(def, s, run[0]);
      FirstMoveIsPolite(def, s, run, stale);
      StepFacesUnparsable(def, s, run[0], stale);
      RestMovesWhatItRead(def, s, run, stale);
      RestRecoversAtOnce(run, judged);
      assert run[0] in run;
      AtomicRecoveryIsOrderly(def, next, run[1..], run[0].Gate? && run[0].gate.JudgeStale?, StaleAfter(next, run[0], stale));
    }
  }

  /** With a lock file, for every such run from the start. */
  lemma LockedUpdatesAreNeverLost<T(!new)>(def: Definition<T>, disk: Disk, run: seq<Action<T>>)
    requires Initial(disk) && def.advisoryLock && Possible(def, Start(disk), run)
    requires NoWrites(run) && RecoversAtOnce(run, false) && ReadersMoveWhatTheyRead(Start(disk), run, {})
    ensures var s := After(def, Start(disk), run);
      (forall c, d :: Critical(s, c) && Critical(s, d) ==> c == d) && FileIsFold(def, disk, s.disk, s.committed)
  {
    AtomicRecoveryIsOrderly(def, Start(disk), run, false, {});
    UpdatesAreNeverLost(def, disk, run);
  }

  /** Every process is launched when no other is alive: at the start, or after the last one crashed. */
  ghost predicate OneAtATime<T(!new)>(def: Definition<T>, s: System<T>, run: seq<Action<T>>)
    requires Possible(def, s, run)
    decreases |run|
  {
    run == [] || ((run[0].Launch? ==> s.alive == {}) && OneAtATime(def, Next(def, s, run[0]), run[1..]))
  }

  lemma {:induction false} OneAtATimeIsOrderly<T(!new)>(
    def: Definition<T>, s: System<T>, run: seq<Action<T>>, stale: set<nat>)
    requires !def.advisoryLock && Possible(def, s, run) && NoWrites(run) && OneAtATime(def, s, run)
    requires ReadersMoveWhatTheyRead(s, run, stale) && FacesUnparsable(def, s, stale)
    ensures Orderly(def, s, run)
    decreases |run|
  {
    if run != [] {
      var next := Next(def, s, run[0]);
      FirstMoveIsPolite(def, s, run, stale);
      StepFacesUnparsable(def, s, run[0], stale);
      RestMovesWhatItRead(def, s, run, stale);
      assert run[0] in run;
      OneAtATimeIsOrderly(def, next, run[1..], StaleAfter(next, run[0], stale));
    }
  }

  /** Without a lock file the in-process queue alone does, for one process at a time, restarts after crashes included. */
  lemma OneProcessNeedsNoLock<T(!new)>(def: Definition<T>, disk: Disk, run: seq<Action<T>>)
    requires Initial(disk) && !def.advisoryLock && Possible(def, Start(disk), run)
    requires NoWrites(run) && OneAtATime(def, Start(disk), run) && ReadersMoveWhatTheyRead(Start(disk), run, {})
    ensures var s := After(def, Start(disk), run);
      (forall c, d :: Critical(s, c) && Critical(s, d) ==> c == d) && FileIsFold(def, disk, s.disk, s.committed)
  {
    OneAtATimeIsOrderly(def, Start(disk), run, {});
    UpdatesAreNeverLost(def, disk, run);
  }

  // ---------------------------------------------------------------- the race for a stale lock

  ghost predicate Reached<T(!new)>(def: Definition<T>, disk: Disk, s: System<T>)
  {
    exists run :: Possible(def, Start(disk), run) && After(def, Start(disk), run) == s
  }

  lemma StartIsReached<T(!new)>(def: Definition<T>, disk: Disk)
    ensures Reached(def, disk, Start(disk))
  {
    assert Possible(def, Start(disk), []) && After(def, Start(disk), []) == Start(disk);
  }

  lemma Move<T(!new)>(def: Definition<T>, disk: Disk, s: System<T>, a: Action<T>, next: System<T>)
    requires Reached(def, disk, s) && Enabled(def, s, a) && next == Next(def, s, a)
    ensures Reached(def, disk, next)
  {
    var run :| Possible(def, Start(disk), run) && After(def, Start(disk), run) == s;
    assert [a][1..] == [];
    RunSplits(def, Start(disk), run, [a]);
  }

  /** Three processes are up. */
  ghost function Launched<T>(disk: Disk): System<T> { System(disk, None, {0, 1, 2}, {0, 1, 2}, map[], map[], []) }

  lemma LaunchedIsReached<T(!new)>(def: Definition<T>, disk: Disk)
    ensures Reached(def, disk, Launched(disk))
  {
    StartIsReached(def, disk);
    var s0: System<T> := Start(disk);
    var s1 := s0.(alive := {0}, used := {0});
    Move(def, disk, s0, Launch(0), s1);
    var s2 := s1.(alive := {0, 1}, used := {0, 1});
    Move(def, disk, s1, Launch(1), s2);
    Move(def, disk, s2, Launch(2), Launched(disk));
  }

  /** Each has one update; the first process's is at a given point, the others are queued. */
  ghost function Contended<T>(disk: Disk, job: Job<T>, first: Phase<T>, lock: Option<nat>): System<T>
  {
    System(disk, lock, {0, 1, 2}, {0, 1, 2}, map[0 := Call(0, job, first), 1 := Call(1, job, Queued), 2 := Call(2, job, Queued)],
           map[0 := [0], 1 := [1], 2 := [2]], [])
  }

  lemma AllQueued<T(!new)>(def: Definition<T>, disk: Disk, job: Job<T>)
    requires job.Update?
    ensures Reached(def, disk, Contended(disk, job, Queued, None))
  {
    LaunchedIsReached(def, disk);
    var s0: System<T> := Launched(disk);
    EmptyAppend([0 as nat]);
    EmptyAppend([1 as nat]);
    EmptyAppend([2 as nat]);
    var s1 := Entered(s0, 0, 0, job);
    assert s1.queues == map[0 := [0]];
    Move(def, disk, s0, Enqueue(0, 0, job), s1);
    var s2 := Entered(s1, 1, 1, job);
    assert s2.queues == map[0 := [0], 1 := [1]];
    Move(def, disk, s1, Enqueue(1, 1, job), s2);
    var s3 := Entered(s2, 2, 2, job);
    Move(def, disk, s2, Enqueue(2, 2, job), s3);
    assert s3.queues == map[0 := [0], 1 := [1], 2 := [2]];
    assert s3 == Contended(disk, job, Queued, None);
  }

  lemma GateAtFirst<T(!new)>(def: Definition<T>, disk: Disk, job: Job<T>, first: Phase<T>, lock: Option<nat>, gate: GateMove)
    requires Reached(def, disk, Contended(disk, job, first, lock)) && !gate.GiveUp? && !gate.Release?
    requires AtGate(Contended(disk, job, first, lock), 0, gate)
    ensures Reached(def, disk, Contended(disk, job, GatePhase(def, first, gate),
                                         GateLock(def, Contended(disk, job, first, lock), 0, gate)))
  {
    var s := Contended(disk, job, first, lock);
    var next := Contended(disk, job, GatePhase(def, first, gate), GateLock(def, s, 0, gate));
    assert next.calls == s.calls[0 := Call(0, job, GatePhase(def, first, gate))];
    assert next == Gated(def, s, 0, gate);
    Move(def, disk, s, Gate(0, gate), next);
  }

  lemma FirstHasLock<T(!new)>(def: Definition<T>, disk: Disk, job: Job<T>)
    requires def.advisoryLock && job.Update?
    ensures Reached(def, disk, Contended(disk, job, ToRead, Some(0)))
  {
    AllQueued(def, disk, job);
    GateAtFirst(def, disk, job, Queued, None, Begin);
    GateAtFirst(def, disk, job, Locking, None, Acquire);
  }

  /** The lock's owner has crashed and two live updates are waiting for the lock. */
  ghost function Orphaned<T>(disk: Disk, job: Job<T>, first: Phase<T>, second: Phase<T>, lock: Option<nat>): System<T>
  {
    System(disk, lock, {1, 2}, {0, 1, 2}, map[0 := Call(0, job, ToRead), 1 := Call(1, job, first), 2 := Call(2, job, second)],
           map[0 := [0], 1 := [1], 2 := [2]], [])
  }

  lemma GateAtOne<T(!new)>(
    def: Definition<T>, disk: Disk, job: Job<T>, first: Phase<T>, second: Phase<T>, lock: Option<nat>, gate: GateMove)
    requires Reached(def, disk, Orphaned(disk, job, first, second, lock)) && !gate.GiveUp? && !gate.Release?
    requires AtGate(Orphaned(disk, job, first, second, lock), 1, gate)
    ensures Reached(def, disk, Orphaned(disk, job, GatePhase(def, first, gate), second,
                                        GateLock(def, Orphaned(disk, job, first, second, lock), 1, gate)))
  {
    var s := Orphaned(disk, job, first, second, lock);
    var next := Orphaned(disk, job, GatePhase(def, first, gate), second, GateLock(def, s, 1, gate));
    assert next.calls == s.calls[1 := Call(1, job, GatePhase(def, first, gate))];
    assert next == Gated(def, s, 1, gate);
    Move(def, disk, s, Gate(1, gate), next);
  }

  lemma GateAtTwo<T(!new)>(
    def: Definition<T>, disk: Disk, job: Job<T>, first: Phase<T>, second: Phase<T>, lock: Option<nat>, gate: GateMove)
    requires Reached(def, disk, Orphaned(disk, job, first, second, lock)) && !gate.GiveUp? && !gate.Release?
    requires AtGate(Orphaned(disk, job, first, second, lock), 2, gate)
    ensures Reached(def, disk, Orphaned(disk, job, first, GatePhase(def, second, gate),
                                        GateLock(def, Orphaned(disk, job, first, second, lock), 2, gate)))
  {
    var s := Orphaned(disk, job, first, second, lock);
    var next := Orphaned(disk, job, first, GatePhase(def, second, gate), GateLock(def, s, 2, gate));
    assert next.calls == s.calls[2 := Call(2, job, GatePhase(def, second, gate))];
    assert next == Gated(def, s, 2, gate);
    Move(def, disk, s, Gate(2, gate), next);
  }

  lemma OrphanedIsReached<T(!new)>(def: Definition<T>, disk: Disk, job: Job<T>)
    requires def.advisoryLock && job.Update?
    ensures Reached(def, disk, Orphaned(disk, job, Queued, Queued, Some(0)))
  {
    FirstHasLock(def, disk, job);
    assert {0, 1, 2} - {0} == {1, 2};
    Move(def, disk, Contended(disk, job, ToRead, Some(0)), Crash(0), Orphaned(disk, job, Queued, Queued, Some(0)));
  }

  /**
   * The check for staleness and the removal are two steps. From the start, with any files and any update: two waiters
   * that both judge a lock left by a crashed process can both enter, since the second removal takes away the first
   * one's new lock.
   */
  lemma StaleRaceBreaksExclusion<T(!new)>(def: Definition<T>, disk: Disk, job: Job<T>)
    requires def.advisoryLock && job.Update?
    ensures exists s :: Reached(def, disk, s) && Critical(s, 1) && Critical(s, 2)
  {
    OrphanedIsReached(def, disk, job);
    GateAtOne(def, disk, job, Queued, Queued, Some(0), Begin);
    GateAtTwo(def, disk, job, Locking, Queued, Some(0), Begin);
    GateAtOne(def, disk, job, Locking, Locking, Some(0), JudgeStale);
    GateAtTwo(def, disk, job, Judged, Locking, Some(0), JudgeStale);
    GateAtTwo(def, disk, job, Judged, Judged, Some(0), RemoveStale);
    BothEnter(def, disk, job);
  }

  lemma BothEnter<T(!new)>(def: Definition<T>, disk: Disk, job: Job<T>)
    requires def.advisoryLock && job.Update? && Reached(def, disk, Orphaned(disk, job, Judged, Locking, None))
    ensures exists s :: Reached(def, disk, s) && Critical(s, 1) && Critical(s, 2)
  {
    GateAtTwo(def, disk, job, Judged, Locking, None, Acquire);
    GateAtOne(def, disk, job, Judged, ToRead, Some(2), RemoveStale);
    GateAtOne(def, disk, job, Locking, ToRead, None, Acquire);
    var s := Orphaned(disk, job, ToRead, ToRead, Some(1));
    assert Critical(s, 1) && Critical(s, 2);
  }

  // ---------------------------------------------------------------- a read outside the lock

  ghost function TwoCalls<T>(disk: Disk, reader: Phase<T>, next: T, writer: Phase<T>, committed: seq<Commitment<T>>): System<T>
  {
    System(disk, None, {0}, {0}, map[0 := Call(0, Reader, reader), 1 := Call(0, Writer(next), writer)], map[], committed)
  }

  /** A reader has seen unparsable content and is about to move it aside, while a write begins. */
  lemma ReaderIsAboutToMove<T(!new)>(def: Definition<T>, disk: Disk, next: T)
    requires disk.file.Some? && Unparsable(def, disk.file.value)
    ensures Reached(def, disk, TwoCalls(disk, ToQuarantine, next, ToWrite(next), []))
  {
    StartIsReached(def, disk);
    var s0: System<T> := Start(disk);
    var s1 := s0.(alive := {0}, used := {0});
    Move(def, disk, s0, Launch(0), s1);
    var s2 := s1.(calls := map[0 := Call(0, Reader, ToRead)]);
    Move(def, disk, s1, Enqueue(0, 0, Reader), s2);
    var s3 := s2.(calls := map[0 := Call(0, Reader, ToQuarantine)]);
    assert Done(def, s2, 0, ReadFile) == s3;
    Move(def, disk, s2, Do(0, ReadFile), s3);
    Move(def, disk, s3, Enqueue(1, 0, Writer(next)), TwoCalls(disk, ToQuarantine, next, ToWrite(next), []));
  }

  /** The disk with the complete bytes in a temporary file. */
  function WithTemp(disk: Disk, temp: nat, bytes: string): Disk
  {
    disk.(temps := disk.temps[temp := bytes], usedTemps := disk.usedTemps + {temp})
  }

  lemma WriteIsComplete<T(!new)>(def: Definition<T>, disk: Disk, next: T, temp: nat)
    requires disk.file.Some? && Unparsable(def, disk.file.value) && def.validate(next).Some? && temp !in disk.usedTemps
    ensures var bytes := def.show(def.validate(next).value);
      Reached(def, disk, TwoCalls(WithTemp(disk, temp, bytes), ToQuarantine, next, Writing(temp, bytes, |bytes|), []))
  {
    ReaderIsAboutToMove(def, disk, next);
    var bytes := def.show(def.validate(next).value);
    var s0 := TwoCalls(disk, ToQuarantine, next, ToWrite(next), []);
    var s1 := TwoCalls(WithTemp(disk, temp, ""), ToQuarantine, next, Writing(temp, bytes, 0), []);
    assert Done(def, s0, 1, StartWrite(temp)) == s1;
    Move(def, disk, s0, Do(1, StartWrite(temp)), s1);
    var s2 := TwoCalls(WithTemp(disk, temp, bytes), ToQuarantine, next, Writing(temp, bytes, |bytes|), []);
    assert bytes[..|bytes|] == bytes;
    assert disk.temps[temp := ""][temp := bytes] == disk.temps[temp := bytes];
    assert Done(def, s1, 1, WriteBytes(|bytes|)) == s2;
    Move(def, disk, s1, Do(1, WriteBytes(|bytes|)), s2);
  }

  /**
   * `read` takes no lock, and finds out that content is unparsable before it moves the file. A write that resolves in
   * between is moved aside in its place: the write is committed and resolved, and the file is gone.
   */
  lemma ReadMovesFreshWriteAside<T(!new)>(def: Definition<T>, disk: Disk, next: T, temp: nat, name: string)
    requires disk.file.Some? && Unparsable(def, disk.file.value) && def.validate(next).Some? && temp !in disk.usedTemps
    requires name !in disk.aside && name !in disk.moved && def.quarantinePrefix <= name
    ensures exists s ::
      Reached(def, disk, s) && s.disk.file == None && s.committed == [Commitment(1, Writer(next))] &&
      1 in s.calls && s.calls[1].phase == Over(true) && MovedOnce(s.disk, def.show(def.validate(next).value))
  {
    WriteIsCommitted(def, disk, next, temp);
    var bytes := def.show(def.validate(next).value);
    var committed := [Commitment(1, Writer(next))];
    var s0 := TwoCalls(Renamed(disk, temp, bytes), ToQuarantine, next, Over(true), committed);
    var s1 := TwoCalls(MovedAside(Renamed(disk, temp, bytes), name), ToList, next, Over(true), committed);
    assert Done(def, s0, 0, Quarantine(name)) == s1;
    Move(def, disk, s0, Do(0, Quarantine(name)), s1);
    assert name in s1.disk.moved && s1.disk.moved[name] == bytes;
  }

  function Renamed(disk: Disk, temp: nat, bytes: string): Disk
  {
    WithTemp(disk, temp, bytes).(file := Some(bytes), mtime := 0, temps := WithTemp(disk, temp, bytes).temps - {temp})
  }

  lemma WriteIsCommitted<T(!new)>(def: Definition<T>, disk: Disk, next: T, temp: nat)
    requires disk.file.Some? && Unparsable(def, disk.file.value) && def.validate(next).Some? && temp !in disk.usedTemps
    ensures var bytes := def.show(def.validate(next).value);
      Reached(def, disk, TwoCalls(Renamed(disk, temp, bytes), ToQuarantine, next, Over(true), [Commitment(1, Writer(next))]))
  {
    WriteIsComplete(def, disk, next, temp);
    var bytes := def.show(def.validate(next).value);
    var committed := [Commitment(1, Writer(next))];
    var s0 := TwoCalls(WithTemp(disk, temp, bytes), ToQuarantine, next, Writing(temp, bytes, |bytes|), []);
    var s1 := TwoCalls(Renamed(disk, temp, bytes), ToQuarantine, next, Over(true), committed);
    EmptyAppend(committed);
    assert Done(def, s0, 1, Rename(0)) == s1;
    Move(def, disk, s0, Do(1, Rename(0)), s1);
  }
}
