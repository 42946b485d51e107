/** What every run of the state store keeps, with or without a lock: whole files, quarantined content, one commit per call. */
module StoreCrashes {
  import opened Text
  import opened StateStore
  import opened QuarantineCleanup

  // ---------------------------------------------------------------- whole files

  /** The bytes are the complete print of a validated value. */
  ghost predicate CompleteBytes<T(!new)>(def: Definition<T>, bytes: string)
  {
    exists next: T, valid: T :: def.validate(next) == Some(valid) && bytes == def.show(valid)
  }

  /** A writer's bytes are complete and its temporary file holds what it has written of them so far. */
  ghost predicate CallWhole<T(!new)>(def: Definition<T>, disk: Disk, phase: Phase<T>)
  {
    (phase.Writing? ==>
      CompleteBytes(def, phase.bytes) && phase.written <= |phase.bytes| && phase.temp in disk.usedTemps &&
      (phase.temp in disk.temps ==> disk.temps[phase.temp] == phase.bytes[..phase.written])) &&
    (phase.ToQuarantine? || phase.ToList? || phase.Sweeping? ==> !def.failClosed)
  }

  /** No two calls write to one temporary file. */
  predicate Apart<T>(a: Phase<T>, b: Phase<T>) { a.Writing? && b.Writing? ==> a.temp != b.temp }

  /** The file is as it was, or a complete print, or has been moved aside. */
  ghost predicate FileWhole<T(!new)>(def: Definition<T>, start: Disk, disk: Disk)
  {
    disk.file == start.file ||
    (disk.file.Some? && CompleteBytes(def, disk.file.value)) ||
    (disk.file.None? && !def.failClosed && disk.moved != map[])
  }

  /** What was moved aside was whole, and is still there unless a cleanup removed it; other quarantine files are as they were. */
  ghost predicate AsideWhole<T(!new)>(def: Definition<T>, start: Disk, disk: Disk)
  {
    (forall name :: name in disk.moved ==>
      (start.file == Some(disk.moved[name]) || CompleteBytes(def, disk.moved[name])) &&
      (if name in disk.aside then disk.aside[name].content == disk.moved[name] else name in disk.swept)) &&
    (forall name :: name in disk.aside && name !in disk.moved ==> name in start.aside && disk.aside[name] == start.aside[name]) &&
    (forall name :: name in start.aside ==> name in disk.aside || name in disk.swept) &&
    (def.failClosed ==> disk.moved == map[] && disk.swept == {})
  }

  ghost predicate DiskWhole<T(!new)>(def: Definition<T>, start: Disk, disk: Disk)
  {
    FileWhole(def, start, disk) && AsideWhole(def, start, disk)
  }

  ghost predicate Whole<T(!new)>(def: Definition<T>, start: Disk, s: System<T>)
  {
    DiskWhole(def, start, s.disk) && (forall c :: c in s.calls ==> CallWhole(def, s.disk, s.calls[c].phase)) &&
    (forall c, d :: c in s.calls && d in s.calls && c != d ==> Apart(s.calls[c].phase, s.calls[d].phase))
  }

  lemma WorkKeepsCallWhole<T(!new)>(def: Definition<T>, disk: Disk, job: Job<T>, phase: Phase<T>, a: Deed)
    requires CallWhole(def, disk, phase) && CanWork(def, disk, job, phase, a)
    ensures var work := Work(def, disk, job, phase, a);
      CallWhole(def, work.disk, work.phase)
  {
    if a.StartWrite? && def.validate(phase.next).Some? {
      assert def.validate(phase.next) == Some(def.validate(phase.next).value);
    }
  }

  lemma WorkKeepsOthersWhole<T(!new)>(
    def: Definition<T>, disk: Disk, job: Job<T>, phase: Phase<T>, a: Deed, other: Phase<T>)
    requires CallWhole(def, disk, phase) && CallWhole(def, disk, other) && Apart(phase, other)
    requires CanWork(def, disk, job, phase, a)
    ensures var work := Work(def, disk, job, phase, a);
      CallWhole(def, work.disk, other) && Apart(work.phase, other)
  {
  }

  /** What a rename puts into place is complete. */
  lemma RenamedBytes<T(!new)>(def: Definition<T>, disk: Disk, job: Job<T>, phase: Phase<T>, a: Deed)
    requires CallWhole(def, disk, phase) && a.Rename? && CanWork(def, disk, job, phase, a)
    ensures Work(def, disk, job, phase, a).disk.file == Some(phase.bytes) && CompleteBytes(def, phase.bytes)
  {
    assert phase.bytes[..phase.written] == phase.bytes;
  }

  /**
   * Each step of a call leaves the file alone, replaces it by complete validated bytes, or (never in fail-closed
   * mode) moves it aside as it is. A half-written temporary file, a failed write and a crash are of the first kind.
   */
  lemma FileChangesWhole<T(!new)>(def: Definition<T>, disk: Disk, job: Job<T>, phase: Phase<T>, a: Deed)
    requires CallWhole(def, disk, phase) && CanWork(def, disk, job, phase, a)
    ensures var next := Work(def, disk, job, phase, a).disk;
      (next.file == disk.file && next.moved == disk.moved) ||
      (a.Rename? && next.file.Some? && CompleteBytes(def, next.file.value) && next.moved == disk.moved) ||
      (a.Quarantine? && !def.failClosed && disk.file.Some? && next.file.None? &&
       next.moved == disk.moved[a.name := disk.file.value])
  {
    if a.Rename? {
      RenamedBytes(def, disk, job, phase, a);
    }
  }

  lemma WorkKeepsDiskWhole<T(!new)>(
    def: Definition<T>, start: Disk, disk: Disk, job: Job<T>, phase: Phase<T>, a: Deed)
    requires CallWhole(def, disk, phase) && DiskWhole(def, start, disk) && CanWork(def, disk, job, phase, a)
    ensures DiskWhole(def, start, Work(def, disk, job, phase, a).disk)
  {
    FileChangesWhole(def, disk, job, phase, a);
    var next := Work(def, disk, job, phase, a).disk;
    if a.Quarantine? && disk.file.Some? {
      QuarantineKeepsWhole(def, start, disk, a.name);
      assert next == MovedAside(disk, a.name);
    } else if a.RemoveAside? {
      assert next.moved == disk.moved && next.aside == disk.aside - {a.name} && next.swept == disk.swept + {a.name};
    } else {
      assert next.moved == disk.moved && next.aside == disk.aside && next.swept == disk.swept;
    }
  }

  function MovedAside(disk: Disk, name: string): Disk
    requires disk.file.Some?
  {
    disk.(file := None, aside := disk.aside[name := Aside(disk.file.value, disk.mtime)], moved := disk.moved[name := disk.file.value])
  }

  lemma QuarantineKeepsWhole<T(!new)>(def: Definition<T>, start: Disk, disk: Disk, name: string)
    requires DiskWhole(def, start, disk) && disk.file.Some? && !def.failClosed && name !in disk.moved && name !in disk.aside
    ensures DiskWhole(def, start, MovedAside(disk, name))
  {
    assert name in MovedAside(disk, name).moved;
  }

  /** The phases that `Whole` says something about. */
  predicate Pending<T>(phase: Phase<T>) { phase.Writing? || phase.ToQuarantine? || phase.ToList? || phase.Sweeping? }

  lemma CallChangeKeepsWhole<T(!new)>(def: Definition<T>, start: Disk, s: System<T>, next: System<T>, c: nat, call: Call<T>)
    requires Whole(def, start, s) && next.disk == s.disk && next.calls == s.calls[c := call] && !Pending(call.phase)
    ensures Whole(def, start, next)
  {
  }

  lemma ProgressKeepsWhole<T(!new)>(def: Definition<T>, start: Disk, s: System<T>, c: nat, work: Progress<T>)
    requires Whole(def, start, s) && c in s.calls
    requires DiskWhole(def, start, work.disk) && CallWhole(def, work.disk, work.phase)
    requires forall d :: d in s.calls && d != c ==>
      CallWhole(def, work.disk, s.calls[d].phase) && Apart(work.phase, s.calls[d].phase)
    ensures Whole(def, start, Advanced(s, c, work))
  {
    var next := Advanced(s, c, work);
    forall d, e | d in next.calls && e in next.calls && d != e ensures Apart(next.calls[d].phase, next.calls[e].phase) {
      if d != c && e != c {
        assert Apart(s.calls[d].phase, s.calls[e].phase);
      }
    }
  }

  lemma DeedKeepsWhole<T(!new)>(def: Definition<T>, start: Disk, s: System<T>, c: nat, deed: Deed)
    requires Whole(def, start, s) && c in s.calls && CanDo(def, s, c, deed)
    ensures Whole(def, start, Done(def, s, c, deed))
  {
    var call := s.calls[c];
    var work := Work(def, s.disk, call.job, call.phase, deed);
    WorkKeepsDiskWhole(def, start, s.disk, call.job, call.phase, deed);
    WorkKeepsCallWhole(def, s.disk, call.job, call.phase, deed);
    forall d | d in s.calls && d != c
      ensures CallWhole(def, work.disk, s.calls[d].phase) && Apart(work.phase, s.calls[d].phase)
    {
      assert Apart(call.phase, s.calls[d].phase);
      WorkKeepsOthersWhole(def, s.disk, call.job, call.phase, deed, s.calls[d].phase);
    }
    ProgressKeepsWhole(def, start, s, c, work);
  }

  lemma StepKeepsWhole<T(!new)>(def: Definition<T>, start: Disk, s: System<T>, a: Action<T>)
    requires Whole(def, start, s) && Enabled(def, s, a)
    ensures Whole(def, start, Next(def, s, a))
  {
    var next := Next(def, s, a);
    if a.Do? {
      DeedKeepsWhole(def, start, s, a.call, a.deed);
    } else if a.Enqueue? || a.Gate? {
      CallChangeKeepsWhole(def, start, s, next, a.call, next.calls[a.call]);
    }
  }

  lemma {:induction false} RunKeepsWhole<T(!new)>(def: Definition<T>, start: Disk, s: System<T>, run: seq<Action<T>>)
    requires Whole(def, start, s) && Possible(def, s, run)
    ensures Whole(def, start, After(def, s, run))
    decreases |run|
  {
    if run != [] {
      StepKeepsWhole(def, start, s, run[0]);
      RunKeepsWhole(def, start, Next(def, s, run[0]), run[1..]);
    }
  }

  /**
   * At every point of every run, hence wherever a process crashes, whatever the lock policy and whatever races there
   * are: the file holds its first content or the complete bytes of a validated value, or it has been moved aside;
   * what was moved aside was such content and lies in its quarantine file unless a cleanup removed that; and in
   * fail-closed mode nothing is ever moved or removed.
   */
  lemma EveryCrashPointIsWhole<T(!new)>(def: Definition<T>, disk: Disk, run: seq<Action<T>>)
    requires Initial(disk) && Possible(def, Start(disk), run)
    ensures DiskWhole(def, disk, After(def, Start(disk), run).disk)
  {
    RunKeepsWhole(def, disk, Start(disk), run);
  }

  // ---------------------------------------------------------------- which quarantine file survives

  /**
   * The cleanup after a move spares a quarantine file, the one just moved included, exactly when fewer than
   * `retention` others are newer than it or equally new and listed earlier.
   */
  lemma SweepSparesIff<T(!new)>(def: Definition<T>, disk: Disk, job: Job<T>, phase: Phase<T>, a: Deed, name: string)
    requires a.List? && CanWork(def, disk, job, phase, a) && name in disk.aside && def.quarantinePrefix <= name
    ensures name !in Work(def, disk, job, phase, a).phase.victims <==>
      |Ahead(Times(disk.aside), a.entries, def.quarantinePrefix, name)| < def.quarantineRetention
  {
    SurvivesIff(Times(disk.aside), a.entries, def.quarantinePrefix, def.quarantineRetention, name);
  }

  // ---------------------------------------------------------------- one commit per resolved call

  function Commits<T>(committed: seq<Commitment<T>>, c: nat): nat
  {
    if committed == [] then 0
    else Commits(committed[..|committed| - 1], c) + if committed[|committed| - 1].call == c then 1 else 0
  }

  lemma CommitsGrow<T>(committed: seq<Commitment<T>>, last: Commitment<T>, c: nat)
    ensures Commits(committed + [last], c) == Commits(committed, c) + if last.call == c then 1 else 0
  {
    assert (committed + [last])[..|committed|] == committed;
  }

  /** A reader never gets to write, a writer never gets to read. */
  predicate PhaseFits<T>(job: Job<T>, phase: Phase<T>)
  {
    (job.Reader? ==> phase.ToRead? || phase.ToQuarantine? || phase.ToList? || phase.Sweeping? || phase.Over?) &&
    (job.Writer? ==> phase.ToWrite? || phase.Writing? || phase.Over?)
  }

  /** The call has succeeded, as far as the file is concerned. */
  predicate Succeeded<T>(phase: Phase<T>) { phase == ToRelease(true) || phase == Over(true) }

  /** An update or write has put its bytes into place exactly once when it has succeeded, and never otherwise. */
  ghost predicate CommittedOnce<T(!new)>(s: System<T>)
  {
    (forall c :: c in s.calls ==> PhaseFits(s.calls[c].job, s.calls[c].phase)) &&
    (forall c :: Commits(s.committed, c) ==
      if c in s.calls && Settled(s.calls[c]) then 1 else 0)
  }

  lemma WorkCommits<T(!new)>(def: Definition<T>, disk: Disk, job: Job<T>, phase: Phase<T>, a: Deed)
    requires CanWork(def, disk, job, phase, a) && PhaseFits(job, phase)
    ensures var work := Work(def, disk, job, phase, a);
      PhaseFits(job, work.phase) && !Succeeded(phase) && (work.commits <==> !job.Reader? && Succeeded(work.phase))
  {
  }

  predicate Settled<T>(call: Call<T>) { !call.job.Reader? && Succeeded(call.phase) }

  lemma CallChangeKeepsCommits<T(!new)>(s: System<T>, next: System<T>, c: nat, call: Call<T>)
    requires CommittedOnce(s) && next.calls == s.calls[c := call] && PhaseFits(call.job, call.phase)
    requires var settles := Settled(call) && !(c in s.calls && Settled(s.calls[c]));
      (c in s.calls && Settled(s.calls[c]) ==> Settled(call)) &&
      next.committed == if settles then s.committed + [Commitment(c, call.job)] else s.committed
    ensures CommittedOnce(next)
  {
    forall d {
      CommitsGrow(s.committed, Commitment(c, call.job), d);
    }
  }

  lemma DeedKeepsCommits<T(!new)>(def: Definition<T>, s: System<T>, c: nat, deed: Deed)
    requires CommittedOnce(s) && c in s.calls && CanDo(def, s, c, deed)
    ensures CommittedOnce(Done(def, s, c, deed))
  {
    var call := s.calls[c];
    var work := Work(def, s.disk, call.job, call.phase, deed);
    WorkCommits(def, s.disk, call.job, call.phase, deed);
    CallChangeKeepsCommits(s, Advanced(s, c, work), c, call.(phase := work.phase));
  }

  lemma StepKeepsCommits<T(!new)>(def: Definition<T>, s: System<T>, a: Action<T>)
    requires CommittedOnce(s) && Enabled(def, s, a)
    ensures CommittedOnce(Next(def, s, a))
  {
    var next := Next(def, s, a);
    if a.Do? {
      DeedKeepsCommits(def, s, a.call, a.deed);
    } else if a.Enqueue? || a.Gate? {
      CallChangeKeepsCommits(s, next, a.call, next.calls[a.call]);
    }
  }

  lemma {:induction false} RunKeepsCommits<T(!new)>(def: Definition<T>, s: System<T>, run: seq<Action<T>>)
    requires CommittedOnce(s) && Possible(def, s, run)
    ensures CommittedOnce(After(def, s, run))
    decreases |run|
  {
    if run != [] {
      StepKeepsCommits(def, s, run[0]);
      RunKeepsCommits(def, Next(def, s, run[0]), run[1..]);
    }
  }

  /** In every run, a call that resolved was committed exactly once (unless it only reads), one that rejected never. */
  lemma ResolvedIsCommittedOnce<T(!new)>(def: Definition<T>, disk: Disk, run: seq<Action<T>>, c: nat)
    requires Possible(def, Start(disk), run)
    ensures var s := After(def, Start(disk), run);
      c in s.calls && s.calls[c].phase.Over? ==>
        Commits(s.committed, c) == if s.calls[c].phase.resolved && !s.calls[c].job.Reader? then 1 else 0
  {
    RunKeepsCommits(def, Start(disk), run);
  }
}
