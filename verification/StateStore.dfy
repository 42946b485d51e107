/**
 * The JSON state store: any number of processes calling `update`, `read` and `write` on one file, crashing at any
 * point. A step is what happens between two awaits or system calls.
 */
module StateStore {
  import opened Text
  import QuarantineCleanup

  datatype Parsed<T> = Value(value: T) | BadJson | BadSchema

  /** What a store definition supplies; `validate` is the schema applied to the JSON round trip of a value. */
  datatype Definition<!T> = Definition(
    parse: string -> Parsed<T>,
    validate: T -> Option<T>,
    show: T -> string,
    default: T,
    failClosed: bool,
    interruptedWriteDefault: bool,
    advisoryLock: bool,
    quarantinePrefix: string,
    quarantineRetention: nat)

  type Updater<!T> = T -> Option<T>

  datatype Reading<T> = Usable(value: T) | Refused | Quarantined

  predicate EmptyOrNulOnly(content: string)
  {
    forall c :: c in content ==> c == '\0'
  }

  /** What `read` makes of the content: `None` is a missing file, `Quarantined` content is moved aside. */
  function Read<T>(def: Definition<T>, file: Option<string>): Reading<T>
  {
    if file.None? then Usable(def.default)
    else if EmptyOrNulOnly(file.value) then
      if def.failClosed && !def.interruptedWriteDefault then Refused else Usable(def.default)
    else
      match def.parse(file.value)
      case Value(v) => Usable(v)
      case _ => if def.failClosed then Refused else Quarantined
  }

  /** The value an update sees, if the read does not fail. */
  function ValueOf<T>(def: Definition<T>, file: Option<string>): Option<T>
  {
    match Read(def, file)
    case Usable(v) => Some(v)
    case Refused => None
    case Quarantined => Some(def.default)
  }

  // ---------------------------------------------------------------- the disk and one call's work on it

  datatype Aside = Aside(content: string, mtime: int)

  /**
   * The state file, the temporary files, and the quarantine files. `usedTemps` holds every temporary name ever drawn,
   * `moved` the content of every file ever moved aside, `swept` the quarantine files removed by a cleanup.
   */
  datatype Disk = Disk(
    file: Option<string>,
    mtime: int,
    temps: map<nat, string>,
    usedTemps: set<nat>,
    aside: map<string, Aside>,
    moved: map<string, string>,
    swept: set<string>)

  /** The public calls. */
  datatype Job<!T> = Update(update: Updater<T>) | Reader | Writer(next: T)

  /**
   * Where a call stands: queued in its process, trying for the lock, about to remove a lock it judged stale, at work
   * on the file, about to release, or over. A call that is over has resolved or rejected.
   */
  datatype Phase<T> =
    | Queued
    | Locking
    | Judged
    | ToRead
    | ToQuarantine
    | ToList
    | Sweeping(victims: set<string>)
    | ToRun(current: T)
    | ToWrite(next: T)
    | Writing(temp: nat, bytes: string, written: nat)
    | ToRelease(ok: bool)
    | Over(resolved: bool)

  /** The steps around the critical section. */
  datatype GateMove = Begin | Acquire | JudgeStale | RemoveStale | GiveUp | Release

  /** The steps of a call at work on the disk. */
  datatype Deed =
    | ReadFile
    | Quarantine(name: string)
    | List(entries: seq<string>)
    | RemoveAside(name: string)
    | SweepDone
    | RunUpdater
    | CleanTemps(temps: set<nat>)
    | StartWrite(temp: nat)
    | WriteBytes(count: nat)
    | Rename(mtime: int)
    | Fail

  datatype Action<!T> =
    | Launch(pid: nat)
    | Crash(pid: nat)
    | Enqueue(call: nat, pid: nat, job: Job<T>)
    | Gate(call: nat, gate: GateMove)
    | Do(call: nat, deed: Deed)

  predicate Working<T>(phase: Phase<T>)
  {
    phase.ToRead? || phase.ToQuarantine? || phase.ToList? || phase.Sweeping? || phase.ToRun? || phase.ToWrite? || phase.Writing?
  }

  /** An update goes on to release its lock, the other calls are over. */
  function End<T>(job: Job<T>, ok: bool): Phase<T>
  {
    if job.Update? then ToRelease(ok) else Over(ok)
  }

  /** An update goes on with the value read, a reader returns it. */
  function WithValue<T>(job: Job<T>, value: T): Phase<T>
  {
    if job.Update? then ToRun(value) else End(job, true)
  }

  function Times(aside: map<string, Aside>): map<string, int>
  {
    map name | name in aside :: aside[name].mtime
  }

  /** Which steps on the disk a call can take. */
  ghost predicate CanWork<T>(def: Definition<T>, disk: Disk, job: Job<T>, phase: Phase<T>, a: Deed)
  {
    match a
    case ReadFile => phase.ToRead?
    case Quarantine(name) => phase.ToQuarantine? && name !in disk.aside && name !in disk.moved && def.quarantinePrefix <= name
    case List(entries) => phase.ToList? && QuarantineCleanup.Listing(Times(disk.aside), entries)
    case RemoveAside(name) => phase.Sweeping? && name in phase.victims
    case SweepDone => phase.Sweeping? && phase.victims == {}
    case RunUpdater => phase.ToRun? && job.Update?
    case CleanTemps(_) => phase.ToWrite?
    case StartWrite(temp) => phase.ToWrite? && temp !in disk.usedTemps
    case WriteBytes(count) => phase.Writing? && count <= |phase.bytes| && phase.temp in disk.temps
    case Rename(_) => phase.Writing? && phase.written == |phase.bytes| && phase.temp in disk.temps
    case Fail => Working(phase)
  }

  /** What a step of a working call leaves behind; `commits` when it renamed its bytes into place. */
  datatype Progress<T> = Progress(disk: Disk, phase: Phase<T>, commits: bool)

  ghost function Work<T>(def: Definition<T>, disk: Disk, job: Job<T>, phase: Phase<T>, a: Deed): Progress<T>
    requires CanWork(def, disk, job, phase, a)
  {
    match a
    case ReadFile =>
      (match Read(def, disk.file)
       case Usable(v) => Progress(disk, WithValue(job, v), false)
       case Refused => Progress(disk, End(job, false), false)
       case Quarantined => Progress(disk, ToQuarantine, false))
    case Quarantine(name) =>
      if disk.file.None? then Progress(disk, End(job, false), false)
      else
        Progress(disk.(file := None, aside := disk.aside[name := Aside(disk.file.value, disk.mtime)],
                       moved := disk.moved[name := disk.file.value]), ToList, false)
    case List(entries) =>
      var victims := QuarantineCleanup.Victims(Times(disk.aside), entries, def.quarantinePrefix, def.quarantineRetention);
      Progress(disk, Sweeping(QuarantineCleanup.NameSet(victims)), false)
    case RemoveAside(name) =>
      Progress(disk.(aside := disk.aside - {name}, swept := disk.swept + {name}), Sweeping(phase.victims - {name}), false)
    case SweepDone => Progress(disk, WithValue(job, def.default), false)
    case RunUpdater =>
      var next := job.update(phase.current);
      Progress(disk, if next.None? then End(job, false) else ToWrite(next.value), false)
    case CleanTemps(temps) => Progress(disk.(temps := disk.temps - temps), phase, false)
    case StartWrite(temp) =>
      var valid := def.validate(phase.next);
      if valid.None? then Progress(disk, End(job, false), false)
      else
        Progress(disk.(temps := disk.temps[temp := ""], usedTemps := disk.usedTemps + {temp}),
                 Writing(temp, def.show(valid.value), 0), false)
    case WriteBytes(count) =>
      Progress(disk.(temps := disk.temps[phase.temp := phase.bytes[..count]]), phase.(written := count), false)
    case Rename(mtime) =>
      Progress(disk.(file := Some(disk.temps[phase.temp]), mtime := mtime, temps := disk.temps - {phase.temp}),
               End(job, true), true)
    case Fail =>
      Progress(if phase.Writing? then disk.(temps := disk.temps - {phase.temp}) else disk, End(job, false), false)
  }

  // ---------------------------------------------------------------- the transition system

  datatype Call<!T> = Call(pid: nat, job: Job<T>, phase: Phase<T>)

  datatype Commitment<!T> = Commitment(call: nat, job: Job<T>)

  /** `committed` is the history of calls whose bytes were renamed into place. */
  datatype System<!T> = System(
    disk: Disk,
    lock: Option<nat>,
    alive: set<nat>,
    used: set<nat>,
    calls: map<nat, Call<T>>,
    queues: map<nat, seq<nat>>,
    committed: seq<Commitment<T>>)

  function QueueOf<T>(s: System<T>, pid: nat): seq<nat>
  {
    if pid in s.queues then s.queues[pid] else []
  }

  predicate Running<T>(s: System<T>, c: nat)
  {
    c in s.calls && s.calls[c].pid in s.alive
  }

  function SetPhase<T>(s: System<T>, c: nat, phase: Phase<T>): System<T>
    requires c in s.calls
  {
    s.(calls := s.calls[c := s.calls[c].(phase := phase)])
  }

  /** Which steps around the critical section a call can take. */
  predicate AtGate<T>(s: System<T>, c: nat, gate: GateMove)
    requires c in s.calls
  {
    var call := s.calls[c];
    match gate
    case Begin => call.phase.Queued? && QueueOf(s, call.pid) != [] && QueueOf(s, call.pid)[0] == c
    case Acquire => call.phase.Locking? && s.lock.None?
    case JudgeStale => call.phase.Locking? && s.lock.Some? && s.lock.value !in s.alive
    case RemoveStale => call.phase.Judged?
    case GiveUp => call.phase.Locking?
    case Release => call.phase.ToRelease?
  }

  ghost predicate CanDo<T>(def: Definition<T>, s: System<T>, c: nat, deed: Deed)
    requires c in s.calls
  {
    CanWork(def, s.disk, s.calls[c].job, s.calls[c].phase, deed)
  }

  ghost predicate Enabled<T>(def: Definition<T>, s: System<T>, a: Action<T>)
  {
    match a
    case Launch(pid) => pid !in s.used
    case Crash(pid) => pid in s.alive
    case Enqueue(c, pid, _) => c !in s.calls && pid in s.alive
    case Gate(c, gate) => Running(s, c) && AtGate(s, c, gate)
    case Do(c, deed) => Running(s, c) && CanDo(def, s, c, deed)
  }

  /** Updates queue up in their process; readers and writers start at once. */
  function FirstPhase<T>(job: Job<T>): Phase<T>
  {
    match job
    case Update(_) => Queued
    case Reader => ToRead
    case Writer(next) => ToWrite(next)
  }

  function Entered<T>(s: System<T>, c: nat, pid: nat, job: Job<T>): System<T>
  {
    s.(calls := s.calls[c := Call(pid, job, FirstPhase(job))],
       queues := if job.Update? then s.queues[pid := QueueOf(s, pid) + [c]] else s.queues)
  }

  function GatePhase<T>(def: Definition<T>, phase: Phase<T>, gate: GateMove): Phase<T>
  {
    match gate
    case Begin => if def.advisoryLock then Locking else ToRead
    case Acquire => ToRead
    case JudgeStale => Judged
    case RemoveStale => Locking
    case GiveUp => Over(false)
    case Release => Over(phase.ToRelease? && phase.ok)
  }

  function GateLock<T>(def: Definition<T>, s: System<T>, pid: nat, gate: GateMove): Option<nat>
  {
    if gate.Acquire? then Some(pid)
    else if gate.RemoveStale? || (gate.Release? && def.advisoryLock) then None
    else s.lock
  }

  /** A settled update lets the next one of its process in. */
  function GateQueues<T>(s: System<T>, pid: nat, gate: GateMove): map<nat, seq<nat>>
  {
    var queue := QueueOf(s, pid);
    if gate.GiveUp? || gate.Release? then s.queues[pid := if queue == [] then [] else queue[1..]] else s.queues
  }

  function Gated<T>(def: Definition<T>, s: System<T>, c: nat, gate: GateMove): System<T>
    requires c in s.calls
  {
    var call := s.calls[c];
    SetPhase(s, c, GatePhase(def, call.phase, gate)).(lock := GateLock(def, s, call.pid, gate), queues := GateQueues(s, call.pid, gate))
  }

  ghost function Done<T>(def: Definition<T>, s: System<T>, c: nat, deed: Deed): System<T>
    requires c in s.calls && CanDo(def, s, c, deed)
  {
    Advanced(s, c, Work(def, s.disk, s.calls[c].job, s.calls[c].phase, deed))
  }

  /** The system after a call's progress. */
  function Advanced<T>(s: System<T>, c: nat, work: Progress<T>): System<T>
    requires c in s.calls
  {
    SetPhase(s, c, work.phase).(
      disk := work.disk,
      committed := if work.commits then s.committed + [Commitment(c, s.calls[c].job)] else s.committed)
  }

  ghost function Next<T>(def: Definition<T>, s: System<T>, a: Action<T>): System<T>
    requires Enabled(def, s, a)
  {
    match a
    case Launch(pid) => s.(alive := s.alive + {pid}, used := s.used + {pid})
    case Crash(pid) => s.(alive := s.alive - {pid})
    case Enqueue(c, pid, job) => Entered(s, c, pid, job)
    case Gate(c, gate) => Gated(def, s, c, gate)
    case Do(c, deed) => Done(def, s, c, deed)
  }

  /** Everything about the system at the start: no process, no lock, and any files at all. */
  ghost predicate Initial(disk: Disk)
  {
    disk.moved == map[] && disk.swept == {}
  }

  function Start<T>(disk: Disk): System<T>
  {
    System(disk, None, {}, {}, map[], map[], [])
  }

  /** A run whose every step can be taken. */
  ghost predicate Possible<T(!new)>(def: Definition<T>, s: System<T>, run: seq<Action<T>>)
    decreases |run|
  {
    run == [] || (Enabled(def, s, run[0]) && Possible(def, Next(def, s, run[0]), run[1..]))
  }

  ghost function After<T(!new)>(def: Definition<T>, s: System<T>, run: seq<Action<T>>): System<T>
    requires Possible(def, s, run)
    decreases |run|
  {
    if run == [] then s else After(def, Next(def, s, run[0]), run[1..])
  }

  lemma {:induction false} RunSplits<T(!new)>(def: Definition<T>, s: System<T>, first: seq<Action<T>>, rest: seq<Action<T>>)
    requires Possible(def, s, first) && Possible(def, After(def, s, first), rest)
    ensures Possible(def, s, first + rest) && After(def, s, first + rest) == After(def, After(def, s, first), rest)
    decreases |first|
  {
    if first == [] {
      EmptyAppend(rest);
    } else {
      assert (first + rest)[1..] == first[1..] + rest && (first + rest)[0] == first[0];
      RunSplits(def, Next(def, s, first[0]), first[1..], rest);
    }
  }
}
