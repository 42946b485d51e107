/**
 * The git status reader's worker pool: `limit` workers share one cursor over the directories and one byte
 * budget for diffs. A step is what a worker does between two awaits.
 */
module GitStatusPool {

  const GIT_CONCURRENCY: nat := 4
  const AGGREGATE_DIFF_MAX_BYTES := 8 * 1024 * 1024

  function Min(a: int, b: int): int { if a < b then a else b }
  function Max(a: int, b: int): int { if a < b then b else a }

  /** `slack` is how far a truncated diff can exceed its budget when its last character is replaced. */
  datatype Input = Input(directories: nat, maxDiffBytes: nat, slack: nat)

  function Aggregate(input: Input): (bytes: int)
    ensures 0 <= bytes <= 8388608 && bytes <= 2 * (input.maxDiffBytes * input.directories)
    ensures bytes == 8388608 || bytes == 2 * (input.maxDiffBytes * input.directories)
  {
    Min(input.maxDiffBytes * input.directories * 2, AGGREGATE_DIFF_MAX_BYTES)
  }

  /** Testing the cursor; inside a directory with the budget read at its start; between return and store; finished. */
  datatype Worker = Looping | Reading(index: nat, budget: int) | Storing(index: nat, result: string) | Finished

  /** `taken`, `returned` and `bytes` are histories: directories begun, results returned, diff bytes produced. */
  datatype Pool = Pool(
    cursor: nat,
    remaining: int,
    workers: seq<Worker>,
    outputs: map<nat, string>,
    taken: seq<nat>,
    returned: map<nat, string>,
    bytes: int)

  function Start(input: Input): (p: Pool)
    ensures |p.workers| == if input.directories < 4 then input.directories else 4
  {
    Pool(0, Aggregate(input), seq(Min(GIT_CONCURRENCY, input.directories), _ => Looping), map[], [], map[], 0)
  }

  /** What `readDiff` can report: nothing without a budget, otherwise at most the budget and the slack. */
  predicate DiffFits(input: Input, budget: int, used: int)
  {
    if budget <= 0 then used == 0 else 0 <= used <= budget + input.slack
  }

  /** The staged diff first, then the unstaged diff out of what is left. */
  predicate DiffsFit(input: Input, budget: int, staged: int, unstaged: int)
  {
    DiffFits(input, Min(input.maxDiffBytes, budget), staged) &&
    DiffFits(input, Min(input.maxDiffBytes, Max(0, budget - staged)), unstaged)
  }

  datatype Action = Take(worker: nat) | Return(worker: nat, staged: int, unstaged: int, result: string) | Store(worker: nat)

  predicate Enabled(input: Input, p: Pool, a: Action)
  {
    a.worker < |p.workers| &&
    match a
    case Take(w) => p.workers[w].Looping?
    case Return(w, staged, unstaged, _) => p.workers[w].Reading? && DiffsFit(input, p.workers[w].budget, staged, unstaged)
    case Store(w) => p.workers[w].Storing?
  }

  function Next(input: Input, p: Pool, a: Action): Pool
    requires Enabled(input, p, a)
  {
    match a
    case Take(w) =>
      if p.cursor < input.directories then
        p.(cursor := p.cursor + 1, workers := p.workers[w := Reading(p.cursor, p.remaining)], taken := p.taken + [p.cursor])
      else p.(workers := p.workers[w := Finished])
    case Return(w, staged, unstaged, result) =>
      var i := p.workers[w].index;
      p.(remaining := Max(0, p.remaining - (staged + unstaged)), workers := p.workers[w := Storing(i, result)],
         returned := p.returned[i := result], bytes := p.bytes + staged + unstaged)
    case Store(w) =>
      p.(outputs := p.outputs[p.workers[w].index := p.workers[w].result], workers := p.workers[w := Looping])
  }

  ghost predicate Schedule(input: Input, p: Pool, run: seq<Action>)
    decreases |run|
  {
    run == [] || (Enabled(input, p, run[0]) && Schedule(input, Next(input, p, run[0]), run[1..]))
  }

  function After(input: Input, p: Pool, run: seq<Action>): Pool
    requires Schedule(input, p, run)
    decreases |run|
  {
    if run == [] then p else After(input, Next(input, p, run[0]), run[1..])
  }

  // ---------------------------------------------------------------- sums over workers

  function Sum(ws: seq<Worker>, f: Worker -> int): int
  {
    if ws == [] then 0 else Sum(ws[..|ws| - 1], f) + f(ws[|ws| - 1])
  }

  lemma {:induction false} SumUpdate(ws: seq<Worker>, f: Worker -> int, w: nat, x: Worker)
    requires w < |ws|
    ensures Sum(ws[w := x], f) == Sum(ws, f) - f(ws[w]) + f(x)
  {
    var init := ws[..|ws| - 1];
    if w == |ws| - 1 {
      assert ws[w := x][..w] == init;
    } else {
      assert ws[w := x][..|ws| - 1] == init[w := x];
      SumUpdate(init, f, w, x);
    }
  }

  lemma {:induction false} SumAtMost(ws: seq<Worker>, f: Worker -> int, most: int)
    requires forall i :: 0 <= i < |ws| ==> f(ws[i]) <= most
    ensures Sum(ws, f) <= |ws| * most
  {
    if ws != [] {
      SumAtMost(ws[..|ws| - 1], f, most);
      assert (|ws| - 1) * most + most == |ws| * most;
    }
  }

  // ---------------------------------------------------------------- the byte budget

  /** The most a directory started with this budget can produce. */
  function Cap(input: Input, budget: int): int
  {
    if budget <= 0 then 0 else Min(2 * input.maxDiffBytes + 2 * input.slack, budget + input.slack)
  }

  lemma DirectoryWithinCap(input: Input, budget: int, staged: int, unstaged: int)
    requires DiffsFit(input, budget, staged, unstaged)
    ensures 0 <= staged + unstaged <= Cap(input, budget)
  {
  }

  function CapOf(input: Input): Worker -> int
  {
    (w: Worker) => if w.Reading? then Cap(input, w.budget) else 0
  }

  /** The promised bound: the aggregate, plus one more directory's worth for every other worker. */
  function Bound(input: Input, workers: nat): int
  {
    Aggregate(input) + input.slack + (workers - 1) * Cap(input, Aggregate(input))
  }

  /** Until it is used up the budget is exactly what has not been produced; later directories get nothing. */
  ghost predicate WithinBudget(input: Input, p: Pool)
  {
    0 <= p.remaining && 0 <= p.bytes && (p.remaining > 0 ==> p.bytes == Aggregate(input) - p.remaining) &&
    (forall w :: 0 <= w < |p.workers| && p.workers[w].Reading? ==> p.workers[w].budget <= Aggregate(input)) &&
    p.remaining <= Aggregate(input) &&
    p.bytes + Sum(p.workers, CapOf(input)) <= Max(0, Bound(input, |p.workers|))
  }

  lemma TakeWithinBudget(input: Input, p: Pool, w: nat)
    requires WithinBudget(input, p) && Enabled(input, p, Take(w))
    ensures WithinBudget(input, Next(input, p, Take(w)))
  {
    var next := Next(input, p, Take(w));
    SumUpdate(p.workers, CapOf(input), w, next.workers[w]);
    if p.cursor < input.directories && p.remaining > 0 {
      OthersAtMost(input, p, w);
    }
  }

  /** The workers other than one may still produce at most one directory's worth each. */
  lemma OthersAtMost(input: Input, p: Pool, w: nat)
    requires WithinBudget(input, p) && w < |p.workers|
    ensures Sum(p.workers, CapOf(input)) - CapOf(input)(p.workers[w]) <= (|p.workers| - 1) * Cap(input, Aggregate(input))
  {
    var most := Cap(input, Aggregate(input));
    var others := p.workers[..w] + p.workers[w + 1..];
    OthersSum(p.workers, CapOf(input), w);
    forall i | 0 <= i < |others| ensures CapOf(input)(others[i]) <= most {
      assert others[i] == if i < w then p.workers[i] else p.workers[i + 1];
    }
    SumAtMost(others, CapOf(input), most);
  }

  lemma {:induction false} OthersSum(ws: seq<Worker>, f: Worker -> int, w: nat)
    requires w < |ws|
    ensures Sum(ws[..w] + ws[w + 1..], f) == Sum(ws, f) - f(ws[w])
  {
    var others := ws[..w] + ws[w + 1..];
    if w == |ws| - 1 {
      assert others == ws[..|ws| - 1];
    } else {
      var init := ws[..|ws| - 1];
      assert others[..|others| - 1] == init[..w] + init[w + 1..];
      OthersSum(init, f, w);
    }
  }

  lemma StepWithinBudget(input: Input, p: Pool, a: Action)
    requires WithinBudget(input, p) && Enabled(input, p, a)
    ensures WithinBudget(input, Next(input, p, a))
  {
    if a.Take? {
      TakeWithinBudget(input, p, a.worker);
    } else {
      var next := Next(input, p, a);
      SumUpdate(p.workers, CapOf(input), a.worker, next.workers[a.worker]);
      if a.Return? {
        DirectoryWithinCap(input, p.workers[a.worker].budget, a.staged, a.unstaged);
      }
    }
  }

  lemma {:induction false} SumOfIdle(ws: seq<Worker>, f: Worker -> int)
    requires forall i :: 0 <= i < |ws| ==> f(ws[i]) == 0
    ensures Sum(ws, f) == 0
  {
    if ws != [] {
      SumOfIdle(ws[..|ws| - 1], f);
    }
  }

  lemma StartWithinBudget(input: Input)
    ensures WithinBudget(input, Start(input))
  {
    SumOfIdle(Start(input).workers, CapOf(input));
    var n := |Start(input).workers|;
    if n > 0 {
      assert 0 <= (n - 1) * Cap(input, Aggregate(input));
    } else {
      assert Aggregate(input) == 0;
    }
  }

  // ---------------------------------------------------------------- every directory once

  predicate Holds(w: Worker, i: nat)
  {
    (w.Reading? || w.Storing?) && w.index == i
  }

  ghost predicate Held(p: Pool, i: nat)
  {
    exists w :: 0 <= w < |p.workers| && Holds(p.workers[w], i)
  }

  /** Every directory begun is with one worker or in the outputs; directories are begun in order, once each. */
  ghost predicate Covered(input: Input, p: Pool)
  {
    p.cursor <= input.directories && |p.taken| == p.cursor && (forall i :: 0 <= i < |p.taken| ==> p.taken[i] == i) &&
    (forall i :: i in p.outputs ==> i < p.cursor && i in p.returned && p.outputs[i] == p.returned[i]) &&
    (forall w :: 0 <= w < |p.workers| ==>
      (p.workers[w].Reading? ==> p.workers[w].index < p.cursor) &&
      (p.workers[w].Storing? ==> p.workers[w].index < p.cursor && p.workers[w].index in p.returned &&
                                 p.returned[p.workers[w].index] == p.workers[w].result) &&
      (p.workers[w].Finished? ==> p.cursor == input.directories)) &&
    (forall v, w, i :: 0 <= v < |p.workers| && 0 <= w < |p.workers| && Holds(p.workers[v], i) && Holds(p.workers[w], i)
      ==> v == w) &&
    (forall i :: 0 <= i < p.cursor ==> (i in p.outputs <==> !Held(p, i)))
  }

  lemma HeldStep(input: Input, p: Pool, a: Action, i: nat)
    requires Covered(input, p) && Enabled(input, p, a)
    ensures Held(Next(input, p, a), i) <==>
      (Held(p, i) && !(a.Store? && p.workers[a.worker].index == i)) ||
      (a.Take? && p.cursor < input.directories && i == p.cursor)
  {
    var next := Next(input, p, a);
    if Held(p, i) {
      var w :| 0 <= w < |p.workers| && Holds(p.workers[w], i);
      assert w != a.worker || a.Return? ==> Holds(next.workers[w], i);
    }
    if Held(next, i) {
      var w :| 0 <= w < |p.workers| && Holds(next.workers[w], i);
      assert w != a.worker || a.Return? ==> Holds(p.workers[w], i);
    }
    assert a.Take? && p.cursor < input.directories && i == p.cursor ==> Holds(next.workers[a.worker], i);
  }

  lemma StepCovered(input: Input, p: Pool, a: Action)
    requires Covered(input, p) && Enabled(input, p, a)
    ensures Covered(input, Next(input, p, a))
  {
    var next := Next(input, p, a);
    forall i: nat | i < next.cursor ensures i in next.outputs <==> !Held(next, i) {
      HeldStep(input, p, a, i);
      assert a.Store? ==> Holds(p.workers[a.worker], p.workers[a.worker].index);
      assert i < p.cursor ==> (i in p.outputs <==> !Held(p, i));
      assert !Held(p, p.cursor);
    }
  }

  function Weight(): Worker -> int
  {
    (w: Worker) =>
      match w
      case Looping => 1
      case Reading(_, _) => 3
      case Storing(_, _) => 2
      case Finished => 0
  }

  function Work(input: Input, p: Pool): int
  {
    4 * (input.directories - p.cursor) + Sum(p.workers, Weight())
  }

  lemma {:induction false} WeightNotNegative(ws: seq<Worker>)
    ensures 0 <= Sum(ws, Weight())
  {
    if ws != [] {
      WeightNotNegative(ws[..|ws| - 1]);
    }
  }

  /** No schedule goes on forever, and none stops before every worker has finished. */
  lemma PoolTerminates(input: Input, p: Pool, a: Action)
    requires Covered(input, p)
    ensures 0 <= Work(input, p)
    ensures Enabled(input, p, a) ==> Work(input, Next(input, p, a)) < Work(input, p)
    ensures (exists w :: 0 <= w < |p.workers| && !p.workers[w].Finished?) ==> exists b :: Enabled(input, p, b)
  {
    WeightNotNegative(p.workers);
    if Enabled(input, p, a) {
      SumUpdate(p.workers, Weight(), a.worker, Next(input, p, a).workers[a.worker]);
    }
    if exists w :: 0 <= w < |p.workers| && !p.workers[w].Finished? {
      var w :| 0 <= w < |p.workers| && !p.workers[w].Finished?;
      var b := if p.workers[w].Looping? then Take(w)
               else if p.workers[w].Reading? then Return(w, 0, 0, "") else Store(w);
      assert Enabled(input, p, b);
    }
  }

  lemma {:induction false} ScheduleKeeps(input: Input, p: Pool, run: seq<Action>)
    requires WithinBudget(input, p) && Covered(input, p) && Schedule(input, p, run)
    ensures WithinBudget(input, After(input, p, run)) && Covered(input, After(input, p, run))
    ensures |After(input, p, run).workers| == |p.workers|
    decreases |run|
  {
    if run != [] {
      StepWithinBudget(input, p, run[0]);
      StepCovered(input, p, run[0]);
      ScheduleKeeps(input, Next(input, p, run[0]), run[1..]);
    }
  }

  lemma BoundWithoutSlack(input: Input, workers: nat)
    requires workers > 0
    ensures 0 <= Bound(input, workers)
    ensures input.slack == 0 ==>
      Bound(input, workers) == Aggregate(input) + (workers - 1) * Min(2 * input.maxDiffBytes, Aggregate(input))
  {
    var cap := Cap(input, Aggregate(input));
    assert 0 <= cap;
    ProductNotNegative(workers - 1, cap);
    if input.slack == 0 {
      assert cap == Min(2 * input.maxDiffBytes, Aggregate(input));
    }
  }

  lemma ProductNotNegative(x: int, y: int)
    requires 0 <= x && 0 <= y
    ensures 0 <= x * y
  {
  }

  /**
   * For every schedule, finished or not, the diff bytes produced stay within the aggregate plus one directory's
   * worth for each of the other workers: `A + (k - 1) * min(2 * maxDiffBytes, A)` when there is no slack.
   */
  lemma PoolByteBound(input: Input, run: seq<Action>)
    requires Schedule(input, Start(input), run) && input.directories > 0
    ensures var p := After(input, Start(input), run);
      var k := Min(GIT_CONCURRENCY, input.directories);
      var a := Aggregate(input);
      p.bytes <= a + input.slack + (k - 1) * Cap(input, a) &&
      (input.slack == 0 ==> p.bytes <= a + (k - 1) * Min(2 * input.maxDiffBytes, a))
  {
    StartWithinBudget(input);
    ScheduleKeeps(input, Start(input), run);
    SumOfCaps(input, After(input, Start(input), run).workers);
    BoundWithoutSlack(input, |Start(input).workers|);
  }

  /**
   * For every schedule, directories are begun in order and once each, and once all workers have finished there
   * is exactly one output per directory, in its place.
   */
  lemma PoolCoversAll(input: Input, run: seq<Action>)
    requires Schedule(input, Start(input), run)
    ensures var p := After(input, Start(input), run);
      |p.taken| == p.cursor && (forall i :: 0 <= i < |p.taken| ==> p.taken[i] == i) &&
      ((forall w :: 0 <= w < |p.workers| ==> p.workers[w].Finished?) ==>
        p.cursor == input.directories && (forall i: nat :: i in p.outputs <==> i < input.directories) &&
        forall i :: i in p.outputs ==> i in p.returned && p.outputs[i] == p.returned[i])
  {
    StartWithinBudget(input);
    ScheduleKeeps(input, Start(input), run);
  }

  lemma {:induction false} SumOfCaps(input: Input, ws: seq<Worker>)
    ensures 0 <= Sum(ws, CapOf(input))
  {
    if ws != [] {
      SumOfCaps(input, ws[..|ws| - 1]);
    }
  }

  // ---------------------------------------------------------------- the budget, exactly

  /** The diff bytes returned in a run. */
  function Returned(run: seq<Action>): int
  {
    if run == [] then 0
    else
      var a := run[|run| - 1];
      Returned(run[..|run| - 1]) + if a.Return? then a.staged + a.unstaged else 0
  }

  /** How many directories were asked for in a run. */
  function Takes(run: seq<Action>): nat
  {
    if run == [] then 0 else Takes(run[..|run| - 1]) + if run[|run| - 1].Take? then 1 else 0
  }

  ghost predicate LastTake(run: seq<Action>, w: nat, t: nat)
  {
    t < |run| && run[t] == Take(w) && forall u :: t < u < |run| ==> run[u] != Take(w)
  }

  lemma {:induction false} ScheduleGrows(input: Input, p: Pool, run: seq<Action>, a: Action)
    ensures Schedule(input, p, run + [a]) <==> Schedule(input, p, run) && Enabled(input, After(input, p, run), a)
    ensures Schedule(input, p, run + [a]) ==> After(input, p, run + [a]) == Next(input, After(input, p, run), a)
    decreases |run|
  {
    if run == [] {
      assert ([] + [a])[1..] == [];
    } else {
      assert (run + [a])[1..] == run[1..] + [a] && (run + [a])[0] == run[0];
      if Enabled(input, p, run[0]) {
        ScheduleGrows(input, Next(input, p, run[0]), run[1..], a);
      }
    }
  }

  /** A worker inside a directory has the budget and the directory that the run up to its last asking determines. */
  ghost predicate BudgetFits(input: Input, p: Pool, run: seq<Action>, w: nat)
    requires w < |p.workers|
  {
    p.workers[w].Reading? ==>
      exists t: nat ::
        LastTake(run, w, t) && p.workers[w] == Reading(Takes(run[..t]), Max(0, Aggregate(input) - Returned(run[..t])))
  }

  /** The pool's counters are as the run says. */
  ghost predicate CountersFit(input: Input, p: Pool, run: seq<Action>)
  {
    p.bytes == Returned(run) && p.remaining == Max(0, Aggregate(input) - Returned(run)) &&
    p.cursor == (if Takes(run) < input.directories then Takes(run) else input.directories) &&
    forall w :: 0 <= w < |p.workers| ==> BudgetFits(input, p, run, w)
  }

  lemma CountersGrow(run: seq<Action>, a: Action)
    ensures Returned(run + [a]) == Returned(run) + if a.Return? then a.staged + a.unstaged else 0
    ensures Takes(run + [a]) == Takes(run) + if a.Take? then 1 else 0
    ensures forall t :: 0 <= t <= |run| ==> (run + [a])[..t] == run[..t]
    ensures (run + [a])[..|run|] == run
  {
    assert (run + [a])[..|run|] == run;
  }

  lemma BudgetStays(input: Input, p: Pool, run: seq<Action>, a: Action, w: nat)
    requires CountersFit(input, p, run) && Enabled(input, p, a) && w < |p.workers|
    ensures BudgetFits(input, Next(input, p, a), run + [a], w)
  {
    var next, all := Next(input, p, a), run + [a];
    CountersGrow(run, a);
    if a.worker == w {
      if a.Take? {
        assert LastTake(all, w, |run|);
      }
    } else if next.workers[w].Reading? {
      assert BudgetFits(input, p, run, w);
      var t: nat :| LastTake(run, w, t) && p.workers[w] == Reading(Takes(run[..t]), Max(0, Aggregate(input) - Returned(run[..t])));
      assert LastTake(all, w, t) && all[..t] == run[..t];
    }
  }

  lemma StepCounters(input: Input, p: Pool, run: seq<Action>, a: Action)
    requires CountersFit(input, p, run) && Enabled(input, p, a)
    ensures CountersFit(input, Next(input, p, a), run + [a])
  {
    CountersGrow(run, a);
    forall w | 0 <= w < |p.workers| ensures BudgetFits(input, Next(input, p, a), run + [a], w) {
      BudgetStays(input, p, run, a, w);
    }
    if a.Return? {
      DirectoryWithinCap(input, p.workers[a.worker].budget, a.staged, a.unstaged);
    }
  }

  /**
   * After every schedule the bytes left are what the aggregate exceeds the bytes returned by, and a worker inside a
   * directory works with what was left when it asked for that directory.
   */
  lemma {:induction false} BudgetIsExact(input: Input, run: seq<Action>)
    requires Schedule(input, Start(input), run)
    ensures CountersFit(input, After(input, Start(input), run), run)
  {
    if run != [] {
      var init, a := run[..|run| - 1], run[|run| - 1];
      assert run == init + [a];
      ScheduleGrows(input, Start(input), init, a);
      BudgetIsExact(input, init);
      StepCounters(input, After(input, Start(input), init), init, a);
    }
  }

  // ---------------------------------------------------------------- diffs that fit are not cut

  /** The sizes of a directory's two diffs. */
  datatype Want = Want(staged: nat, unstaged: nat) {
    function Size(): nat { staged + unstaged }
  }

  /** `readDiff` when git works: nothing without a budget, the whole diff if it fits, something within bounds otherwise. */
  predicate ReadsAs(input: Input, budget: int, wanted: nat, used: int)
  {
    if budget <= 0 then used == 0 else if wanted <= budget then used == wanted else 0 <= used <= budget + input.slack
  }

  /** The staged diff within the limit for one and the budget, the unstaged diff also within what that one left. */
  predicate ReadsBoth(input: Input, budget: int, want: Want, staged: int, unstaged: int)
  {
    ReadsAs(input, if budget < input.maxDiffBytes then budget else input.maxDiffBytes, want.staged, staged) &&
    var left := budget - staged;
    ReadsAs(input, if left < input.maxDiffBytes then left else input.maxDiffBytes, want.unstaged, unstaged)
  }

  /** A worker can return exactly what reading some pair of diffs can give; a failing git counts as an empty diff. */
  lemma ReturnableIff(input: Input, p: Pool, w: nat, staged: int, unstaged: int, result: string)
    requires w < |p.workers| && p.workers[w].Reading?
    ensures Enabled(input, p, Return(w, staged, unstaged, result)) <==>
      exists want :: ReadsBoth(input, p.workers[w].budget, want, staged, unstaged)
  {
    if Enabled(input, p, Return(w, staged, unstaged, result)) {
      assert ReadsBoth(input, p.workers[w].budget, Want(staged, unstaged), staged, unstaged);
    }
  }

  predicate ReturnsAs(input: Input, p: Pool, a: Action, wants: seq<Want>)
    requires Enabled(input, p, a)
  {
    a.Return? ==>
      var reading := p.workers[a.worker];
      reading.index < |wants| && ReadsBoth(input, reading.budget, wants[reading.index], a.staged, a.unstaged)
  }

  /** Every return of the schedule reads the wanted diffs. */
  ghost predicate Honest(input: Input, p: Pool, run: seq<Action>, wants: seq<Want>)
    requires Schedule(input, p, run)
    decreases |run|
  {
    run == [] || (ReturnsAs(input, p, run[0], wants) && Honest(input, Next(input, p, run[0]), run[1..], wants))
  }

  /** Every return of the schedule gives both diffs of its directory in full. */
  ghost predicate NoneCut(input: Input, p: Pool, run: seq<Action>, wants: seq<Want>)
    requires Schedule(input, p, run)
    decreases |run|
  {
    run == [] ||
    ((run[0].Return? ==>
      var i := p.workers[run[0].worker].index;
      i < |wants| && run[0].staged == wants[i].staged && run[0].unstaged == wants[i].unstaged) &&
     NoneCut(input, Next(input, p, run[0]), run[1..], wants))
  }

  /** The total size of the diffs of the directories in a set. */
  function Total(wants: seq<Want>, among: set<nat>): nat
  {
    if wants == [] then 0
    else Total(wants[..|wants| - 1], among) + if |wants| - 1 in among then wants[|wants| - 1].Size() else 0
  }

  function All(wants: seq<Want>): nat
  {
    if wants == [] then 0 else All(wants[..|wants| - 1]) + wants[|wants| - 1].Size()
  }

  lemma {:induction false} TotalWithout(wants: seq<Want>, among: set<nat>, i: nat)
    requires i < |wants| && i !in among
    ensures Total(wants, among + {i}) == Total(wants, among) + wants[i].Size()
    ensures Total(wants, among) + wants[i].Size() <= All(wants)
  {
    var n := |wants| - 1;
    TotalAtMostAll(wants[..n], among);
    if i < n {
      TotalWithout(wants[..n], among, i);
    } else {
      TotalBeyond(wants[..n], among, i);
    }
  }

  lemma {:induction false} TotalAtMostAll(wants: seq<Want>, among: set<nat>)
    ensures Total(wants, among) <= All(wants)
  {
    if wants != [] {
      TotalAtMostAll(wants[..|wants| - 1], among);
    }
  }

  lemma {:induction false} TotalBeyond(wants: seq<Want>, among: set<nat>, i: nat)
    requires |wants| <= i
    ensures Total(wants, among + {i}) == Total(wants, among)
  {
    if wants != [] {
      TotalBeyond(wants[..|wants| - 1], among, i);
    }
  }

  /** What is returned was wanted, and whoever reads has room for all that its directory wants. */
  ghost predicate Roomy(input: Input, p: Pool, wants: seq<Want>)
  {
    p.bytes == Total(wants, p.returned.Keys) && p.remaining == Max(0, Aggregate(input) - p.bytes) &&
    (forall i :: i in p.returned ==> i < p.cursor) &&
    forall w :: 0 <= w < |p.workers| && p.workers[w].Reading? ==>
      p.workers[w].index < p.cursor && p.workers[w].index !in p.returned && p.workers[w].index < |wants| &&
      wants[p.workers[w].index].Size() <= p.workers[w].budget
  }

  ghost predicate Fit(input: Input, wants: seq<Want>)
  {
    |wants| == input.directories && All(wants) <= Aggregate(input) &&
    forall i :: 0 <= i < |wants| ==> wants[i].staged <= input.maxDiffBytes && wants[i].unstaged <= input.maxDiffBytes
  }

  /** With room for both, both diffs come in full. */
  lemma FullReturn(input: Input, p: Pool, a: Action, wants: seq<Want>)
    requires Fit(input, wants) && Roomy(input, p, wants) && Enabled(input, p, a) && a.Return? && ReturnsAs(input, p, a, wants)
    ensures var i := p.workers[a.worker].index;
      i < |wants| && i !in p.returned && a.staged == wants[i].staged && a.unstaged == wants[i].unstaged
  {
  }

  lemma OthersReadElsewhere(input: Input, p: Pool, w: nat, v: nat)
    requires Covered(input, p) && w < |p.workers| && v < |p.workers| && v != w && p.workers[w].Reading? && p.workers[v].Reading?
    ensures p.workers[v].index != p.workers[w].index
  {
    assert Holds(p.workers[w], p.workers[w].index) && Holds(p.workers[v], p.workers[v].index);
  }

  lemma RoomyReturn(input: Input, p: Pool, a: Action, wants: seq<Want>)
    requires Fit(input, wants) && Roomy(input, p, wants) && Covered(input, p) && Enabled(input, p, a) && a.Return?
    requires ReturnsAs(input, p, a, wants)
    ensures Roomy(input, Next(input, p, a), wants)
  {
    var i, next := p.workers[a.worker].index, Next(input, p, a);
    FullReturn(input, p, a, wants);
    TotalWithout(wants, p.returned.Keys, i);
    assert next.returned.Keys == p.returned.Keys + {i};
    forall w | 0 <= w < |next.workers| && next.workers[w].Reading? ensures next.workers[w].index !in next.returned {
      OthersReadElsewhere(input, p, a.worker, w);
    }
  }

  lemma RoomyStep(input: Input, p: Pool, a: Action, wants: seq<Want>)
    requires Fit(input, wants) && Roomy(input, p, wants) && Covered(input, p) && Enabled(input, p, a)
    requires ReturnsAs(input, p, a, wants)
    ensures Roomy(input, Next(input, p, a), wants)
  {
    if a.Return? {
      RoomyReturn(input, p, a, wants);
    } else if a.Take? && p.cursor < input.directories {
      TotalWithout(wants, p.returned.Keys, p.cursor);
    }
  }

  lemma {:induction false} RoomyRun(input: Input, p: Pool, run: seq<Action>, wants: seq<Want>)
    requires Fit(input, wants) && Roomy(input, p, wants) && Covered(input, p)
    requires Schedule(input, p, run) && Honest(input, p, run, wants)
    ensures NoneCut(input, p, run, wants) && Roomy(input, After(input, p, run), wants)
    decreases |run|
  {
    if run != [] {
      StepCovered(input, p, run[0]);
      RoomyStep(input, p, run[0], wants);
      if run[0].Return? {
        FullReturn(input, p, run[0], wants);
      }
      RoomyRun(input, Next(input, p, run[0]), run[1..], wants);
    }
  }

  lemma {:induction false} TotalOfNone(wants: seq<Want>)
    ensures Total(wants, {}) == 0
  {
    if wants != [] {
      TotalOfNone(wants[..|wants| - 1]);
    }
  }

  lemma FullDiffsFit(input: Input, p: Pool, wants: seq<Want>, w: nat, result: string)
    requires Fit(input, wants) && Roomy(input, p, wants) && w < |p.workers| && p.workers[w].Reading?
    ensures var want := wants[p.workers[w].index];
      Enabled(input, p, Return(w, want.staged, want.unstaged, result))
  {
  }

  /** Each worker inside a directory can return its diffs in full. */
  ghost predicate AllCanReturn(input: Input, p: Pool, wants: seq<Want>)
  {
    forall w, result :: 0 <= w < |p.workers| && p.workers[w].Reading? && p.workers[w].index < |wants| ==>
      Enabled(input, p, Return(w, wants[p.workers[w].index].staged, wants[p.workers[w].index].unstaged, result))
  }

  lemma RoomyCanReturn(input: Input, p: Pool, wants: seq<Want>)
    requires Fit(input, wants) && Roomy(input, p, wants)
    ensures AllCanReturn(input, p, wants)
  {
    forall w, result | 0 <= w < |p.workers| && p.workers[w].Reading?
      ensures Enabled(input, p, Return(w, wants[p.workers[w].index].staged, wants[p.workers[w].index].unstaged, result))
    {
      FullDiffsFit(input, p, wants, w, result);
    }
  }

  lemma StartIsRoomy(input: Input, wants: seq<Want>)
    ensures Roomy(input, Start(input), wants)
  {
    TotalOfNone(wants);
    assert Start(input).returned.Keys == {};
  }

  /**
   * When all diffs together fit the aggregate and each fits the limit for one, no schedule cuts any of them, and
   * whoever is inside a directory can return its diffs in full.
   */
  lemma FittingDiffsAreNotCut(input: Input, run: seq<Action>, wants: seq<Want>)
    requires Fit(input, wants) && Schedule(input, Start(input), run) && Honest(input, Start(input), run, wants)
    ensures NoneCut(input, Start(input), run, wants)
    ensures AllCanReturn(input, After(input, Start(input), run), wants)
  {
    StartIsRoomy(input, wants);
    assert Covered(input, Start(input));
    RoomyRun(input, Start(input), run, wants);
    RoomyCanReturn(input, After(input, Start(input), run), wants);
  }
}
