/** Background tasks (tools/task.go): every run has a registry with a bounded number of slots, tasks are
    runs themselves and can start tasks of their own, and a run can wait for a task it started. */
module BackgroundTasks {
  import opened Wrappers

  const MAX_DEPTH: nat := 3
  const DEFAULT_CONCURRENCY: nat := 4

  /** A run is named by the way to it: the first run, or task n of a run. */
  datatype Path = Root | Child(parent: Path, index: nat)

  function Depth(p: Path): nat {
    if p.Root? then 0 else Depth(p.parent) + 1
  }

  datatype Result = Result(output: string, failed: bool)

  /** A task waits for a slot, runs, writes its result, gives back its slot, and closes its channel. */
  datatype Phase = Queued | Running | Written | Released | Done

  datatype Task = Task(phase: Phase, slot: bool, awaiting: Option<nat>, started: nat, result: Option<Result>)

  type Tasks = map<Path, Task>

  datatype Step =
    | Spawn(run: Path)
    | CallInline(run: Path)
    | Acquire(run: Path)
    | Cancel(run: Path)
    | Finish(run: Path, result: Result)
    | Release(run: Path)
    | Close(run: Path)
    | Await(run: Path, task: nat)
    | Collect(run: Path)

  function Capacity(concurrency: int): nat {
    if concurrency <= 0 then DEFAULT_CONCURRENCY else concurrency
  }

  /** How many tasks of one run may hold a slot, at which depth a run may start no more tasks, and which runs
      have the Task tool at all: an agent can be configured without it. */
  datatype Limits = Limits(capacity: nat, depth: nat, hasTask: Path -> bool)

  predicate MayStart(l: Limits, p: Path) {
    l.hasTask(p) && Depth(p) < l.depth
  }

  function SourceLimits(concurrency: int, hasTask: Path -> bool): Limits {
    Limits(Capacity(concurrency), MAX_DEPTH, hasTask)
  }

  const QUEUED := Task(Queued, false, None, 0, None)
  const STARTED := Task(Running, false, None, 0, None)

  const INITIAL: Tasks := map[Root := STARTED]

  predicate Holds(s: Tasks, q: Path) {
    q in s && s[q].slot
  }

  /** How many of the first n tasks of a run hold one of its slots. */
  function Slots(s: Tasks, p: Path, n: nat): nat {
    if n == 0 then 0 else Slots(s, p, n - 1) + if Holds(s, Child(p, n - 1)) then 1 else 0
  }

  function Used(s: Tasks, p: Path): nat {
    if p in s then Slots(s, p, s[p].started) else 0
  }

  /** The run is at work, not waiting for a task. */
  predicate Active(s: Tasks, p: Path) {
    p in s && s[p].phase == Running && s[p].awaiting.None?
  }

  predicate InPhase(s: Tasks, q: Path, phase: Phase) {
    q in s && s[q].phase == phase
  }

  predicate Enabled(l: Limits, s: Tasks, step: Step) {
    match step
    case Spawn(p) => Active(s, p) && MayStart(l, p)
    case CallInline(p) => Active(s, p) && MayStart(l, p)
    case Acquire(q) => q.Child? && InPhase(s, q, Queued) && Used(s, q.parent) < l.capacity
    case Cancel(q) => InPhase(s, q, Queued)
    case Finish(q, _) => Active(s, q)
    case Release(q) => InPhase(s, q, Written)
    case Close(q) => InPhase(s, q, Released)
    case Await(p, n) => Active(s, p) && n < s[p].started
    case Collect(p) =>
      p in s && s[p].awaiting.Some? && InPhase(s, Child(p, s[p].awaiting.value), Done)
  }

  function Apply(s: Tasks, step: Step): Tasks
    requires step.run in s
  {
    var t := s[step.run];
    match step
    case Spawn(p) => s[p := t.(started := t.started + 1)][Child(p, t.started) := QUEUED]
    case CallInline(p) =>
      s[p := t.(started := t.started + 1, awaiting := Some(t.started))][Child(p, t.started) := STARTED]
    case Acquire(q) => s[q := t.(phase := Running, slot := true)]
    case Cancel(q) => s[q := t.(phase := Released, result := Some(Result("", true)))]
    case Finish(q, r) => s[q := t.(phase := Written, result := Some(r))]
    case Release(q) => s[q := t.(phase := Released, slot := false)]
    case Close(q) => s[q := t.(phase := Done)]
    case Await(p, n) => s[p := t.(awaiting := Some(n))]
    case Collect(p) => s[p := t.(awaiting := None)]
  }

  ghost predicate IsRun(l: Limits, steps: seq<Step>)
    decreases |steps|, 0
  {
    steps == [] ||
    (IsRun(l, steps[..|steps| - 1]) && Enabled(l, After(l, steps[..|steps| - 1]), steps[|steps| - 1]))
  }

  ghost function After(l: Limits, steps: seq<Step>): Tasks
    requires IsRun(l, steps)
    decreases |steps|, 1
  {
    if steps == [] then INITIAL else Apply(After(l, steps[..|steps| - 1]), steps[|steps| - 1])
  }

  // ----- What every step keeps -----

  /** The runs form a tree, and each knows how many tasks it started. */
  ghost predicate IsTree(s: Tasks) {
    && Root in s
    && (forall q :: q in s && q.Child? ==> q.parent in s && q.index < s[q.parent].started)
    && (forall q, n: nat {:trigger Child(q, n)} :: q in s && n < s[q].started ==> Child(q, n) in s)
  }

  ghost predicate TaskOk(l: Limits, q: Path, t: Task) {
    && Depth(q) <= l.depth && (q.Child? ==> MayStart(l, q.parent))
    && (t.slot ==> q.Child? && (t.phase == Running || t.phase == Written))
    && (t.awaiting.Some? ==> t.phase == Running && t.awaiting.value < t.started)
    && (t.result.None? <==> t.phase == Queued || t.phase == Running)
    && (q.Root? ==> t.phase != Queued)
  }

  ghost predicate Inv(l: Limits, s: Tasks) {
    && IsTree(s)
    && (forall q :: q in s ==> TaskOk(l, q, s[q]))
    && (forall p {:trigger Used(s, p)} :: p in s ==> Used(s, p) <= l.capacity)
  }

  lemma {:induction false} SlotsSame(s: Tasks, t: Tasks, p: Path, n: nat)
    requires forall m: nat :: m < n ==> (Holds(s, Child(p, m)) <==> Holds(t, Child(p, m)))
    ensures Slots(s, p, n) == Slots(t, p, n)
  {
    if n > 0 {
      SlotsSame(s, t, p, n - 1);
    }
  }

  lemma {:induction false} SlotsChange(s: Tasks, t: Tasks, p: Path, n: nat, i: nat)
    requires i < n
    requires forall m: nat :: m < n && m != i ==> (Holds(s, Child(p, m)) <==> Holds(t, Child(p, m)))
    ensures Slots(t, p, n) ==
              Slots(s, p, n) - (if Holds(s, Child(p, i)) then 1 else 0) + if Holds(t, Child(p, i)) then 1 else 0
  {
    if i == n - 1 {
      SlotsSame(s, t, p, n - 1);
    } else {
      SlotsChange(s, t, p, n - 1, i);
    }
  }

  /** One run changes in place, keeping its number of tasks; it takes a slot only if one is free. */
  lemma InPlaceKeeps(l: Limits, s: Tasks, q: Path, t: Task)
    requires Inv(l, s) && q in s && t.started == s[q].started && TaskOk(l, q, t)
    requires t.slot && !s[q].slot ==> q.Child? && Used(s, q.parent) < l.capacity
    ensures Inv(l, s[q := t])
  {
    hide Slots, TaskOk, Depth;
    var u := s[q := t];
    forall p | p in u ensures Used(u, p) <= l.capacity {
      assert Used(s, p) <= l.capacity;
      if q.Child? && p == q.parent {
        SlotsChange(s, u, p, s[p].started, q.index);
      } else {
        SlotsSame(s, u, p, s[p].started);
      }
    }
  }

  /** A run starts one more task, which holds no slot. */
  lemma NewTaskKeeps(l: Limits, s: Tasks, p: Path, t: Task, child: Task)
    requires Inv(l, s) && p in s && t.started == s[p].started + 1 && t.slot == s[p].slot
    requires child.started == 0 && !child.slot
    requires TaskOk(l, p, t) && TaskOk(l, Child(p, s[p].started), child)
    ensures Inv(l, s[p := t][Child(p, s[p].started) := child])
  {
    hide TaskOk, Depth, IsTree, Slots;
    var c, u := Child(p, s[p].started), s[p := t][Child(p, s[p].started) := child];
    NewTree(s, p, t, child);
    forall r | r in u ensures Used(u, r) <= l.capacity {
      NewUsed(s, p, t, child, r);
    }
  }

  lemma NewTree(s: Tasks, p: Path, t: Task, child: Task)
    requires IsTree(s) && p in s && t.started == s[p].started + 1 && child.started == 0
    ensures Child(p, s[p].started) !in s && IsTree(s[p := t][Child(p, s[p].started) := child])
  {
  }

  lemma NewUsed(s: Tasks, p: Path, t: Task, child: Task, r: Path)
    requires IsTree(s) && p in s && t.started == s[p].started + 1 && t.slot == s[p].slot
    requires child.started == 0 && !child.slot
    ensures Used(s[p := t][Child(p, s[p].started) := child], r) == Used(s, r)
  {
    hide IsTree;
    var c, u := Child(p, s[p].started), s[p := t][Child(p, s[p].started) := child];
    NewTree(s, p, t, child);
    if r in s {
      SlotsSame(s, u, r, s[r].started);
    }
  }

  lemma StepKeeps(l: Limits, s: Tasks, step: Step)
    requires Inv(l, s) && Enabled(l, s, step)
    ensures Inv(l, Apply(s, step))
  {
    hide IsTree, Slots;
    var q := step.run;
    var t := s[q];
    assert TaskOk(l, q, t);
    match step {
      case Spawn(p) => NewTaskKeeps(l, s, p, t.(started := t.started + 1), QUEUED);
      case CallInline(p) =>
        NewTaskKeeps(l, s, p, t.(started := t.started + 1, awaiting := Some(t.started)), STARTED);
      case _ => InPlaceKeeps(l, s, q, Apply(s, step)[q]);
    }
  }

  lemma InitialOk(l: Limits)
    ensures Inv(l, INITIAL)
  {
  }

  lemma {:induction false} RunKeeps(l: Limits, steps: seq<Step>)
    requires IsRun(l, steps)
    ensures Inv(l, After(l, steps))
  {
    hide Inv, Apply, Enabled;
    if steps == [] {
      InitialOk(l);
    } else {
      RunKeeps(l, steps[..|steps| - 1]);
      StepKeeps(l, After(l, steps[..|steps| - 1]), steps[|steps| - 1]);
    }
  }

  /** In every run, each registry's tasks hold at most as many slots as it has, and no run is nested
      deeper than the limit. */
  lemma SlotsAreBounded(l: Limits, steps: seq<Step>, p: Path)
    requires IsRun(l, steps) && p in After(l, steps)
    ensures Used(After(l, steps), p) <= l.capacity && Depth(p) <= l.depth
  {
    hide IsTree, Used;
    RunKeeps(l, steps);
    assert TaskOk(l, p, After(l, steps)[p]);
  }

  // ----- Results -----

  /** A task that is done has a result, and a result is written once: a later step of the run never
      changes it. So whoever collects a task gets its final result. */
  lemma {:induction false} ResultsAreFinal(l: Limits, steps: seq<Step>, n: nat, q: Path)
    requires IsRun(l, steps) && n <= |steps|
    ensures IsRun(l, steps[..n])
    ensures q in After(l, steps[..n]) ==> q in After(l, steps)
    ensures q in After(l, steps[..n]) && After(l, steps[..n])[q].result.Some? ==>
              After(l, steps)[q].result == After(l, steps[..n])[q].result
    decreases |steps|
  {
    hide Inv, Apply, Enabled;
    if n == |steps| {
      assert steps[..n] == steps;
    } else {
      var front := steps[..|steps| - 1];
      ResultsAreFinal(l, front, n, q);
      assert front[..n] == steps[..n];
      RunKeeps(l, front);
      if q in After(l, front) {
        StepKeepsResult(l, After(l, front), steps[|steps| - 1], q);
      }
    }
  }

  lemma StepKeepsResult(l: Limits, s: Tasks, step: Step, q: Path)
    requires Inv(l, s) && Enabled(l, s, step) && q in s
    ensures q in Apply(s, step) && (s[q].result.Some? ==> Apply(s, step)[q].result == s[q].result)
  {
    hide Used, Slots;
    assert TaskOk(l, q, s[q]) && TaskOk(l, step.run, s[step.run]);
    assert Child(step.run, s[step.run].started) !in s;
  }

  /** Waiting for a task ends only when the task is done, with its result there. */
  lemma CollectGetsResult(l: Limits, steps: seq<Step>, p: Path)
    requires IsRun(l, steps) && Enabled(l, After(l, steps), Collect(p))
    ensures var s := After(l, steps);
            var q := Child(p, s[p].awaiting.value);
            q in s && s[q].phase == Done && s[q].result.Some? && !s[q].slot
  {
    hide IsTree, Used;
    RunKeeps(l, steps);
    var s := After(l, steps);
    assert TaskOk(l, Child(p, s[p].awaiting.value), s[Child(p, s[p].awaiting.value)]);
  }

  // ----- Nested waiting never deadlocks -----

  /** A step that brings some task closer to its end, not one that starts, cancels or waits. */
  predicate Progress(step: Step) {
    step.Acquire? || step.Finish? || step.Release? || step.Close? || step.Collect?
  }

  ghost predicate RunningAt(s: Tasks, q: Path, d: nat) {
    q in s && s[q].phase == Running && Depth(q) == d
  }

  /** Some running task with none running below its depth. */
  ghost predicate DeepestAt(s: Tasks, d: nat) {
    && (exists q :: RunningAt(s, q, d))
    && forall q :: q in s && s[q].phase == Running ==> Depth(q) <= d
  }

  lemma {:induction false} FindDeepest(s: Tasks, q: Path, d: nat) returns (e: nat)
    requires q in s && s[q].phase == Running && Depth(q) <= d
    requires forall r :: r in s && s[r].phase == Running ==> Depth(r) <= d
    ensures DeepestAt(s, e)
  {
    if exists r :: RunningAt(s, r, d) {
      e := d;
    } else {
      assert !RunningAt(s, q, d);
      forall r | r in s && s[r].phase == Running ensures Depth(r) <= d - 1 {
        assert !RunningAt(s, r, d);
      }
      e := FindDeepest(s, q, d - 1);
    }
  }

  lemma {:induction false} NoSlotsUsed(s: Tasks, p: Path, n: nat)
    requires forall m: nat :: m < n ==> !Holds(s, Child(p, m))
    ensures Slots(s, p, n) == 0
  {
    if n > 0 {
      NoSlotsUsed(s, p, n - 1);
    }
  }

  /** As long as some task is not done, some task can make progress, however the runs wait for each
      other: waiting goes down the tree, and every run has slots of its own. */
  lemma NoDeadlock(l: Limits, steps: seq<Step>, q: Path) returns (step: Step)
    requires l.capacity > 0 && IsRun(l, steps)
    requires var s := After(l, steps); q in s && s[q].phase != Done
    ensures Enabled(l, After(l, steps), step) && Progress(step)
  {
    hide IsTree, Slots, Used, Apply;
    var s := After(l, steps);
    RunKeeps(l, steps);
    if r :| r in s && (s[r].phase == Written || s[r].phase == Released) {
      step := if s[r].phase == Written then Release(r) else Close(r);
    } else if r :| r in s && s[r].phase == Running {
      assert TaskOk(l, r, s[r]);
      forall x | x in s && s[x].phase == Running ensures Depth(x) <= l.depth { assert TaskOk(l, x, s[x]); }
      var d := FindDeepest(s, r, l.depth);
      var deepest :| RunningAt(s, deepest, d);
      step := DeepestMoves(l, s, deepest);
    } else {
      assert s[q].phase == Queued && TaskOk(l, q, s[q]);
      step := QueuedMoves(l, s, q);
    }
  }

  /** A queued task can run if no task of its parent is running or writing. */
  lemma QueuedMoves(l: Limits, s: Tasks, q: Path) returns (step: Step)
    requires Inv(l, s) && l.capacity > 0 && q in s && q.Child? && s[q].phase == Queued
    requires forall n: nat :: Child(q.parent, n) in s ==>
               s[Child(q.parent, n)].phase != Running && s[Child(q.parent, n)].phase != Written
    ensures Enabled(l, s, step) && Progress(step)
  {
    var p := q.parent;
    forall n: nat | n < s[p].started ensures !Holds(s, Child(p, n)) {
      assert Child(p, n) in s ==> TaskOk(l, Child(p, n), s[Child(p, n)]);
    }
    NoSlotsUsed(s, p, s[p].started);
    step := Acquire(q);
  }

  /** The deepest running task works, or waits for one that is done or can get a slot. */
  lemma DeepestMoves(l: Limits, s: Tasks, p: Path) returns (step: Step)
    requires Inv(l, s) && l.capacity > 0 && p in s && s[p].phase == Running && DeepestAt(s, Depth(p))
    requires forall r :: r in s ==> s[r].phase != Written && s[r].phase != Released
    ensures Enabled(l, s, step) && Progress(step)
  {
    hide Used, Slots, MayStart;
    assert TaskOk(l, p, s[p]);
    if s[p].awaiting.None? {
      step := Finish(p, Result("", false));
    } else {
      var q := Child(p, s[p].awaiting.value);
      assert q in s && s[q].phase != Running;
      if s[q].phase == Done {
        step := Collect(p);
      } else {
        step := QueuedMoves(l, s, q);
      }
    }
  }

  // ----- The limit is per run -----

  /** One task starts another and ends without waiting for it: its own slot is free again. */
  function Leave(k: nat): seq<Step> {
    var task := Child(Root, k);
    [Spawn(Root), Acquire(task), Spawn(task), Acquire(Child(task, 0)), Finish(task, Result("", false)), Release(task)]
  }

  function LeaveAll(k: nat): seq<Step> {
    if k == 0 then [] else LeaveAll(k - 1) + Leave(k - 1)
  }

  /** The first run holds none of its slots, and each of its k tasks left one running. */
  ghost predicate LeftBehind(s: Tasks, k: nat) {
    && Active(s, Root) && s[Root].started == k
    && forall i: nat :: i < k ==> !Holds(s, Child(Root, i)) && StillRuns(s, i)
  }

  predicate StillRuns(s: Tasks, i: nat) {
    var inner := Child(Child(Root, i), 0);
    Holds(s, inner) && s[inner].phase == Running
  }

  lemma TakeStep(l: Limits, steps: seq<Step>, step: Step)
    requires IsRun(l, steps) && Enabled(l, After(l, steps), step)
    ensures IsRun(l, steps + [step]) && After(l, steps + [step]) == Apply(After(l, steps), step)
  {
    assert (steps + [step])[..|steps|] == steps;
  }

  /** The new task runs and has started one of its own, which waits for a slot. */
  ghost predicate Started(s: Tasks, k: nat) {
    var task := Child(Root, k);
    && Active(s, Root) && s[Root].started == k + 1
    && Active(s, task) && s[task].started == 1
    && InPhase(s, Child(task, 0), Queued) && !s[Child(task, 0)].slot
    && forall i: nat :: i < k ==> !Holds(s, Child(Root, i)) && StillRuns(s, i)
  }

  lemma StartTask(l: Limits, s: Tasks, k: nat) returns (s1: Tasks, s2: Tasks, s3: Tasks)
    requires l.capacity > 0 && MayStart(l, Root) && MayStart(l, Child(Root, k)) && Inv(l, s) && LeftBehind(s, k)
    ensures Enabled(l, s, Leave(k)[0]) && s1 == Apply(s, Leave(k)[0])
    ensures Enabled(l, s1, Leave(k)[1]) && s2 == Apply(s1, Leave(k)[1])
    ensures Enabled(l, s2, Leave(k)[2]) && s3 == Apply(s2, Leave(k)[2]) && Started(s3, k)
  {
    hide Inv, Slots;
    NotYet(l, s, k);
    var task := Child(Root, k);
    s1 := Apply(s, Spawn(Root));
    assert s1 == s[Root := s[Root].(started := k + 1)][task := QUEUED];
    assert Used(s1, Root) == 0 by {
      forall m: nat | m < k + 1 ensures !Holds(s1, Child(Root, m)) {
        assert m < k ==> !Holds(s, Child(Root, m));
      }
      NoSlotsUsed(s1, Root, k + 1);
    }
    s2 := Apply(s1, Acquire(task));
    assert s2[task] == QUEUED.(phase := Running, slot := true);
    s3 := Apply(s2, Spawn(task));
    forall i: nat | i < k ensures !Holds(s3, Child(Root, i)) && StillRuns(s3, i) {
      assert !Holds(s, Child(Root, i)) && StillRuns(s, i);
    }
  }

  lemma EndTask(l: Limits, s: Tasks, k: nat) returns (s1: Tasks, s2: Tasks, s3: Tasks)
    requires l.capacity > 0 && Started(s, k)
    ensures Enabled(l, s, Leave(k)[3]) && s1 == Apply(s, Leave(k)[3])
    ensures Enabled(l, s1, Leave(k)[4]) && s2 == Apply(s1, Leave(k)[4])
    ensures Enabled(l, s2, Leave(k)[5]) && s3 == Apply(s2, Leave(k)[5]) && LeftBehind(s3, k + 1)
  {
    NoSlotsUsed(s, Child(Root, k), 1);
    s1 := Apply(s, Leave(k)[3]);
    s2 := Apply(s1, Leave(k)[4]);
    s3 := Apply(s2, Leave(k)[5]);
    forall i: nat | i < k + 1 ensures !Holds(s3, Child(Root, i)) && StillRuns(s3, i) {
      assert i < k ==> !Holds(s, Child(Root, i)) && StillRuns(s, i);
    }
  }

  lemma LeaveOnce(l: Limits, steps: seq<Step>, k: nat)
    requires l.capacity > 0 && MayStart(l, Root) && MayStart(l, Child(Root, k))
    requires IsRun(l, steps) && LeftBehind(After(l, steps), k)
    ensures IsRun(l, steps + Leave(k)) && LeftBehind(After(l, steps + Leave(k)), k + 1)
  {
    hide IsRun, After, Inv, Apply, Enabled, LeftBehind, Started;
    var x := Leave(k);
    RunKeeps(l, steps);
    var s1, s2, s3 := StartTask(l, After(l, steps), k);
    TakeStep(l, steps, x[0]);
    TakeStep(l, steps + [x[0]], x[1]);
    TakeStep(l, steps + [x[0]] + [x[1]], x[2]);
    var s4, s5, s6 := EndTask(l, s3, k);
    TakeStep(l, steps + [x[0]] + [x[1]] + [x[2]], x[3]);
    TakeStep(l, steps + [x[0]] + [x[1]] + [x[2]] + [x[3]], x[4]);
    TakeStep(l, steps + [x[0]] + [x[1]] + [x[2]] + [x[3]] + [x[4]], x[5]);
    assert steps + [x[0]] + [x[1]] + [x[2]] + [x[3]] + [x[4]] + [x[5]] == steps + x;
  }

  lemma NotYet(l: Limits, s: Tasks, k: nat)
    requires Inv(l, s) && LeftBehind(s, k)
    ensures Child(Root, k) !in s && forall n: nat :: Child(Child(Root, k), n) !in s
  {
  }

  lemma {:induction false} ManyAtOnce(l: Limits, k: nat)
    requires l.capacity > 0 && MayStart(l, Root) && forall i: nat :: i < k ==> MayStart(l, Child(Root, i))
    ensures IsRun(l, LeaveAll(k)) && LeftBehind(After(l, LeaveAll(k)), k)
  {
    hide Leave;
    if k > 0 {
      ManyAtOnce(l, k - 1);
      LeaveOnce(l, LeaveAll(k - 1), k - 1);
    }
  }

  /** The tasks that hold a slot, of whatever registry. */
  function Holders(s: Tasks): set<Path> {
    set q | q in s && s[q].slot
  }

  function TotalSlots(s: Tasks): nat {
    |Holders(s)|
  }

  /** The tasks that the first k tasks of the first run left behind. */
  function LeftOver(k: nat): set<Path> {
    set i: nat | i < k :: Child(Child(Root, i), 0)
  }

  lemma {:induction false} LeftOverSize(k: nat)
    ensures |LeftOver(k)| == k
  {
    if k > 0 {
      LeftOverSize(k - 1);
      assert LeftOver(k) == LeftOver(k - 1) + {Child(Child(Root, k - 1), 0)};
    }
  }

  lemma SubsetSize<T>(a: set<T>, b: set<T>)
    requires a <= b
    ensures |a| <= |b|
  {
    assert b == a + (b - a);
  }

  /** However many slots a registry has, as many tasks can run at the same time as the first run can start
      tasks that may start tasks: these count against the task's own registry, and go on when it has ended. */
  lemma LimitIsPerRun(l: Limits, k: nat)
    requires l.capacity > 0 && MayStart(l, Root) && forall i: nat :: i < k ==> MayStart(l, Child(Root, i))
    ensures IsRun(l, LeaveAll(k)) && TotalSlots(After(l, LeaveAll(k))) >= k
    ensures forall i: nat :: i < k ==> StillRuns(After(l, LeaveAll(k)), i)
  {
    hide After, IsRun, LeaveAll;
    ManyAtOnce(l, k);
    LeftOverSize(k);
    var s := After(l, LeaveAll(k));
    forall q | q in LeftOver(k) ensures q in Holders(s) {
      assert StillRuns(s, q.parent.index);
    }
    SubsetSize(LeftOver(k), Holders(s));
  }

  /** The first n tasks of a run that hold one of its slots. */
  function HoldersOf(s: Tasks, p: Path, n: nat): set<Path> {
    set i: nat | i < n && Holds(s, Child(p, i)) :: Child(p, i)
  }

  lemma HoldersGrow(s: Tasks, p: Path, n: nat)
    ensures HoldersOf(s, p, n + 1) == HoldersOf(s, p, n) + if Holds(s, Child(p, n)) then {Child(p, n)} else {}
    ensures Child(p, n) !in HoldersOf(s, p, n)
  {
    hide Holds;
  }

  lemma {:induction false} SlotsCountHolders(s: Tasks, p: Path, n: nat)
    ensures |HoldersOf(s, p, n)| == Slots(s, p, n)
  {
    hide Holds, HoldersOf;
    if n == 0 {
      assert HoldersOf(s, p, 0) == {} by { NoHolders(s, p); }
    } else {
      SlotsCountHolders(s, p, n - 1);
      HoldersGrow(s, p, n - 1);
    }
  }

  lemma NoHolders(s: Tasks, p: Path)
    ensures HoldersOf(s, p, 0) == {}
  {
  }

  /** Some task may start tasks of its own. */
  ghost predicate Nested(l: Limits) {
    MayStart(l, Root) && exists n: nat :: MayStart(l, Child(Root, n))
  }

  /** A task deeper than the first level has an ancestor on it, which started a task. */
  lemma {:induction false} DeepTaskIsNested(l: Limits, s: Tasks, q: Path)
    requires Inv(l, s) && q in s && Depth(q) >= 2
    ensures Nested(l)
  {
    hide Used, MayStart;
    assert TaskOk(l, q, s[q]) && TaskOk(l, q.parent, s[q.parent]);
    if Depth(q) == 2 {
      assert q.parent == Child(Root, q.parent.index);
    } else {
      DeepTaskIsNested(l, s, q.parent);
    }
  }

  /** Where tasks start no tasks, every slot belongs to the first run. */
  lemma FlatTotal(l: Limits, s: Tasks)
    requires Inv(l, s) && !Nested(l)
    ensures TotalSlots(s) == Used(s, Root) <= l.capacity
  {
    hide Slots, Nested;
    SlotsCountHolders(s, Root, s[Root].started);
    forall q | q in Holders(s) ensures q in HoldersOf(s, Root, s[Root].started) {
      assert TaskOk(l, q, s[q]);
      if Depth(q) >= 2 {
        DeepTaskIsNested(l, s, q);
      }
      assert q == Child(Root, q.index);
    }
    assert Holders(s) == HoldersOf(s, Root, s[Root].started);
  }

  /** The first run is at work and has started k tasks, which all wait for a slot. */
  ghost predicate Queueing(s: Tasks, k: nat) {
    && Active(s, Root) && s[Root].started == k
    && forall i: nat :: i < k ==> Child(Root, i) in s && s[Child(Root, i)] == QUEUED
  }

  lemma {:induction false} Queue(l: Limits, k: nat) returns (steps: seq<Step>)
    requires MayStart(l, Root)
    ensures IsRun(l, steps) && Queueing(After(l, steps), k)
  {
    hide IsRun, After, MayStart;
    if k == 0 {
      steps := [];
      assert IsRun(l, []) && After(l, []) == INITIAL by { NoSteps(l); }
    } else {
      steps := Queue(l, k - 1);
      TakeStep(l, steps, Spawn(Root));
      steps := steps + [Spawn(Root)];
    }
  }

  lemma NoSteps(l: Limits)
    ensures IsRun(l, []) && After(l, []) == INITIAL
  {
  }

  /** The task is at work on a slot of its own, and so are the k tasks it has started. */
  ghost predicate Filled(s: Tasks, q: Path, k: nat) {
    Active(s, q) && Holds(s, q) && s[q].started == k && forall i: nat :: i < k ==> Holds(s, Child(q, i))
  }

  lemma {:induction false} SlotsAtMost(s: Tasks, p: Path, n: nat)
    ensures Slots(s, p, n) <= n
  {
    if n > 0 {
      SlotsAtMost(s, p, n - 1);
    }
  }

  lemma Begin(l: Limits, n: nat) returns (steps: seq<Step>)
    requires l.capacity > 0 && MayStart(l, Root)
    ensures IsRun(l, steps) && Filled(After(l, steps), Child(Root, n), 0)
  {
    hide IsRun, After, MayStart, Slots;
    steps := Queue(l, n + 1);
    NoSlotsUsed(After(l, steps), Root, n + 1);
    TakeStep(l, steps, Acquire(Child(Root, n)));
    steps := steps + [Acquire(Child(Root, n))];
  }

  lemma NoOwnTask(q: Path)
    ensures forall i: nat :: Child(q, i) != q
  {
    forall i: nat ensures Child(q, i) != q {
      assert Depth(Child(q, i)) == Depth(q) + 1;
    }
  }

  /** One more task of the task takes a slot of the task's own registry. */
  lemma FillOne(l: Limits, s: Tasks, q: Path, k: nat)
    requires Filled(s, q, k) && k < l.capacity && MayStart(l, q)
    ensures var s1 := Apply(s, Spawn(q));
            && Enabled(l, s, Spawn(q)) && Enabled(l, s1, Acquire(Child(q, k)))
            && Filled(Apply(s1, Acquire(Child(q, k))), q, k + 1)
  {
    hide MayStart;
    var s1 := Apply(s, Spawn(q));
    SlotsAtMost(s1, q, k);
    assert s1[Child(q, k)] == QUEUED;
    NoOwnTask(q);
  }

  lemma {:induction false} Fill(l: Limits, n: nat, k: nat) returns (steps: seq<Step>)
    requires MayStart(l, Root) && MayStart(l, Child(Root, n)) && k <= l.capacity && l.capacity > 0
    ensures IsRun(l, steps) && Filled(After(l, steps), Child(Root, n), k)
  {
    hide IsRun, After, MayStart, Enabled, Apply, Filled;
    if k == 0 {
      steps := Begin(l, n);
    } else {
      var q := Child(Root, n);
      steps := Fill(l, n, k - 1);
      FillOne(l, After(l, steps), q, k - 1);
      TakeStep(l, steps, Spawn(q));
      TakeStep(l, steps + [Spawn(q)], Acquire(Child(q, k - 1)));
      steps := steps + [Spawn(q)] + [Acquire(Child(q, k - 1))];
    }
  }

  /** The first k tasks of a run. */
  function TasksOf(q: Path, k: nat): set<Path> {
    set i: nat | i < k :: Child(q, i)
  }

  lemma {:induction false} TasksOfSize(q: Path, k: nat)
    ensures |TasksOf(q, k)| == k && q !in TasksOf(q, k)
  {
    NoOwnTask(q);
    if k > 0 {
      TasksOfSize(q, k - 1);
      assert TasksOf(q, k) == TasksOf(q, k - 1) + {Child(q, k - 1)};
    }
  }

  lemma FilledHolds(s: Tasks, q: Path, k: nat)
    requires Filled(s, q, k)
    ensures TotalSlots(s) >= k + 1
  {
    TasksOfSize(q, k);
    SubsetSize(TasksOf(q, k) + {q}, Holders(s));
  }

  /** The limit bounds the tasks running at the same time, as documented, exactly if no task may start tasks
      of its own: because of the depth, or because the agents they run lack the Task tool. */
  lemma LimitIsGlobalIff(l: Limits)
    requires l.capacity > 0
    ensures (forall steps | IsRun(l, steps) :: TotalSlots(After(l, steps)) <= l.capacity) <==> !Nested(l)
  {
    hide IsRun, After, TotalSlots, Inv, MayStart, Filled;
    if Nested(l) {
      var n: nat :| MayStart(l, Child(Root, n));
      var steps := Fill(l, n, l.capacity);
      FilledHolds(After(l, steps), Child(Root, n), l.capacity);
    } else {
      forall steps | IsRun(l, steps) ensures TotalSlots(After(l, steps)) <= l.capacity {
        RunKeeps(l, steps);
        FlatTotal(l, After(l, steps));
      }
    }
  }

  /** In the source: without a limit there are four slots, and no run is nested deeper than three. */
  lemma SourceRuns(concurrency: int, hasTask: Path -> bool, steps: seq<Step>, p: Path)
    requires IsRun(SourceLimits(concurrency, hasTask), steps) && p in After(SourceLimits(concurrency, hasTask), steps)
    ensures Used(After(SourceLimits(concurrency, hasTask), steps), p) <= if concurrency <= 0 then 4 else concurrency
    ensures Depth(p) <= 3
    ensures MayStart(SourceLimits(concurrency, hasTask), p) <==> hasTask(p) && Depth(p) < 3
  {
    hide IsRun, After, Used;
    SlotsAreBounded(SourceLimits(concurrency, hasTask), steps, p);
  }

  /** So in the source more tasks than the limit can run at the same time, whatever the limit, as soon as
      the first run and one of its tasks have the Task tool. */
  lemma LimitIsExceeded(concurrency: int, hasTask: Path -> bool, n: nat)
    requires hasTask(Root) && hasTask(Child(Root, n))
    ensures exists steps :: IsRun(SourceLimits(concurrency, hasTask), steps)
                && TotalSlots(After(SourceLimits(concurrency, hasTask), steps)) >
                     if concurrency <= 0 then 4 else concurrency
  {
    assert MayStart(SourceLimits(concurrency, hasTask), Child(Root, n));
    LimitIsGlobalIff(SourceLimits(concurrency, hasTask));
  }
}
