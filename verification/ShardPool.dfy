/** The bounded worker pool of a sharded run (runner/shard.go, runSharded): one goroutine per shard,
    a semaphore of MaxParallel slots, and a cancel that an erring shard fires when on_shard_error
    is "stop". Every interleaving of the goroutines' steps is a run. */
module ShardPool {
  import opened Wrappers

  type File = string

  /** What happened inside one shard: building its bundle, running the model, and the fabrication check. */
  datatype Observation = Observation(
    buildError: Option<string>, runError: Option<string>, editsApplied: bool, claimsFiles: bool, report: string)

  datatype ShardError = Skipped | Failure(message: string)

  datatype Outcome = Outcome(files: seq<File>, editsApplied: bool, error: Option<ShardError>, report: string)

  datatype Config = Config(shards: seq<seq<File>>, maxParallel: nat, stopOnError: bool, requireActionable: bool)

  const FABRICATION := "report claims files touched but no edit was applied in this shard"

  function RunOneShard(c: Config, files: seq<File>, obs: Observation): Outcome {
    if obs.buildError.Some? then Outcome(files, false, Some(Failure(obs.buildError.value)), "")
    else
      var error :=
        if obs.runError.Some? then Some(Failure(obs.runError.value))
        else if c.requireActionable && !obs.editsApplied && obs.claimsFiles then Some(Failure(FABRICATION))
        else None;
      Outcome(files, obs.editsApplied, error, obs.report)
  }

  /** Where one goroutine is. From Acquired to Leaving it holds a semaphore slot; Failing has stored
      its outcome but not called stop yet. */
  datatype Phase = Waiting | Acquired | Running | Failing | Leaving | Finished

  datatype Shard = Shard(phase: Phase, result: Option<Outcome>)

  datatype State = State(shards: seq<Shard>, stopped: bool, parentCancelled: bool)

  datatype Step =
    | Acquire(index: nat)
    | CheckContext(index: nat)
    | Run(index: nat, obs: Observation)
    | Stop(index: nat)
    | Release(index: nat)
    | CancelParent

  predicate Holds(s: Shard) {
    s.phase in {Acquired, Running, Failing, Leaving}
  }

  /** The shard erred on its own, rather than being skipped. */
  predicate FailedItself(s: Shard) {
    s.result.Some? && s.result.value.error.Some? && s.result.value.error.value.Failure?
  }

  /** The shard erred on its own or may still do so. */
  predicate MayFail(s: Shard) {
    FailedItself(s) || s.phase == Running
  }

  function Count(shards: seq<Shard>, p: Shard -> bool): nat {
    if shards == [] then 0 else Count(shards[..|shards| - 1], p) + if p(shards[|shards| - 1]) then 1 else 0
  }

  function Init(c: Config): State {
    State(seq(|c.shards|, _ => Shard(Waiting, None)), false, false)
  }

  predicate Enabled(c: Config, s: State, step: Step) {
    match step
    case Acquire(i) => i < |s.shards| && s.shards[i].phase == Waiting && Count(s.shards, Holds) < c.maxParallel
    case CheckContext(i) => i < |s.shards| && s.shards[i].phase == Acquired
    case Run(i, _) => i < |s.shards| == |c.shards| && s.shards[i].phase == Running
    case Stop(i) => i < |s.shards| && s.shards[i].phase == Failing
    case Release(i) => i < |s.shards| && s.shards[i].phase == Leaving
    case CancelParent => !s.parentCancelled
  }

  function Put(s: State, i: nat, shard: Shard): State
    requires i < |s.shards|
  {
    s.(shards := s.shards[i := shard])
  }

  function Apply(c: Config, s: State, step: Step): State
    requires |s.shards| == |c.shards| && Enabled(c, s, step)
  {
    match step
    case Acquire(i) => Put(s, i, s.shards[i].(phase := Acquired))
    case CheckContext(i) =>
      if s.stopped || s.parentCancelled
      then Put(s, i, Shard(Leaving, Some(Outcome(c.shards[i], false, Some(Skipped), ""))))
      else Put(s, i, s.shards[i].(phase := Running))
    case Run(i, obs) =>
      var outcome := RunOneShard(c, c.shards[i], obs);
      Put(s, i, Shard(if outcome.error.Some? then Failing else Leaving, Some(outcome)))
    case Stop(i) => Put(s.(stopped := s.stopped || c.stopOnError), i, s.shards[i].(phase := Leaving))
    case Release(i) => Put(s, i, s.shards[i].(phase := Finished))
    case CancelParent => s.(parentCancelled := true)
  }

  ghost predicate IsRun(c: Config, steps: seq<Step>)
    decreases |steps|, 0
  {
    steps == [] || (IsRun(c, steps[..|steps| - 1]) && Enabled(c, After(c, steps[..|steps| - 1]), steps[|steps| - 1]))
  }

  ghost function After(c: Config, steps: seq<Step>): (s: State)
    requires IsRun(c, steps)
    ensures |s.shards| == |c.shards|
    decreases |steps|, 1
  {
    if steps == [] then Init(c) else Apply(c, After(c, steps[..|steps| - 1]), steps[|steps| - 1])
  }

  lemma {:induction false} CountUpdate(shards: seq<Shard>, i: nat, t: Shard, p: Shard -> bool)
    requires i < |shards|
    ensures Count(shards[i := t], p) == Count(shards, p) - (if p(shards[i]) then 1 else 0) + if p(t) then 1 else 0
  {
    var last := |shards| - 1;
    if i < last {
      assert shards[i := t][..last] == shards[..last][i := t];
      CountUpdate(shards[..last], i, t, p);
    } else {
      assert shards[i := t][..last] == shards[..last];
    }
  }

  lemma {:induction false} CountImplies(shards: seq<Shard>, p: Shard -> bool, q: Shard -> bool)
    requires forall i :: 0 <= i < |shards| && p(shards[i]) ==> q(shards[i])
    ensures Count(shards, p) <= Count(shards, q)
  {
    if shards != [] {
      CountImplies(shards[..|shards| - 1], p, q);
    }
  }

  lemma {:induction false} CountNone(shards: seq<Shard>, p: Shard -> bool)
    requires forall i :: 0 <= i < |shards| ==> !p(shards[i])
    ensures Count(shards, p) == 0
  {
    if shards != [] {
      CountNone(shards[..|shards| - 1], p);
    }
  }

  // ----- What every step keeps -----

  /** A goroutine has stored an outcome exactly from the moment it failed or was done, and the
      outcome is about its own files. */
  ghost predicate OwnOutcome(c: Config, s: State, i: nat)
    requires i < |s.shards| == |c.shards|
  {
    var shard := s.shards[i];
    && (shard.result.Some? <==> shard.phase in {Failing, Leaving, Finished})
    && (shard.result.Some? ==> shard.result.value.files == c.shards[i])
    && (shard.phase == Failing ==> FailedItself(shard))
    && (shard.result.Some? && shard.result.value.error == Some(Skipped) ==> s.stopped || s.parentCancelled)
  }

  ghost predicate Inv(c: Config, s: State) {
    && |s.shards| == |c.shards|
    && Count(s.shards, Holds) <= c.maxParallel
    && (forall i :: 0 <= i < |s.shards| ==> OwnOutcome(c, s, i))
    && (s.stopped ==> c.stopOnError)
    && StopInv(c, s)
  }

  /** In stop mode a shard that erred holds its slot until it has fired the cancel, so everything
      that ever errs was holding a slot at that moment. */
  ghost predicate StopInv(c: Config, s: State) {
    c.stopOnError ==>
      if s.stopped then Count(s.shards, MayFail) <= c.maxParallel
      else forall i :: 0 <= i < |s.shards| && FailedItself(s.shards[i]) ==> s.shards[i].phase == Failing
  }

  lemma OutcomesKept(c: Config, s: State, step: Step)
    requires Inv(c, s) && Enabled(c, s, step)
    ensures forall j :: 0 <= j < |c.shards| ==> OwnOutcome(c, Apply(c, s, step), j)
  {
    forall j | 0 <= j < |c.shards| ensures OwnOutcome(c, Apply(c, s, step), j) {
      assert OwnOutcome(c, s, j);
    }
  }

  lemma SlotsKept(c: Config, s: State, step: Step)
    requires Inv(c, s) && Enabled(c, s, step)
    ensures Count(Apply(c, s, step).shards, Holds) <= c.maxParallel
  {
    if !step.CancelParent? {
      CountUpdate(s.shards, step.index, Apply(c, s, step).shards[step.index], Holds);
    }
  }

  lemma StopKept(c: Config, s: State, step: Step)
    requires Inv(c, s) && Enabled(c, s, step) && c.stopOnError
    ensures StopInv(c, Apply(c, s, step))
  {
    var t := Apply(c, s, step);
    if !step.CancelParent? {
      assert OwnOutcome(c, s, step.index);
      CountUpdate(s.shards, step.index, t.shards[step.index], MayFail);
      if t.stopped && !s.stopped {
        forall j | 0 <= j < |s.shards| && MayFail(s.shards[j]) ensures Holds(s.shards[j]) {
          assert FailedItself(s.shards[j]) || s.shards[j].phase == Running;
        }
        CountImplies(s.shards, MayFail, Holds);
      }
    }
  }

  lemma StepKeeps(c: Config, s: State, step: Step)
    requires Inv(c, s) && Enabled(c, s, step)
    ensures Inv(c, Apply(c, s, step))
  {
    OutcomesKept(c, s, step);
    SlotsKept(c, s, step);
    if c.stopOnError {
      StopKept(c, s, step);
    }
  }

  lemma {:induction false} RunKeeps(c: Config, steps: seq<Step>)
    requires IsRun(c, steps)
    ensures Inv(c, After(c, steps))
  {
    if steps == [] {
      CountNone(Init(c).shards, Holds);
    } else {
      RunKeeps(c, steps[..|steps| - 1]);
      StepKeeps(c, After(c, steps[..|steps| - 1]), steps[|steps| - 1]);
    }
  }

  // ----- Main results -----

  /** Never more than MaxParallel shards are past the semaphore. */
  lemma ParallelismBound(c: Config, steps: seq<Step>)
    requires IsRun(c, steps)
    ensures Count(After(c, steps).shards, Holds) <= c.maxParallel
  {
    RunKeeps(c, steps);
  }

  ghost predicate AllFinished(s: State) {
    forall i :: 0 <= i < |s.shards| ==> s.shards[i].phase == Finished
  }

  /** The pool is stuck before the end only if it has no slot at all. */
  lemma NoDeadlockIff(c: Config, steps: seq<Step>)
    requires IsRun(c, steps) && !AllFinished(After(c, steps))
    ensures (exists step: Step :: !step.CancelParent? && Enabled(c, After(c, steps), step)) <==> c.maxParallel > 0
  {
    RunKeeps(c, steps);
    var s := After(c, steps);
    if c.maxParallel > 0 {
      if i :| 0 <= i < |s.shards| && Holds(s.shards[i]) {
        var obs := Observation(None, None, false, false, "");
        var phase := s.shards[i].phase;
        var step :=
          if phase == Acquired then CheckContext(i)
          else if phase == Running then Run(i, obs)
          else if phase == Failing then Stop(i)
          else Release(i);
        assert Enabled(c, s, step);
      } else {
        CountNone(s.shards, Holds);
        var i :| 0 <= i < |s.shards| && s.shards[i].phase != Finished;
        assert Enabled(c, s, Acquire(i));
      }
    } else {
      forall i: nat | i < |s.shards| ensures !Holds(s.shards[i]) {
        if Holds(s.shards[i]) {
          CountUpdate(s.shards, i, Shard(Waiting, None), Holds);
        }
      }
    }
  }

  /** Steps one goroutine still has to take. */
  function Ahead(p: Phase): nat {
    match p
    case Waiting => 5
    case Acquired => 4
    case Running => 3
    case Failing => 2
    case Leaving => 1
    case Finished => 0
  }

  function StepsLeft(shards: seq<Shard>): nat {
    if shards == [] then 0 else StepsLeft(shards[..|shards| - 1]) + Ahead(shards[|shards| - 1].phase)
  }

  lemma {:induction false} StepsLeftUpdate(shards: seq<Shard>, i: nat, t: Shard)
    requires i < |shards|
    ensures StepsLeft(shards[i := t]) == StepsLeft(shards) - Ahead(shards[i].phase) + Ahead(t.phase)
  {
    var last := |shards| - 1;
    if i < last {
      assert shards[i := t][..last] == shards[..last][i := t];
      StepsLeftUpdate(shards[..last], i, t);
    } else {
      assert shards[i := t][..last] == shards[..last];
    }
  }

  lemma OneStepUsed(c: Config, s: State, step: Step)
    requires |s.shards| == |c.shards| && Enabled(c, s, step)
    ensures var t := Apply(c, s, step);
            && StepsLeft(t.shards) + 1 <= StepsLeft(s.shards) + (if step.CancelParent? then 1 else 0)
            && (step.CancelParent? ==> !s.parentCancelled && t.parentCancelled)
            && (!step.CancelParent? ==> t.parentCancelled == s.parentCancelled)
  {
    hide StepsLeft;
    if !step.CancelParent? {
      StepsLeftUpdate(s.shards, step.index, Apply(c, s, step).shards[step.index]);
    }
  }

  lemma {:induction false} StepsAreUsedUp(c: Config, steps: seq<Step>)
    requires IsRun(c, steps)
    ensures var s := After(c, steps);
            |steps| + StepsLeft(s.shards) <= StepsLeft(Init(c).shards) + if s.parentCancelled then 1 else 0
  {
    hide StepsLeft, Apply, Enabled;
    if steps != [] {
      var s, step := After(c, steps[..|steps| - 1]), steps[|steps| - 1];
      StepsAreUsedUp(c, steps[..|steps| - 1]);
      OneStepUsed(c, s, step);
    }
  }

  /** A run starts with five steps per shard ahead of it. */
  lemma {:induction false} StepsAtStart(shards: seq<Shard>)
    requires forall i :: 0 <= i < |shards| ==> shards[i].phase == Waiting
    ensures StepsLeft(shards) == 5 * |shards|
  {
    if shards != [] {
      StepsAtStart(shards[..|shards| - 1]);
    }
  }

  /** Every goroutine takes at most five steps, so the wait at the end returns: a run has at most five
      steps per shard, and one more if the parent context is cancelled. */
  lemma RunsAreFinite(c: Config, steps: seq<Step>)
    requires IsRun(c, steps)
    ensures |steps| <= 5 * |c.shards| + if After(c, steps).parentCancelled then 1 else 0
  {
    StepsAreUsedUp(c, steps);
    StepsAtStart(Init(c).shards);
  }

  /** When all goroutines are done, every index has an outcome about exactly its own files. */
  lemma EveryShardHasItsOutcome(c: Config, steps: seq<Step>) returns (outcomes: seq<Outcome>)
    requires IsRun(c, steps) && AllFinished(After(c, steps))
    ensures |outcomes| == |c.shards|
    ensures forall i :: 0 <= i < |c.shards| ==>
              After(c, steps).shards[i].result == Some(outcomes[i]) && outcomes[i].files == c.shards[i]
  {
    RunKeeps(c, steps);
    var s := After(c, steps);
    forall i | 0 <= i < |c.shards|
      ensures s.shards[i].result.Some? && s.shards[i].result.value.files == c.shards[i]
    {
      assert OwnOutcome(c, s, i);
    }
    outcomes := seq(|s.shards|, i requires 0 <= i < |s.shards| => s.shards[i].result.value);
  }

  lemma StepKeepsOutcome(c: Config, s: State, step: Step, i: nat)
    requires Enabled(c, s, step) && i < |c.shards| == |s.shards| && OwnOutcome(c, s, i)
    ensures |Apply(c, s, step).shards| == |s.shards|
    ensures s.shards[i].result.Some? ==> Apply(c, s, step).shards[i].result == s.shards[i].result
    ensures s.stopped ==> Apply(c, s, step).stopped
  {
  }

  /** An outcome, once stored, is final: no later step of the run changes it. */
  lemma {:induction false} OutcomesAreFinal(c: Config, steps: seq<Step>, n: nat, i: nat)
    requires IsRun(c, steps) && n <= |steps| && i < |c.shards|
    ensures IsRun(c, steps[..n])
    ensures After(c, steps[..n]).shards[i].result.Some? ==>
              After(c, steps).shards[i].result == After(c, steps[..n]).shards[i].result
    ensures After(c, steps[..n]).stopped ==> After(c, steps).stopped
    decreases |steps|
  {
    hide Apply, Enabled, OwnOutcome;
    if n < |steps| {
      var front := steps[..|steps| - 1];
      assert front[..n] == steps[..n];
      OutcomesAreFinal(c, front, n, i);
      RunKeeps(c, front);
      StepKeepsOutcome(c, After(c, front), steps[|steps| - 1], i);
    } else {
      assert steps[..n] == steps;
    }
  }

  /** A shard is skipped exactly if the stop has been fired or the parent context cancelled when it reaches the
      check; otherwise it goes on to run. */
  lemma SkippedIff(c: Config, steps: seq<Step>, n: nat, i: nat)
    requires IsRun(c, steps) && n < |steps| && i < |c.shards|
    requires IsRun(c, steps[..n]) && steps[n] == CheckContext(i)
    ensures var s, result := After(c, steps[..n]), After(c, steps).shards[i].result;
            && (s.stopped || s.parentCancelled ==> result == Some(Outcome(c.shards[i], false, Some(Skipped), "")))
            && (result.Some? && result.value.error == Some(Skipped) ==> s.stopped || s.parentCancelled)
  {
    hide IsRun, After, Apply, Enabled;
    OutcomesAreFinal(c, steps, n + 1, i);
    assert steps[..n + 1][..n] == steps[..n];
    JustChecked(c, steps[..n + 1], i);
    var s := After(c, steps[..n]);
    if !s.stopped && !s.parentCancelled {
      StaysRun(c, steps, n + 1, i);
    }
  }

  lemma JustChecked(c: Config, steps: seq<Step>, i: nat)
    requires IsRun(c, steps) && steps != [] && steps[|steps| - 1] == CheckContext(i) && i < |c.shards|
    ensures var s, t := After(c, steps[..|steps| - 1]), After(c, steps);
            if s.stopped || s.parentCancelled
            then t.shards[i].result == Some(Outcome(c.shards[i], false, Some(Skipped), ""))
            else t.shards[i].result.None? && t.shards[i].phase == Running
  {
    assert OwnOutcome(c, After(c, steps[..|steps| - 1]), i) by { RunKeeps(c, steps[..|steps| - 1]); }
  }

  /** A shard that runs is not skipped any more. */
  lemma {:induction false} StaysRun(c: Config, steps: seq<Step>, n: nat, i: nat)
    requires IsRun(c, steps) && n <= |steps| && i < |c.shards| && IsRun(c, steps[..n])
    requires After(c, steps[..n]).shards[i].phase == Running
    ensures After(c, steps).shards[i].phase != Waiting && After(c, steps).shards[i].phase != Acquired
    ensures var r := After(c, steps).shards[i].result; r.Some? ==> r.value.error != Some(Skipped)
    decreases |steps|
  {
    hide Apply, Enabled, OwnOutcome;
    if n == |steps| {
      assert steps[..n] == steps;
      RunKeeps(c, steps);
      assert OwnOutcome(c, After(c, steps), i);
      RunningHasNone(c, After(c, steps), i);
    } else {
      var front := steps[..|steps| - 1];
      assert front[..n] == steps[..n];
      StaysRun(c, front, n, i);
      RunsOn(c, After(c, front), steps[|steps| - 1], i);
    }
  }

  lemma RunningHasNone(c: Config, s: State, i: nat)
    requires i < |s.shards| == |c.shards| && OwnOutcome(c, s, i) && s.shards[i].phase == Running
    ensures s.shards[i].result.None?
  {
  }

  lemma RunsOn(c: Config, s: State, step: Step, i: nat)
    requires i < |s.shards| == |c.shards| && Enabled(c, s, step)
    requires s.shards[i].phase != Waiting && s.shards[i].phase != Acquired
    requires s.shards[i].result.Some? ==> s.shards[i].result.value.error != Some(Skipped)
    ensures var t := Apply(c, s, step).shards[i];
            && t.phase != Waiting && t.phase != Acquired
            && (t.result.Some? ==> t.result.value.error != Some(Skipped))
  {
  }

  /** In continue mode nothing is skipped while the parent context lives. */
  lemma ContinueSkipsNone(c: Config, steps: seq<Step>, i: nat)
    requires IsRun(c, steps) && !c.stopOnError && !After(c, steps).parentCancelled && i < |c.shards|
    ensures var r := After(c, steps).shards[i].result; r.Some? ==> r.value.error != Some(Skipped)
  {
    RunKeeps(c, steps);
    assert OwnOutcome(c, After(c, steps), i);
  }

  /** The stop cancel is only ever fired by a shard that erred on its own. */
  lemma {:induction false} StopHasACulprit(c: Config, steps: seq<Step>)
    requires IsRun(c, steps) && After(c, steps).stopped
    ensures exists i :: 0 <= i < |c.shards| && FailedItself(After(c, steps).shards[i])
  {
    var n := |steps| - 1;
    var s, step := After(c, steps[..n]), steps[n];
    RunKeeps(c, steps[..n]);
    if s.stopped {
      StopHasACulprit(c, steps[..n]);
      var i :| 0 <= i < |c.shards| && FailedItself(s.shards[i]);
      OutcomesAreFinal(c, steps, n, i);
      assert FailedItself(After(c, steps).shards[i]);
    } else {
      assert OwnOutcome(c, s, step.index);
      assert FailedItself(After(c, steps).shards[step.index]);
    }
  }

  /** In stop mode at most MaxParallel shards err on their own, in every interleaving. */
  lemma StopBoundsFailures(c: Config, steps: seq<Step>)
    requires IsRun(c, steps) && c.stopOnError
    ensures Count(After(c, steps).shards, FailedItself) <= c.maxParallel
  {
    RunKeeps(c, steps);
    var s := After(c, steps);
    if s.stopped {
      CountImplies(s.shards, FailedItself, MayFail);
    } else {
      CountImplies(s.shards, FailedItself, Holds);
    }
  }

  // ----- Outcomes tell what the shards did -----

  /** What an outcome says about building the shard's agent, running it, and its report. */
  ghost predicate Tells(c: Config, files: seq<File>, obs: Observation, oc: Outcome) {
    && oc.files == files
    && (oc.error == None <==> !FailsItself(c, obs))
    && (if obs.buildError.Some? then oc == Outcome(files, false, Some(Failure(obs.buildError.value)), "")
        else
          && oc.editsApplied == obs.editsApplied && oc.report == obs.report
          && (obs.runError.Some? ==> oc.error == Some(Failure(obs.runError.value)))
          && (obs.runError.None? && oc.error.Some? ==>
                oc.error == Some(Failure("report claims files touched but no edit was applied in this shard"))))
  }

  /** The build or the model run failed, or files are claimed that no edit touched, where that matters. */
  predicate FailsItself(c: Config, obs: Observation) {
    || obs.buildError.Some? || obs.runError.Some?
    || (c.requireActionable && !obs.editsApplied && obs.claimsFiles)
  }

  lemma OneShardTells(c: Config, files: seq<File>, obs: Observation)
    ensures Tells(c, files, obs, RunOneShard(c, files, obs))
    ensures RunOneShard(c, files, obs).error != Some(Skipped)
  {
  }

  /** The run's step with that number ran shard i and observed that. */
  ghost predicate RanBy(c: Config, steps: seq<Step>, n: nat, i: nat, obs: Observation) {
    n < |steps| && IsRun(c, steps[..n]) && steps[n] == Run(i, obs) && i < |c.shards|
  }

  /** In every run, a stored outcome is that of a skipped shard, or tells what the step that ran it observed. */
  lemma {:induction false} OutcomeIsObserved(c: Config, steps: seq<Step>, i: nat) returns (n: nat, obs: Observation)
    requires IsRun(c, steps) && i < |c.shards| && After(c, steps).shards[i].result.Some?
    ensures var oc := After(c, steps).shards[i].result.value;
            || oc == Outcome(c.shards[i], false, Some(Skipped), "")
            || (RanBy(c, steps, n, i, obs) && Tells(c, c.shards[i], obs, oc) && oc.error != Some(Skipped))
  {
    hide Tells, RunOneShard, Apply, Enabled, OwnOutcome;
    n, obs := 0, Observation(None, None, false, false, "");
    if steps == [] {
      NothingAtStart(c, i);
    } else {
      var front, step := steps[..|steps| - 1], steps[|steps| - 1];
      var s := After(c, front);
      RunKeeps(c, front);
      if s.shards[i].result.Some? {
        n, obs := OutcomeIsObserved(c, front, i);
        StepKeepsOutcome(c, s, step, i);
        assert n < |front| ==> front[..n] == steps[..n] && front[n] == steps[n];
      } else {
        NewOutcome(c, s, step, i);
        if step.Run? {
          n, obs := |front|, step.obs;
          OneShardTells(c, c.shards[i], obs);
        }
      }
    }
  }

  lemma NothingAtStart(c: Config, i: nat)
    requires i < |c.shards|
    ensures Init(c).shards[i].result.None?
  {
  }

  lemma NewOutcome(c: Config, s: State, step: Step, i: nat)
    requires |s.shards| == |c.shards| && Enabled(c, s, step) && i < |c.shards|
    requires s.shards[i].result.None? && Apply(c, s, step).shards[i].result.Some?
    ensures var oc := Apply(c, s, step).shards[i].result.value;
            || oc == Outcome(c.shards[i], false, Some(Skipped), "")
            || (step.Run? && step.index == i && oc == RunOneShard(c, c.shards[i], step.obs))
  {
    hide RunOneShard;
  }

  /** And what the step that ran a shard observed is told by its outcome in the end. */
  lemma ObservationIsTold(c: Config, steps: seq<Step>, n: nat, i: nat, obs: Observation)
    requires IsRun(c, steps) && RanBy(c, steps, n, i, obs)
    ensures var r := After(c, steps).shards[i].result;
            r.Some? && Tells(c, c.shards[i], obs, r.value) && r.value.error != Some(Skipped)
  {
    hide IsRun, Tells, RunOneShard;
    OutcomesAreFinal(c, steps, n + 1, i);
    assert steps[..n + 1][..n] == steps[..n];
    JustRan(c, steps[..n + 1], i, obs);
    OneShardTells(c, c.shards[i], obs);
  }

  lemma JustRan(c: Config, steps: seq<Step>, i: nat, obs: Observation)
    requires IsRun(c, steps) && steps != [] && steps[|steps| - 1] == Run(i, obs) && i < |c.shards|
    ensures After(c, steps).shards[i].result == Some(RunOneShard(c, c.shards[i], obs))
  {
    hide RunOneShard;
  }

  ghost predicate ErredBy(c: Config, steps: seq<Step>, i: nat) {
    exists n: nat, obs :: RanBy(c, steps, n, i, obs) && FailsItself(c, obs)
  }

  /** In every run, a shard has erred on its own if and only if the step that ran it observed a failed build, a
      failed model run, or a report of files that no edit touched where that matters. */
  lemma ErredItselfIff(c: Config, steps: seq<Step>, i: nat)
    requires IsRun(c, steps) && i < |c.shards|
    ensures FailedItself(After(c, steps).shards[i]) <==> ErredBy(c, steps, i)
  {
    hide IsRun, After;
    if n: nat, obs :| RanBy(c, steps, n, i, obs) && FailsItself(c, obs) {
      ObservationIsTold(c, steps, n, i, obs);
    } else if After(c, steps).shards[i].result.Some? {
      var n, obs := OutcomeIsObserved(c, steps, i);
    }
  }

  /** A finished run errs if and only if some shard was skipped or erred on its own. */
  lemma RunErrsIff(c: Config, steps: seq<Step>, outcomes: seq<Outcome>)
    requires IsRun(c, steps) && |outcomes| == |c.shards|
    requires forall i :: 0 <= i < |c.shards| ==> After(c, steps).shards[i].result == Some(outcomes[i])
    ensures (exists i :: 0 <= i < |outcomes| && outcomes[i].error.Some?) <==>
            exists i: nat :: i < |c.shards| && (outcomes[i].error == Some(Skipped) || ErredBy(c, steps, i))
  {
    hide IsRun, After, ErredBy;
    forall i: nat | i < |c.shards|
      ensures outcomes[i].error.Some? <==> outcomes[i].error == Some(Skipped) || ErredBy(c, steps, i)
    {
      assert After(c, steps).shards[i].result == Some(outcomes[i]);
      ErredItselfIff(c, steps, i);
    }
  }

  // ----- Aggregation -----

  datatype Summary = Summary(files: nat, shards: nat, edited: nat, clean: nat, failed: nat)

  function TotalFiles(shards: seq<seq<File>>): nat {
    if shards == [] then 0 else TotalFiles(shards[..|shards| - 1]) + |shards[|shards| - 1]|
  }

  function Tally(outcomes: seq<Outcome>, p: Outcome -> bool): nat {
    if outcomes == [] then 0 else Tally(outcomes[..|outcomes| - 1], p) + if p(outcomes[|outcomes| - 1]) then 1 else 0
  }

  predicate Failed(oc: Outcome) {
    oc.error.Some?
  }

  predicate Edited(oc: Outcome) {
    oc.error.None? && oc.editsApplied
  }

  predicate Clean(oc: Outcome) {
    oc.error.None? && !oc.editsApplied
  }

  lemma NothingYet()
    ensures TotalFiles([]) == 0 && Tally([], Failed) == 0 && Tally([], Edited) == 0 && Tally([], Clean) == 0
  {
  }

  lemma TallyStep(outcomes: seq<Outcome>, k: nat, p: Outcome -> bool)
    requires k < |outcomes|
    ensures Tally(outcomes[..k + 1], p) == Tally(outcomes[..k], p) + if p(outcomes[k]) then 1 else 0
  {
    assert outcomes[..k + 1][..k] == outcomes[..k];
  }

  lemma TotalStep(shards: seq<seq<File>>, k: nat)
    requires k < |shards|
    ensures TotalFiles(shards[..k + 1]) == TotalFiles(shards[..k]) + |shards[k]|
  {
    assert shards[..k + 1][..k] == shards[..k];
  }

  ghost predicate FirstError(outcomes: seq<Outcome>, k: nat) {
    k < |outcomes| && outcomes[k].error.Some? && forall i :: 0 <= i < k ==> outcomes[i].error.None?
  }

  /** Rolls the outcomes up; `firstErr` is the index of the first erring shard. */
  method Summarize(c: Config, outcomes: seq<Outcome>) returns (summary: Summary, firstErr: Option<nat>)
    requires |outcomes| == |c.shards| && forall i :: 0 <= i < |outcomes| ==> outcomes[i].files == c.shards[i]
    ensures summary.shards == |outcomes| && summary.files == TotalFiles(c.shards)
    ensures summary.edited + summary.clean + summary.failed == summary.shards
    ensures summary.failed == Tally(outcomes, Failed)
    ensures summary.edited == Tally(outcomes, Edited)
    ensures summary.clean == Tally(outcomes, Clean)
    ensures firstErr.Some? <==> summary.failed > 0
    ensures firstErr.Some? <==> exists i :: 0 <= i < |outcomes| && outcomes[i].error.Some?
    ensures firstErr.Some? ==> FirstError(outcomes, firstErr.value)
  {
    hide TotalFiles, Tally;
    NothingYet();
    assert c.shards[..0] == [] && outcomes[..0] == [];
    summary, firstErr := Summary(0, |outcomes|, 0, 0, 0), None;
    for k := 0 to |outcomes|
      invariant summary.shards == |outcomes| && summary.files == TotalFiles(c.shards[..k])
      invariant summary.edited + summary.clean + summary.failed == k
      invariant summary.failed == Tally(outcomes[..k], Failed)
      invariant summary.edited == Tally(outcomes[..k], Edited)
      invariant summary.clean == Tally(outcomes[..k], Clean)
      invariant firstErr.None? <==> summary.failed == 0
      invariant firstErr.None? ==> forall i :: 0 <= i < k ==> outcomes[i].error.None?
      invariant firstErr.Some? ==> firstErr.value < k && FirstError(outcomes, firstErr.value)
    {
      var oc := outcomes[k];
      TotalStep(c.shards, k);
      TallyStep(outcomes, k, Failed);
      TallyStep(outcomes, k, Edited);
      TallyStep(outcomes, k, Clean);
      summary := summary.(files := summary.files + |oc.files|);
      if oc.error.Some? {
        summary := summary.(failed := summary.failed + 1);
        if firstErr.None? {
          firstErr := Some(k);
        }
      } else if oc.editsApplied {
        summary := summary.(edited := summary.edited + 1);
      } else {
        summary := summary.(clean := summary.clean + 1);
      }
    }
    assert c.shards[..|outcomes|] == c.shards && outcomes[..|outcomes|] == outcomes;
  }
}
