/** Execution of a pipeline (pipeline/runner.go): tiers run one after the other, the stages of a tier
    concurrently, and gates guard the way to the next tier. Agents, shell commands and git are
    oracles: a step carries what they answered. */
module PipelineRun {
  import opened Wrappers
  import opened DependencyGraph
  import opened Pipeline

  datatype Status = Passed | Failed | Reverted | Skipped

  // ----- One stage -----

  /** What the outside world did to one stage: which pre-gates failed, then either the partition's
      fate or each agent's failure. */
  datatype Observation = Observation(preGateFails: seq<bool>, work: Work)
  datatype Work = PartitionError | NoFiles | Agents(failed: seq<bool>)

  predicate Fits(s: Stage, obs: Observation) {
    && |obs.preGateFails| == |s.preGates|
    && (s.partition.None? ==> obs.work.Agents? && |obs.work.failed| == |s.AgentList()|)
    && (s.partition.Some? && obs.work.Agents? ==> |obs.work.failed| > 0)
  }

  /** Runs the pre-gates in order; the first failing one marked skip or stop is an error. */
  method RunPreGates(s: Stage, fails: seq<bool>) returns (err: bool)
    requires |fails| == |s.preGates|
    ensures err <==> exists i :: 0 <= i < |fails| && fails[i] && s.preGates[i].onError in ["skip", "stop"]
  {
    for i := 0 to |s.preGates|
      invariant forall j :: 0 <= j < i ==> !(fails[j] && s.preGates[j].onError in ["skip", "stop"])
    {
      if fails[i] {
        var onError := if s.preGates[i].onError == "" then "continue" else s.preGates[i].onError;
        if onError == "skip" || onError == "stop" {
          return true;
        }
      }
    }
    err := false;
  }

  predicate PreGateError(s: Stage, obs: Observation)
    requires Fits(s, obs)
  {
    exists i :: 0 <= i < |obs.preGateFails| && obs.preGateFails[i] && s.preGates[i].onError in ["skip", "stop"]
  }

  function StageStatus(s: Stage, obs: Observation): Status
    requires Fits(s, obs)
  {
    if PreGateError(s, obs) then Skipped
    else match obs.work
      case PartitionError => Failed
      case NoFiles => Skipped
      case Agents(failed) => if true in failed then Failed else Passed
  }

  /** A stage run to its result, in the order of the source. */
  method RunStage(s: Stage, obs: Observation) returns (status: Status)
    requires Fits(s, obs)
    ensures status == StageStatus(s, obs)
    ensures status != Reverted
  {
    var err := RunPreGates(s, obs.preGateFails);
    if err {
      return Skipped;
    }
    match obs.work {
      case PartitionError => return Failed;
      case NoFiles => return Skipped;
      case Agents(failed) =>
        status := Passed;
        for i := 0 to |failed|
          invariant status == Passed && true !in failed[..i]
        {
          assert failed[..i + 1] == failed[..i] + [failed[i]];
          if failed[i] {
            return Failed;
          }
        }
        assert failed[..|failed|] == failed;
    }
  }

  /** Some pre-gate marked skip or stop failed. */
  ghost predicate Blocked(s: Stage, obs: Observation) {
    exists i :: 0 <= i < |s.preGates| && i < |obs.preGateFails| && obs.preGateFails[i]
             && (s.preGates[i].onError == "skip" || s.preGates[i].onError == "stop")
  }

  ghost predicate SomeAgentFailed(obs: Observation) {
    obs.work.Agents? && exists i :: 0 <= i < |obs.work.failed| && obs.work.failed[i]
  }

  /** What a result says about the stage's pre-gates, partition and agents. */
  ghost predicate Means(s: Stage, obs: Observation, status: Status) {
    match status
    case Failed => !Blocked(s, obs) && (obs.work.PartitionError? || SomeAgentFailed(obs))
    case Passed => !Blocked(s, obs) && obs.work.Agents? && !SomeAgentFailed(obs)
    case Skipped => Blocked(s, obs) || obs.work.NoFiles?
    case Reverted => false
  }

  /** A stage fails exactly if no pre-gate blocked it and its partition or one of its agents failed, it passes
      exactly if it was not blocked, had work, and no agent failed, and otherwise it is skipped. */
  lemma StatusIff(s: Stage, obs: Observation, status: Status)
    requires Fits(s, obs)
    ensures StageStatus(s, obs) == status <==> Means(s, obs, status)
  {
    assert PreGateError(s, obs) <==> Blocked(s, obs);
  }

  lemma StopPreGateSkips(s: Stage, obs: Observation, i: nat)
    requires Fits(s, obs) && i < |s.preGates|
    requires obs.preGateFails[i] && s.preGates[i].onError == "stop"
    ensures StageStatus(s, obs) == Skipped
  {
    assert s.preGates[i].onError in ["skip", "stop"];
  }

  // ----- Gates -----

  datatype GateOutcome = GatesPassed | GateFailed(revert: bool)

  /** `ok` tells for every gate whether its command succeeded. */
  function GatesOutcome(gates: seq<Gate>, changed: bool, ok: seq<bool>): GateOutcome
    requires |ok| == |gates|
  {
    if gates == [] || !changed then GatesPassed
    else if !ok[0] then GateFailed(gates[0].onFailure == "revert")
    else GatesOutcome(gates[1..], changed, ok[1..])
  }

  method RunGates(p: Pipeline, stage: string, changed: bool, ok: seq<bool>) returns (outcome: GateOutcome)
    requires |ok| == |GatesOf(p.gates, stage)|
    ensures outcome == GatesOutcome(GatesOf(p.gates, stage), changed, ok)
  {
    var gates := GatesAfter(p, stage);
    if |gates| == 0 || !changed {
      return GatesPassed;
    }
    for i := 0 to |gates|
      invariant forall j :: 0 <= j < i ==> ok[j]
    {
      if !ok[i] {
        FirstFailingGate(gates, ok, i);
        return GateFailed(gates[i].onFailure == "revert");
      }
    }
    GatesPassIff(gates, changed, ok);
    outcome := GatesPassed;
  }

  lemma {:induction false} FirstFailingGate(gates: seq<Gate>, ok: seq<bool>, i: nat)
    requires i < |gates| == |ok| && !ok[i]
    requires forall j :: 0 <= j < i ==> ok[j]
    ensures GatesOutcome(gates, true, ok) == GateFailed(gates[i].onFailure == "revert")
  {
    if i > 0 {
      FirstFailingGate(gates[1..], ok[1..], i - 1);
    }
  }

  /** Gates let the run go on exactly when nothing changed or every command succeeded. */
  lemma {:induction false} GatesPassIff(gates: seq<Gate>, changed: bool, ok: seq<bool>)
    requires |ok| == |gates|
    ensures GatesOutcome(gates, changed, ok).GatesPassed? <==> !changed || forall i :: 0 <= i < |ok| ==> ok[i]
  {
    if gates != [] && changed && ok[0] {
      GatesPassIff(gates[1..], changed, ok[1..]);
      assert forall i :: 1 <= i < |ok| ==> ok[i] == ok[1..][i - 1];
    }
  }

  // ----- The run as a step system -----

  /** A stage is addressed by its tier and its position in the tier. */
  datatype Event =
    | Started(tier: nat, index: nat)
    | Finished(tier: nat, index: nat, status: Status)
    | GatesOk(tier: nat, index: nat)
    | GatesBroken(tier: nat, index: nat)

  datatype Phase =
    | Running(started: set<nat>, finished: map<nat, Status>)
    | Reviewing(results: map<nat, Status>, next: nat)
    | Ended(outcome: Status)

  datatype StageReport = StageReport(name: string, status: Status)

  datatype State = State(
    tier: nat, phase: Phase, report: seq<StageReport>, completed: map<string, Status>, trace: seq<Event>)

  datatype Step =
    | Start(index: nat)
    | Finish(index: nat, obs: Observation)
    | Join
    | Review(changed: bool, gatesOk: seq<bool>)
    | NextTier

  datatype Config = Config(pipe: Pipeline, tiers: seq<seq<Stage>>) {
    function Width(k: nat): nat {
      if k < |tiers| then |tiers[k]| else 0
    }
  }

  /** A validated pipeline and the tiers TopologicalOrder gave it. */
  ghost predicate ValidConfig(c: Config) {
    ValidPipeline(c.pipe) && IsTierOrder(c.pipe.stages, c.tiers)
  }

  function Init(c: Config): State {
    State(0, if c.tiers == [] then Ended(Passed) else Running({}, map[]), [], map[], [])
  }

  predicate Enabled(c: Config, s: State, step: Step) {
    match (s.phase, step)
    case (Running(started, _), Start(i)) => i < c.Width(s.tier) && i !in started
    case (Running(started, finished), Finish(i, obs)) =>
      i < c.Width(s.tier) && i in started && i !in finished && Fits(c.tiers[s.tier][i], obs)
    case (Running(_, finished), Join) => forall i :: 0 <= i < c.Width(s.tier) ==> i in finished
    case (Reviewing(results, next), Review(_, ok)) =>
      next < c.Width(s.tier) && next in results && |ok| == |GatesOf(c.pipe.gates, c.tiers[s.tier][next].name)|
    case (Reviewing(_, next), NextTier) => next == c.Width(s.tier)
    case _ => false
  }

  function Apply(c: Config, s: State, step: Step): State
    requires Enabled(c, s, step)
  {
    match step
    case Start(i) =>
      s.(phase := s.phase.(started := s.phase.started + {i}), trace := s.trace + [Started(s.tier, i)])
    case Finish(i, obs) =>
      var status := StageStatus(c.tiers[s.tier][i], obs);
      s.(phase := s.phase.(finished := s.phase.finished[i := status]), trace := s.trace + [Finished(s.tier, i, status)])
    case Join => s.(phase := Reviewing(s.phase.finished, 0))
    case Review(changed, ok) => ReviewOne(c, s, changed, ok)
    case NextTier =>
      s.(tier := s.tier + 1, phase := if s.tier + 1 >= |c.tiers| then Ended(Passed) else Running({}, map[]))
  }

  /** One iteration of the loop over a tier's results. The report gets its copy of the result before
      the gates run. */
  function ReviewOne(c: Config, s: State, changed: bool, ok: seq<bool>): State
    requires Enabled(c, s, Review(changed, ok))
  {
    var i := s.phase.next;
    var name, status := c.tiers[s.tier][i].name, s.phase.results[i];
    var s1 := s.(report := s.report + [StageReport(name, status)], completed := s.completed[name := status]);
    if status == Failed then s1.(phase := Ended(Failed))
    else match GatesOutcome(GatesOf(c.pipe.gates, name), changed, ok)
      case GatesPassed => s1.(phase := s.phase.(next := i + 1), trace := s.trace + [GatesOk(s.tier, i)])
      case GateFailed(revert) =>
        s1.(phase := Ended(Failed), trace := s.trace + [GatesBroken(s.tier, i)],
            completed := if revert then s1.completed[name := Reverted] else s1.completed)
  }

  /** A run is any sequence of enabled steps: every interleaving of the stages, every answer of the
      outside world. */
  ghost predicate IsRun(c: Config, steps: seq<Step>)
    decreases |steps|, 0
  {
    steps == [] || (IsRun(c, steps[..|steps| - 1]) && Enabled(c, After(c, steps[..|steps| - 1]), steps[|steps| - 1]))
  }

  ghost function After(c: Config, steps: seq<Step>): State
    requires IsRun(c, steps)
    decreases |steps|, 1
  {
    if steps == [] then Init(c) else Apply(c, After(c, steps[..|steps| - 1]), steps[|steps| - 1])
  }

  // ----- What every step keeps -----

  /** The stage finished as passed or skipped, and its gates returned no error. */
  ghost predicate Cleared(trace: seq<Event>, k: nat, i: nat) {
    && (Finished(k, i, Passed) in trace || Finished(k, i, Skipped) in trace)
    && GatesOk(k, i) in trace
  }

  ghost predicate ClearedBelow(c: Config, trace: seq<Event>, tier: nat) {
    forall k, i :: 0 <= k < tier && 0 <= i < c.Width(k) ==> Cleared(trace, k, i)
  }

  /** At the moment a stage starts, every stage of every earlier tier is cleared. */
  ghost predicate StartsAreSafe(c: Config, trace: seq<Event>) {
    forall p :: 0 <= p < |trace| && trace[p].Started? ==> ClearedBelow(c, trace[..p], trace[p].tier)
  }

  ghost predicate Broke(trace: seq<Event>, k: nat, i: nat) {
    Finished(k, i, Failed) in trace || GatesBroken(k, i) in trace
  }

  ghost predicate TraceInv(c: Config, s: State) {
    && StartsAreSafe(c, s.trace)
    && ClearedBelow(c, s.trace, s.tier)
    && (forall e :: e in s.trace ==> e.tier <= s.tier && e.index < c.Width(e.tier))
    && (forall k, i :: Broke(s.trace, k, i) ==> k == s.tier)
  }

  /** What has been recorded about the stages of one tier. */
  ghost predicate TierRecord(trace: seq<Event>, k: nat, results: map<nat, Status>, passedGates: nat) {
    && (forall i, st :: Finished(k, i, st) in trace <==> i in results && results[i] == st)
    && (forall i: nat :: GatesOk(k, i) in trace <==> i < passedGates)
    && (forall i: nat :: GatesBroken(k, i) !in trace)
    && (forall i :: i in results ==> results[i] != Reverted)
  }

  ghost predicate BrokenStage(c: Config, s: State) {
    exists i: nat :: i < c.Width(s.tier) && Broke(s.trace, s.tier, i) && !Cleared(s.trace, s.tier, i)
  }

  ghost predicate PhaseInv(c: Config, s: State) {
    match s.phase
    case Running(started, finished) =>
      s.tier < |c.tiers| && TierRecord(s.trace, s.tier, finished, 0) && finished.Keys <= started
    case Reviewing(results, next) =>
      && s.tier < |c.tiers| && next <= c.Width(s.tier)
      && TierRecord(s.trace, s.tier, results, next)
      && (forall i :: 0 <= i < c.Width(s.tier) ==> i in results)
      && (forall i :: 0 <= i < next ==> results[i] != Failed)
    case Ended(outcome) =>
      && (outcome == Passed <==> s.tier == |c.tiers|)
      && (outcome == Passed ==> forall k, i :: !Broke(s.trace, k, i))
      && (outcome != Passed ==> outcome == Failed && s.tier < |c.tiers| && BrokenStage(c, s))
  }

  lemma ClearedGrows(c: Config, trace: seq<Event>, e: Event, tier: nat)
    requires ClearedBelow(c, trace, tier)
    ensures ClearedBelow(c, trace + [e], tier)
  {
    forall k, i | 0 <= k < tier && 0 <= i < c.Width(k) ensures Cleared(trace + [e], k, i) {
      assert Cleared(trace, k, i);
    }
  }

  /** Appending an event about a stage of the current tier keeps the trace invariant. */
  lemma TraceGrows(c: Config, s: State, e: Event)
    requires TraceInv(c, s) && e.tier == s.tier && e.index < c.Width(s.tier)
    ensures StartsAreSafe(c, s.trace + [e]) && ClearedBelow(c, s.trace + [e], s.tier)
    ensures forall k, i :: Broke(s.trace + [e], k, i) ==> k == s.tier
    ensures forall f :: f in s.trace + [e] ==> f.tier <= s.tier && f.index < c.Width(f.tier)
  {
    var trace := s.trace + [e];
    forall p | 0 <= p < |trace| && trace[p].Started? ensures ClearedBelow(c, trace[..p], trace[p].tier) {
      assert trace[..p] == s.trace[..p];
      assert s.trace[..|s.trace|] == s.trace;
    }
    ClearedGrows(c, s.trace, e, s.tier);
    forall k, i | Broke(trace, k, i) ensures k == s.tier {
      assert Broke(s.trace, k, i) || e == Finished(k, i, Failed) || e == GatesBroken(k, i);
    }
  }

  lemma StartKeeps(c: Config, s: State, i: nat)
    requires TraceInv(c, s) && PhaseInv(c, s) && Enabled(c, s, Start(i))
    ensures var t := Apply(c, s, Start(i)); TraceInv(c, t) && PhaseInv(c, t)
  {
    TraceGrows(c, s, Started(s.tier, i));
  }

  lemma FinishKeeps(c: Config, s: State, i: nat, obs: Observation)
    requires TraceInv(c, s) && PhaseInv(c, s) && Enabled(c, s, Finish(i, obs))
    ensures var t := Apply(c, s, Finish(i, obs)); TraceInv(c, t) && PhaseInv(c, t)
  {
    TraceGrows(c, s, Finished(s.tier, i, StageStatus(c.tiers[s.tier][i], obs)));
  }

  lemma ReviewKeeps(c: Config, s: State, changed: bool, ok: seq<bool>)
    requires TraceInv(c, s) && PhaseInv(c, s) && Enabled(c, s, Review(changed, ok))
    ensures var t := Apply(c, s, Review(changed, ok)); TraceInv(c, t) && PhaseInv(c, t)
  {
    hide GatesOutcome, TraceInv, PhaseInv;
    var t, i := Apply(c, s, Review(changed, ok)), s.phase.next;
    if t.phase.Ended? {
      BrokenReviewKeeps(c, s, t);
    } else {
      GoodReviewKeeps(c, s, t);
    }
  }

  /** A result whose gates let the run go on. */
  lemma GoodReviewKeeps(c: Config, s: State, t: State)
    requires TraceInv(c, s) && PhaseInv(c, s) && s.phase.Reviewing? && s.phase.next < c.Width(s.tier)
    requires s.phase.results[s.phase.next] != Failed && t.tier == s.tier
    requires t.phase == s.phase.(next := s.phase.next + 1) && t.trace == s.trace + [GatesOk(s.tier, s.phase.next)]
    ensures TraceInv(c, t) && PhaseInv(c, t)
  {
    hide ClearedBelow, StartsAreSafe;
    TraceGrows(c, s, GatesOk(s.tier, s.phase.next));
  }

  /** A failed result, or one whose gates ended the run. */
  lemma BrokenReviewKeeps(c: Config, s: State, t: State)
    requires TraceInv(c, s) && PhaseInv(c, s) && s.phase.Reviewing? && s.phase.next < c.Width(s.tier)
    requires t.tier == s.tier && t.phase == Ended(Failed)
    requires if s.phase.results[s.phase.next] == Failed then t.trace == s.trace
             else t.trace == s.trace + [GatesBroken(s.tier, s.phase.next)]
    ensures TraceInv(c, t) && PhaseInv(c, t)
  {
    hide ClearedBelow, StartsAreSafe;
    var i := s.phase.next;
    if s.phase.results[i] != Failed {
      TraceGrows(c, s, GatesBroken(s.tier, i));
    }
    assert Broke(t.trace, s.tier, i) && !Cleared(t.trace, s.tier, i);
  }

  lemma NextTierKeeps(c: Config, s: State)
    requires TraceInv(c, s) && PhaseInv(c, s) && Enabled(c, s, NextTier)
    ensures var t := Apply(c, s, NextTier); TraceInv(c, t) && PhaseInv(c, t)
  {
    forall k, i | 0 <= k < s.tier + 1 && 0 <= i < c.Width(k) ensures Cleared(s.trace, k, i) {
      if k == s.tier {
        assert Finished(k, i, s.phase.results[i]) in s.trace;
      }
    }
    forall k, i | Broke(s.trace, k, i) ensures s.phase.results[i] == Failed {
      assert k == s.tier;
    }
    forall e | e in s.trace ensures e.tier != s.tier + 1 {
    }
  }

  lemma {:induction false} RunKeeps(c: Config, steps: seq<Step>)
    requires IsRun(c, steps)
    ensures TraceInv(c, After(c, steps)) && PhaseInv(c, After(c, steps))
  {
    if steps != [] {
      var before, step := After(c, steps[..|steps| - 1]), steps[|steps| - 1];
      RunKeeps(c, steps[..|steps| - 1]);
      match step {
        case Start(i) => StartKeeps(c, before, i);
        case Finish(i, obs) => FinishKeeps(c, before, i, obs);
        case Join =>
        case Review(changed, ok) => ReviewKeeps(c, before, changed, ok);
        case NextTier => NextTierKeeps(c, before);
      }
    }
  }

  // ----- Main results -----

  /** Some stage of the name finished as passed or skipped, and its gates returned no error. */
  ghost predicate NameCleared(c: Config, trace: seq<Event>, name: string) {
    exists j: nat, i: nat :: i < c.Width(j) && c.tiers[j][i].name == name && Cleared(trace, j, i)
  }

  /** In every run, what starts is a stage of the pipeline, and it starts only after each of its
      dependencies finished as passed or skipped and the dependency's gates returned no error. */
  lemma StagesStartAfterDependencies(c: Config, steps: seq<Step>, p: nat)
    requires ValidConfig(c) && IsRun(c, steps)
    requires p < |After(c, steps).trace| && After(c, steps).trace[p].Started?
    ensures var e := After(c, steps).trace[p];
            && e.index < c.Width(e.tier)
            && forall d :: d in c.tiers[e.tier][e.index].dependsOn ==> NameCleared(c, After(c, steps).trace[..p], d)
  {
    hide IsRun, After, NameCleared, ValidConfig;
    StartedStagesExist(c, steps, p);
    var e := After(c, steps).trace[p];
    forall d | d in c.tiers[e.tier][e.index].dependsOn ensures NameCleared(c, After(c, steps).trace[..p], d) {
      DependencyIsCleared(c, steps, p, d);
    }
  }

  lemma DependencyIsCleared(c: Config, steps: seq<Step>, p: nat, d: string)
    requires ValidConfig(c) && IsRun(c, steps)
    requires p < |After(c, steps).trace| && After(c, steps).trace[p].Started?
    requires var e := After(c, steps).trace[p];
             e.index < c.Width(e.tier) && d in c.tiers[e.tier][e.index].dependsOn
    ensures NameCleared(c, After(c, steps).trace[..p], d)
  {
    hide IsRun, After, Cleared, PhaseInv;
    RunKeeps(c, steps);
    var e := After(c, steps).trace[p];
    var stage := c.tiers[e.tier][e.index];
    StageGraphOf(c.pipe.stages);
    assert stage in c.tiers[e.tier] && InTier(c.tiers, e.tier, stage.name);
    assert Edge(StageGraph(c.pipe.stages), stage.name, d);
    var j := DependenciesInEarlierTiers(c.pipe.stages, c.tiers, e.tier, stage.name, d);
    var s :| s in c.tiers[j] && s.name == d;
    var i :| 0 <= i < |c.tiers[j]| && c.tiers[j][i] == s;
    assert ClearedBelow(c, After(c, steps).trace[..p], e.tier);
    assert i < c.Width(j);
  }

  lemma StartedStagesExist(c: Config, steps: seq<Step>, p: nat)
    requires IsRun(c, steps)
    requires p < |After(c, steps).trace|
    ensures var e := After(c, steps).trace[p]; e.index < c.Width(e.tier)
  {
    hide IsRun, After, PhaseInv, StartsAreSafe, ClearedBelow;
    RunKeeps(c, steps);
    assert After(c, steps).trace[p] in After(c, steps).trace;
  }

  // ----- A pre-gate marked stop -----

  /** No stage finishes twice with different results. */
  ghost predicate FinishesOnce(trace: seq<Event>) {
    forall k, i, a, b :: Finished(k, i, a) in trace && Finished(k, i, b) in trace ==> a == b
  }

  lemma StepFinishesOnce(c: Config, s: State, step: Step)
    requires TraceInv(c, s) && PhaseInv(c, s) && FinishesOnce(s.trace) && Enabled(c, s, step)
    ensures FinishesOnce(Apply(c, s, step).trace) && s.trace <= Apply(c, s, step).trace
  {
    hide StageStatus, GatesOutcome, StartsAreSafe, ClearedBelow;
    match step {
      case Finish(i, obs) =>
        var st := StageStatus(c.tiers[s.tier][i], obs);
        assert forall a :: Finished(s.tier, i, a) !in s.trace;
        assert forall e :: e in s.trace + [Finished(s.tier, i, st)] <==> e in s.trace || e == Finished(s.tier, i, st);
      case _ =>
        assert forall k, i, a :: Finished(k, i, a) in Apply(c, s, step).trace ==> Finished(k, i, a) in s.trace;
    }
  }

  lemma {:induction false} RunFinishesOnce(c: Config, steps: seq<Step>)
    requires IsRun(c, steps)
    ensures FinishesOnce(After(c, steps).trace)
  {
    hide TraceInv, PhaseInv, FinishesOnce, Apply, Enabled;
    if steps == [] {
      assert FinishesOnce([]) by { NothingFinished(); }
    } else {
      RunKeeps(c, steps[..|steps| - 1]);
      RunFinishesOnce(c, steps[..|steps| - 1]);
      StepFinishesOnce(c, After(c, steps[..|steps| - 1]), steps[|steps| - 1]);
    }
  }

  lemma NothingFinished()
    ensures FinishesOnce([])
  {
  }

  /** What a run recorded stays recorded. */
  lemma {:induction false} TraceOnlyGrows(c: Config, before: seq<Step>, rest: seq<Step>)
    requires IsRun(c, before + rest)
    ensures IsRun(c, before) && After(c, before).trace <= After(c, before + rest).trace
    decreases |rest|
  {
    hide TraceInv, PhaseInv, FinishesOnce, Apply, Enabled;
    if rest == [] {
      assert before + rest == before;
    } else {
      var front := rest[..|rest| - 1];
      assert (before + rest)[..|before + rest| - 1] == before + front;
      TraceOnlyGrows(c, before, front);
      RunKeeps(c, before + front);
      RunFinishesOnce(c, before + front);
      StepFinishesOnce(c, After(c, before + front), rest[|rest| - 1]);
    }
  }

  /** Something other than the result of that stage broke. */
  ghost predicate OtherBroke(trace: seq<Event>, tier: nat, index: nat) {
    exists k: nat, i: nat :: Broke(trace, k, i) && ((k, i) != (tier, index) || GatesBroken(k, i) in trace)
  }

  /** A failing pre-gate marked "stop" skips its stage, whatever its agents would have done, and does
      nothing else: the run that goes on from there never fails because of that stage's result. */
  lemma PreGateStopOnlySkips(c: Config, before: seq<Step>, i: nat, obs: Observation, rest: seq<Step>, g: nat)
    requires IsRun(c, before) && Enabled(c, After(c, before), Finish(i, obs))
    requires var stage := c.tiers[After(c, before).tier][i];
             g < |stage.preGates| && obs.preGateFails[g] && stage.preGates[g].onError == "stop"
    requires IsRun(c, before + [Finish(i, obs)] + rest)
    ensures var tier, s := After(c, before).tier, After(c, before + [Finish(i, obs)] + rest);
            && Finished(tier, i, Skipped) in s.trace && Finished(tier, i, Failed) !in s.trace
            && (s.phase.Ended? ==> s.phase.outcome == Passed || OtherBroke(s.trace, tier, i))
  {
    hide IsRun, After, FinishesOnce, ClearedBelow, StageStatus;
    var s, done := After(c, before), before + [Finish(i, obs)];
    var t := After(c, done + rest);
    StopPreGateSkips(c.tiers[s.tier][i], obs, g);
    TraceOnlyGrows(c, done, rest);
    assert After(c, done) == Apply(c, s, Finish(i, obs)) by { LastStep(c, before, Finish(i, obs)); }
    var e := Finished(s.tier, i, Skipped);
    assert After(c, done).trace == s.trace + [e];
    assert t.trace[|s.trace|] == e;
    RunFinishesOnce(c, done + rest);
    assert Finished(s.tier, i, Failed) !in t.trace by { OnlyOneResult(t.trace, s.tier, i); }
    if t.phase.Ended? {
      OutcomeIsHonest(c, done + rest);
      if t.phase.outcome != Passed {
        var k: nat, j: nat :| Broke(t.trace, k, j);
        assert OtherBroke(t.trace, s.tier, i);
      }
    }
  }

  lemma OnlyOneResult(trace: seq<Event>, k: nat, i: nat)
    requires FinishesOnce(trace) && Finished(k, i, Skipped) in trace
    ensures Finished(k, i, Failed) !in trace
  {
  }

  lemma LastStep(c: Config, steps: seq<Step>, step: Step)
    requires IsRun(c, steps + [step])
    ensures IsRun(c, steps) && Enabled(c, After(c, steps), step)
    ensures After(c, steps + [step]) == Apply(c, After(c, steps), step)
  {
    hide Apply, Enabled;
    assert (steps + [step])[..|steps|] == steps;
  }

  // ----- What finishes has started -----

  /** Every stage under way has its start in the trace, and no result comes before it. */
  ghost predicate StartsRecorded(s: State) {
    && (s.phase.Running? ==> forall i :: i in s.phase.started ==> Started(s.tier, i) in s.trace)
    && forall p :: 0 <= p < |s.trace| && s.trace[p].Finished? ==>
         Started(s.trace[p].tier, s.trace[p].index) in s.trace[..p]
  }

  lemma OneMoreRecorded(s: State, t: State, e: Event)
    requires StartsRecorded(s) && t.trace == s.trace + [e]
    requires e.Finished? ==> Started(e.tier, e.index) in s.trace
    requires t.phase.Running? ==>
               && s.phase.Running? && t.tier == s.tier
               && forall i :: i in t.phase.started ==> i in s.phase.started || e == Started(t.tier, i)
    ensures StartsRecorded(t)
  {
    forall p | 0 <= p < |t.trace| && t.trace[p].Finished?
      ensures Started(t.trace[p].tier, t.trace[p].index) in t.trace[..p]
    {
      if p < |s.trace| {
        assert t.trace[..p] == s.trace[..p];
      } else {
        assert t.trace[..p] == s.trace;
      }
    }
  }

  lemma StepRecordsStart(c: Config, s: State, step: Step)
    requires StartsRecorded(s) && PhaseInv(c, s) && Enabled(c, s, step)
    ensures StartsRecorded(Apply(c, s, step))
  {
    hide StartsRecorded, StageStatus, GatesOutcome, TierRecord, BrokenStage;
    var t := Apply(c, s, step);
    match step {
      case Start(i) => OneMoreRecorded(s, t, Started(s.tier, i));
      case Finish(i, obs) =>
        StartInTrace(s, i);
        OneMoreRecorded(s, t, Finished(s.tier, i, StageStatus(c.tiers[s.tier][i], obs)));
      case Review(_, _) =>
        if t.trace == s.trace {
          SameTraceRecorded(s, t);
        } else {
          OneMoreRecorded(s, t, t.trace[|s.trace|]);
        }
      case _ => SameTraceRecorded(s, t);
    }
  }

  lemma StartInTrace(s: State, i: nat)
    requires StartsRecorded(s) && s.phase.Running? && i in s.phase.started
    ensures Started(s.tier, i) in s.trace
  {
  }

  lemma SameTraceRecorded(s: State, t: State)
    requires StartsRecorded(s) && t.trace == s.trace && (t.phase.Running? ==> t.phase.started == {})
    ensures StartsRecorded(t)
  {
  }

  lemma {:induction false} RunRecordsStarts(c: Config, steps: seq<Step>)
    requires IsRun(c, steps)
    ensures StartsRecorded(After(c, steps))
  {
    hide StartsRecorded, PhaseInv, TraceInv, Apply, Enabled;
    if steps == [] {
      assert StartsRecorded(Init(c)) by { NothingRecorded(c); }
    } else {
      RunKeeps(c, steps[..|steps| - 1]);
      RunRecordsStarts(c, steps[..|steps| - 1]);
      StepRecordsStart(c, After(c, steps[..|steps| - 1]), steps[|steps| - 1]);
    }
  }

  lemma NothingRecorded(c: Config)
    ensures StartsRecorded(Init(c))
  {
  }

  /** In every run a stage finishes only after it has started, so that what holds of starts holds of all stages
      that have a result. */
  lemma FinishedHasStarted(c: Config, steps: seq<Step>, p: nat)
    requires IsRun(c, steps) && p < |After(c, steps).trace| && After(c, steps).trace[p].Finished?
    ensures var e := After(c, steps).trace[p]; Started(e.tier, e.index) in After(c, steps).trace[..p]
  {
    RunRecordsStarts(c, steps);
  }

  // ----- Results come from agents -----

  /** The run's step with that number finished the stage i of tier k with what it observed. */
  ghost predicate FinishedBy(c: Config, steps: seq<Step>, n: nat, k: nat, i: nat, obs: Observation) {
    && n < |steps| && IsRun(c, steps[..n]) && steps[n] == Finish(i, obs)
    && After(c, steps[..n]).tier == k && i < c.Width(k) && Fits(c.tiers[k][i], obs)
  }

  /** Every result in the trace tells what some step of that stage observed. */
  lemma {:induction false} ResultIsObserved(c: Config, steps: seq<Step>, k: nat, i: nat, status: Status)
    returns (n: nat, obs: Observation)
    requires IsRun(c, steps) && Finished(k, i, status) in After(c, steps).trace
    ensures FinishedBy(c, steps, n, k, i, obs) && Means(c.tiers[k][i], obs, status)
  {
    hide Means, StageStatus, GatesOutcome, Fits;
    var front, step := steps[..|steps| - 1], steps[|steps| - 1];
    var s := After(c, front);
    if Finished(k, i, status) in s.trace {
      n, obs := ResultIsObserved(c, front, k, i, status);
      assert front[..n] == steps[..n] && front[n] == steps[n];
    } else {
      NewResult(c, s, step, k, i, status);
      n, obs := |front|, step.obs;
      StatusIff(c.tiers[k][i], obs, status);
    }
  }

  lemma NewResult(c: Config, s: State, step: Step, k: nat, i: nat, status: Status)
    requires Enabled(c, s, step) && Finished(k, i, status) in Apply(c, s, step).trace
    requires Finished(k, i, status) !in s.trace
    ensures step.Finish? && step.index == i && s.tier == k && i < c.Width(k) && Fits(c.tiers[k][i], step.obs)
    ensures StageStatus(c.tiers[k][i], step.obs) == status
  {
    hide StageStatus, GatesOutcome;
  }

  /** And what a step observed stays in the trace as the result it means. */
  lemma ObservationIsRecorded(c: Config, steps: seq<Step>, n: nat, k: nat, i: nat, obs: Observation)
    returns (status: Status)
    requires IsRun(c, steps) && FinishedBy(c, steps, n, k, i, obs)
    ensures Means(c.tiers[k][i], obs, status) && Finished(k, i, status) in After(c, steps).trace
  {
    hide IsRun, After, StageStatus, Means, Fits;
    var done, rest := steps[..n] + [steps[n]], steps[n + 1..];
    assert done + rest == steps;
    TraceOnlyGrows(c, done, rest);
    LastStep(c, steps[..n], steps[n]);
    status := StageStatus(c.tiers[k][i], obs);
    StatusIff(c.tiers[k][i], obs, status);
    var s := After(c, steps[..n]);
    assert After(c, done).trace[|s.trace|] == Finished(k, i, status);
  }

  /** A stage is recorded as passed only if none of its agents failed, and as failed only if one did or its
      partition could not be made. */
  lemma PassedMeansAgentsPassed(c: Config, steps: seq<Step>, k: nat, i: nat) returns (n: nat, obs: Observation)
    requires IsRun(c, steps) && Finished(k, i, Passed) in After(c, steps).trace
    ensures FinishedBy(c, steps, n, k, i, obs) && obs.work.Agents? && !SomeAgentFailed(obs)
  {
    hide IsRun, After, FinishedBy;
    n, obs := ResultIsObserved(c, steps, k, i, Passed);
  }

  ghost predicate FailedBy(c: Config, steps: seq<Step>, n: nat, k: nat, i: nat, obs: Observation) {
    FinishedBy(c, steps, n, k, i, obs) && Means(c.tiers[k][i], obs, Failed)
  }

  ghost predicate NoStageFailed(c: Config, steps: seq<Step>) {
    forall n: nat, k: nat, i: nat, obs :: !FailedBy(c, steps, n, k, i, obs)
  }

  /** A run that ends has passed if and only if no stage's partition or agent failed, unless a pre-gate had
      blocked the stage, and no gate ended the run. */
  lemma PassesIff(c: Config, steps: seq<Step>)
    requires IsRun(c, steps) && After(c, steps).phase.Ended?
    ensures After(c, steps).phase.outcome == Passed <==>
              NoStageFailed(c, steps) && forall k, i :: GatesBroken(k, i) !in After(c, steps).trace
  {
    hide IsRun, After, FinishedBy, Means, ClearedBelow;
    OutcomeIsHonest(c, steps);
    var s := After(c, steps);
    if n: nat, k: nat, i: nat, obs :| FailedBy(c, steps, n, k, i, obs) {
      FailureIsRecorded(c, steps, n, k, i, obs);
      assert Broke(s.trace, k, i);
    } else if k: nat, i: nat :| GatesBroken(k, i) in s.trace {
      assert Broke(s.trace, k, i);
    } else {
      forall k, i ensures !Broke(s.trace, k, i) {
        if Finished(k, i, Failed) in s.trace {
          FailureIsObserved(c, steps, k, i);
        }
      }
    }
  }

  lemma FailureIsObserved(c: Config, steps: seq<Step>, k: nat, i: nat)
    requires IsRun(c, steps) && Finished(k, i, Failed) in After(c, steps).trace
    ensures !NoStageFailed(c, steps)
  {
    hide IsRun, After, FinishedBy;
    var n, obs := ResultIsObserved(c, steps, k, i, Failed);
    assert FailedBy(c, steps, n, k, i, obs);
  }

  lemma FailureIsRecorded(c: Config, steps: seq<Step>, n: nat, k: nat, i: nat, obs: Observation)
    requires IsRun(c, steps) && FailedBy(c, steps, n, k, i, obs)
    ensures Finished(k, i, Failed) in After(c, steps).trace
  {
    hide IsRun, After;
    var status := ObservationIsRecorded(c, steps, n, k, i, obs);
    StatusIff(c.tiers[k][i], obs, status);
    StatusIff(c.tiers[k][i], obs, Failed);
  }

  /** Once a stage or one of its gates has failed, no stage of a later tier is ever started. */
  lemma FailureStopsLaterTiers(c: Config, steps: seq<Step>, k: nat, i: nat, j: nat, m: nat)
    requires IsRun(c, steps)
    requires Broke(After(c, steps).trace, k, i) && Started(j, m) in After(c, steps).trace
    ensures j <= k
  {
    RunKeeps(c, steps);
    assert Started(j, m).tier <= After(c, steps).tier;
  }

  /** A run ends as passed exactly when it ends with every stage cleared; otherwise it ends as
      failed, and some stage or gate broke. */
  lemma OutcomeIsHonest(c: Config, steps: seq<Step>)
    requires IsRun(c, steps) && After(c, steps).phase.Ended?
    ensures var s := After(c, steps);
            && (s.phase.outcome == Passed <==> ClearedBelow(c, s.trace, |c.tiers|))
            && (s.phase.outcome == Passed <==> forall k, i :: !Broke(s.trace, k, i))
            && (s.phase.outcome == Passed || s.phase.outcome == Failed)
  {
    RunKeeps(c, steps);
    var s := After(c, steps);
    if s.phase.outcome != Passed {
      var i: nat :| i < c.Width(s.tier) && Broke(s.trace, s.tier, i) && !Cleared(s.trace, s.tier, i);
    }
  }

  /** What reviewing one result does: its gates let the run go on exactly when the stage did not
      fail and nothing changed or every gate command succeeded; otherwise the run ends as failed.
      Only the completed-stage table, never the report, learns of a revert. */
  lemma ReviewMeaning(c: Config, s: State, changed: bool, ok: seq<bool>)
    requires PhaseInv(c, s) && Enabled(c, s, Review(changed, ok))
    ensures var t, i := Apply(c, s, Review(changed, ok)), s.phase.next;
            var name, status := c.tiers[s.tier][i].name, s.phase.results[i];
            var gates := GatesOf(c.pipe.gates, name);
            var goesOn := status != Failed && (!changed || forall j :: 0 <= j < |ok| ==> ok[j]);
            && t.report == s.report + [StageReport(name, status)]
            && t.phase == (if goesOn then Reviewing(s.phase.results, i + 1) else Ended(Failed))
            && t.trace == s.trace + (if goesOn then [GatesOk(s.tier, i)]
                                     else if status == Failed then [] else [GatesBroken(s.tier, i)])
            && name in t.completed
            && (t.completed[name] == Reverted <==>
                  status != Failed && exists j :: FirstFailure(ok, j) && changed && gates[j].onFailure == "revert")
  {
    var i := s.phase.next;
    var name := c.tiers[s.tier][i].name;
    var gates := GatesOf(c.pipe.gates, name);
    assert Finished(s.tier, i, s.phase.results[i]) in s.trace;
    GatesPassIff(gates, changed, ok);
    if changed && exists j :: 0 <= j < |ok| && !ok[j] {
      var j := FindFirstFailure(ok);
      FirstFailingGate(gates, ok, j);
      assert forall m :: FirstFailure(ok, m) ==> m == j;
    }
  }

  ghost predicate FirstFailure(ok: seq<bool>, j: int) {
    0 <= j < |ok| && !ok[j] && forall m :: 0 <= m < j ==> ok[m]
  }

  lemma FindFirstFailure(ok: seq<bool>) returns (j: nat)
    requires exists m :: 0 <= m < |ok| && !ok[m]
    ensures FirstFailure(ok, j)
  {
    j := 0;
    while ok[j]
      invariant j < |ok| && forall m :: 0 <= m < j ==> ok[m]
      decreases |ok| - j
    {
      j := j + 1;
    }
  }

  // ----- The report -----

  function TierNames(stages: seq<Stage>): seq<string> {
    if stages == [] then [] else TierNames(stages[..|stages| - 1]) + [stages[|stages| - 1].name]
  }

  function OrderNames(tiers: seq<seq<Stage>>): seq<string> {
    if tiers == [] then [] else OrderNames(tiers[..|tiers| - 1]) + TierNames(tiers[|tiers| - 1])
  }

  function ReportNames(report: seq<StageReport>): seq<string> {
    if report == [] then [] else ReportNames(report[..|report| - 1]) + [report[|report| - 1].name]
  }

  /** The stages reported so far: all of the earlier tiers, then those reviewed of this one. */
  ghost predicate ReportInv(c: Config, s: State) {
    && (forall r :: r in s.report ==> r.status != Reverted)
    && NoneFailed(if s.report == [] then [] else s.report[..|s.report| - 1])
    && match s.phase
       case Running(_, _) => Reported(c, s, 0) && NoneFailed(s.report)
       case Reviewing(_, next) => next <= c.Width(s.tier) && Reported(c, s, next) && NoneFailed(s.report)
       case Ended(Passed) => ReportNames(s.report) == OrderNames(c.tiers) && NoneFailed(s.report)
       case Ended(_) => exists next: nat :: 0 < next <= c.Width(s.tier) && Reported(c, s, next)
  }

  ghost predicate NoneFailed(report: seq<StageReport>) {
    forall r :: r in report ==> r.status != Failed
  }

  ghost predicate Reported(c: Config, s: State, next: nat)
    requires next <= c.Width(s.tier)
  {
    s.tier < |c.tiers| && ReportNames(s.report) == OrderNames(c.tiers[..s.tier]) + TierNames(c.tiers[s.tier][..next])
  }

  lemma ReviewNames(c: Config, s: State, name: string, status: Status, i: nat)
    requires i < c.Width(s.tier) && Reported(c, s, i) && name == c.tiers[s.tier][i].name
    ensures Reported(c, s.(report := s.report + [StageReport(name, status)]), i + 1)
  {
    var tier, report := c.tiers[s.tier], s.report + [StageReport(name, status)];
    assert tier[..i + 1][..i] == tier[..i] && report[..|report| - 1] == s.report;
  }

  lemma ReviewReports(c: Config, s: State, changed: bool, ok: seq<bool>)
    requires PhaseInv(c, s) && ReportInv(c, s) && Enabled(c, s, Review(changed, ok))
    ensures ReportInv(c, Apply(c, s, Review(changed, ok)))
  {
    hide Reported, TierRecord, GatesOutcome, BrokenStage;
    var t, i := Apply(c, s, Review(changed, ok)), s.phase.next;
    var name, status := c.tiers[s.tier][i].name, s.phase.results[i];
    ResultsAreFinal(s.trace, s.tier, s.phase.results, i, i);
    ReviewNames(c, s, name, status, i);
    SameReport(c, t, s.(report := t.report), i + 1);
    OneMoreReport(s.report, StageReport(name, status));
    assert t.report == s.report + [StageReport(name, status)];
  }

  lemma ResultsAreFinal(trace: seq<Event>, k: nat, results: map<nat, Status>, passedGates: nat, i: nat)
    requires TierRecord(trace, k, results, passedGates) && i in results
    ensures results[i] != Reverted
  {
  }

  lemma SameReport(c: Config, s: State, t: State, next: nat)
    requires s.report == t.report && s.tier == t.tier && next <= c.Width(s.tier)
    ensures Reported(c, s, next) <==> Reported(c, t, next)
  {
  }

  /** A result that is no failure leaves a report without failures; in any case only the last can be. */
  lemma OneMoreReport(report: seq<StageReport>, r: StageReport)
    requires NoneFailed(report)
    ensures var more := report + [r];
            && NoneFailed(more[..|more| - 1]) && (r.status != Failed ==> NoneFailed(more))
            && (forall x :: x in more ==> x in report || x == r)
  {
    assert (report + [r])[..|report|] == report;
  }

  lemma NextTierReports(c: Config, s: State)
    requires PhaseInv(c, s) && ReportInv(c, s) && Enabled(c, s, NextTier)
    ensures ReportInv(c, Apply(c, s, NextTier))
  {
    var k := s.tier;
    assert c.tiers[..k + 1][..k] == c.tiers[..k];
    assert c.tiers[k][..|c.tiers[k]|] == c.tiers[k];
    if k + 1 == |c.tiers| {
      assert c.tiers[..k + 1] == c.tiers;
    } else {
      assert c.tiers[k + 1][..0] == [];
    }
  }

  lemma {:induction false} ReportKept(c: Config, steps: seq<Step>)
    requires IsRun(c, steps)
    ensures ReportInv(c, After(c, steps))
  {
    if steps == [] {
      if c.tiers != [] {
        assert c.tiers[..0] == [] && c.tiers[0][..0] == [];
      }
    } else {
      RunKeeps(c, steps[..|steps| - 1]);
      ReportKept(c, steps[..|steps| - 1]);
      var before := After(c, steps[..|steps| - 1]);
      match steps[|steps| - 1] {
        case Review(changed, ok) => ReviewReports(c, before, changed, ok);
        case NextTier => NextTierReports(c, before);
        case _ =>
      }
    }
  }

  /** The report of a passed run lists every stage once, in tier order. In no run does it call a
      stage reverted, even when a gate asked for it, and only its last entry can be a failure. */
  lemma ReportIsOrdered(c: Config, steps: seq<Step>)
    requires IsRun(c, steps)
    ensures var s := After(c, steps);
            && (s.phase == Ended(Passed) ==> ReportNames(s.report) == OrderNames(c.tiers))
            && (forall r :: r in s.report ==> r.status != Reverted)
            && (s.report != [] ==> NoneFailed(s.report[..|s.report| - 1]))
  {
    ReportKept(c, steps);
  }

  // ----- Progress -----

  /** How many of the first n positions are not in the set. */
  ghost function Missing(n: nat, s: set<nat>): nat {
    if n == 0 then 0 else Missing(n - 1, s) + if n - 1 in s then 0 else 1
  }

  lemma {:induction false} MissingAll(n: nat)
    ensures Missing(n, {}) == n
  {
    if n > 0 { MissingAll(n - 1); }
  }

  lemma {:induction false} MissingOneLess(n: nat, s: set<nat>, i: nat)
    requires i !in s
    ensures Missing(n, s + {i}) == Missing(n, s) - if i < n then 1 else 0
  {
    if n > 0 { MissingOneLess(n - 1, s, i); }
  }

  /** Steps the tiers from k on can take. */
  ghost function TiersLeft(c: Config, k: nat): nat
    decreases |c.tiers| - k
  {
    if k >= |c.tiers| then 0 else 3 * c.Width(k) + 2 + TiersLeft(c, k + 1)
  }

  /** An upper bound on the steps a run can still take. */
  ghost function StepsLeft(c: Config, s: State): int {
    match s.phase
    case Ended(_) => 0
    case Running(started, finished) =>
      var width := c.Width(s.tier);
      TiersLeft(c, s.tier + 1) + Missing(width, started) + Missing(width, finished.Keys) + width + 2
    case Reviewing(_, next) => TiersLeft(c, s.tier + 1) + c.Width(s.tier) - next + 1
  }

  /** Every step uses up some of the bound. */
  lemma StepsDecrease(c: Config, s: State, step: Step)
    requires PhaseInv(c, s) && Enabled(c, s, step)
    ensures 0 <= StepsLeft(c, Apply(c, s, step)) < StepsLeft(c, s)
  {
    match step {
      case Start(i) => MissingOneLess(c.Width(s.tier), s.phase.started, i);
      case Finish(i, obs) =>
        MissingOneLess(c.Width(s.tier), s.phase.finished.Keys, i);
        assert s.phase.finished[i := StageStatus(c.tiers[s.tier][i], obs)].Keys == s.phase.finished.Keys + {i};
      case Join =>
      case Review(_, _) =>
      case NextTier =>
        var nothing: map<nat, Status> := map[];
        assert nothing.Keys == {};
        MissingAll(c.Width(s.tier + 1));
    }
  }

  /** No run is longer than a bound fixed by the pipeline. */
  lemma {:induction false} RunsAreFinite(c: Config, steps: seq<Step>)
    requires IsRun(c, steps)
    ensures 0 <= StepsLeft(c, After(c, steps)) <= StepsLeft(c, Init(c)) - |steps|
  {
    if steps != [] {
      RunKeeps(c, steps[..|steps| - 1]);
      RunsAreFinite(c, steps[..|steps| - 1]);
      StepsDecrease(c, After(c, steps[..|steps| - 1]), steps[|steps| - 1]);
    }
  }

  /** A run that has not ended can always take a step. */
  lemma NoDeadlock(c: Config, steps: seq<Step>) returns (step: Step)
    requires IsRun(c, steps) && !After(c, steps).phase.Ended?
    ensures Enabled(c, After(c, steps), step)
  {
    RunKeeps(c, steps);
    var s := After(c, steps);
    match s.phase {
      case Running(started, finished) =>
        if i: nat :| i < c.Width(s.tier) && i !in started {
          step := Start(i);
        } else if i: nat :| i < c.Width(s.tier) && i !in finished {
          var stage := c.tiers[s.tier][i];
          var work := if stage.partition.Some? then NoFiles else Agents(seq(|stage.AgentList()|, _ => false));
          step := Finish(i, Observation(seq(|stage.preGates|, _ => false), work));
        } else {
          step := Join;
        }
      case Reviewing(results, next) =>
        if next < c.Width(s.tier) {
          step := Review(false, seq(|GatesOf(c.pipe.gates, c.tiers[s.tier][next].name)|, _ => true));
        } else {
          step := NextTier;
        }
    }
  }
}
