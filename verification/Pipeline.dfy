/** Pipeline configurations (pipeline/pipeline.go): validation and the grouping of stages into tiers. */
module Pipeline {
  import opened Selections
  import opened Wrappers
  import opened DependencyGraph

  datatype ModelPreference = ModelPreference(model: string, provider: string)

  datatype InlineConfig = InlineConfig(
    entryPoint: string, wrapper: string, task: string, models: seq<ModelPreference>,
    references: seq<string>, commentsOnly: bool, asciiOnly: bool)

  datatype Partition = Partition(splitBy: string, glob: string, maxPerPartition: int)

  datatype PreGate = PreGate(command: string, title: string, onError: string)

  datatype Gate = Gate(after: string, command: string, onFailure: string)

  datatype Stage = Stage(
    name: string, agent: string, agents: seq<string>, dependsOn: seq<string>, mode: string,
    vars: map<string, string>, condition: string, preGates: seq<PreGate>, maxCost: real,
    partition: Option<Partition>, summarize: string, summarizePrompt: string,
    mcpServers: seq<string>, inlineConfig: Option<InlineConfig>)
  {
    /** Single and parallel agents in one list. */
    function AgentList(): seq<string> {
      if agent != "" then [agent] else agents
    }
  }

  datatype Pipeline = Pipeline(
    name: string, version: string, description: string, stages: seq<Stage>, gates: seq<Gate>)

  // ----- Validation -----

  datatype Invalid =
    | NoName
    | NoStages
    | UnnamedStage(index: nat)
    | DuplicateStage(name: string)
    | BadStage(name: string)
    | UnknownDependency(stage: string, dep: string)
    | SelfDependency(stage: string)
    | CycleFound(from: string, to: string)
    | UnknownGateStage(after: string)
    | GateWithoutCommand(after: string)

  function Nodes(stages: seq<Stage>): (nodes: seq<Node>)
    ensures |nodes| == |stages|
    ensures forall i :: 0 <= i < |stages| ==> nodes[i] == Node(stages[i].name, stages[i].dependsOn)
  {
    NodesBy(stages, (s: Stage) => Node(s.name, s.dependsOn))
  }

  function StageGraph(stages: seq<Stage>): Graph {
    GraphOf(Nodes(stages))
  }

  ghost function Names(stages: seq<Stage>): set<string> {
    set s | s in stages :: s.name
  }

  ghost predicate UniqueNames(stages: seq<Stage>) {
    stages == [] || (UniqueNames(stages[..|stages| - 1]) && stages[|stages| - 1].name !in Names(stages[..|stages| - 1]))
  }

  predicate ValidPartition(s: Stage) {
    s.partition.Some? ==> s.agent != "" && s.partition.value.splitBy == "files" && s.partition.value.glob != ""
  }

  predicate ValidStage(s: Stage) {
    && |s.AgentList()| > 0
    && !(s.agent != "" && |s.agents| > 0)
    && ValidPartition(s)
    && s.summarize in ["", "auto", "always", "never"]
  }

  ghost predicate ValidStages(stages: seq<Stage>) {
    && (forall s :: s in stages ==> s.name != "" && ValidStage(s))
    && UniqueNames(stages)
  }

  ghost predicate KnownDeps(stages: seq<Stage>) {
    forall s, d :: s in stages && d in s.dependsOn ==> d in Names(stages)
  }

  predicate ValidGate(g: Gate, names: set<string>) {
    g.after in names && g.command != ""
  }

  /** What a pipeline must satisfy to run, without reference to how it is checked. */
  ghost predicate ValidPipeline(p: Pipeline) {
    && p.name != "" && p.stages != []
    && ValidStages(p.stages)
    && KnownDeps(p.stages) && !HasCycle(StageGraph(p.stages))
    && (forall g :: g in p.gates ==> ValidGate(g, Names(p.stages)))
  }

  /** The reported error is a fact about the pipeline. */
  ghost predicate Explains(p: Pipeline, e: Invalid) {
    match e
    case NoName => p.name == ""
    case NoStages => p.stages == []
    case UnnamedStage(i) => i < |p.stages| && p.stages[i].name == ""
    case DuplicateStage(n) => exists i, j :: 0 <= i < j < |p.stages| && p.stages[i].name == p.stages[j].name == n
    case BadStage(n) => exists s :: s in p.stages && s.name == n && !ValidStage(s)
    case UnknownDependency(n, d) =>
      d !in Names(p.stages) && exists s :: s in p.stages && s.name == n && d in s.dependsOn
    case SelfDependency(n) => exists s :: s in p.stages && s.name == n && n in s.dependsOn
    case CycleFound(a, b) => OnCycle(StageGraph(p.stages), a, b)
    case UnknownGateStage(n) => n !in Names(p.stages) && exists g :: g in p.gates && g.after == n
    case GateWithoutCommand(n) => exists g :: g in p.gates && g.after == n && g.command == ""
  }

  /** Stages and their nodes have the same names, unique together. */
  lemma {:induction false} StageNodes(stages: seq<Stage>)
    ensures NodeNames(Nodes(stages)) == Names(stages)
    ensures UniqueNodes(Nodes(stages)) <==> UniqueNames(stages)
  {
    if stages != [] {
      var i := |stages| - 1;
      assert Nodes(stages)[..i] == Nodes(stages[..i]);
      assert Nodes(stages)[..i + 1] == Nodes(stages) && stages[..i + 1] == stages;
      NodePrefixStep(Nodes(stages), i);
      PrefixStep(stages, i);
      StageNodes(stages[..i]);
    }
  }

  lemma StageGraphOf(stages: seq<Stage>)
    ensures StageGraph(stages).Keys == Names(stages)
    ensures UniqueNames(stages) ==> forall s :: s in stages ==> StageGraph(stages)[s.name] == s.dependsOn
  {
    StageNodes(stages);
    UniqueGraph(Nodes(stages));
    forall s | s in stages && UniqueNames(stages) ensures StageGraph(stages)[s.name] == s.dependsOn {
      var i :| 0 <= i < |stages| && stages[i] == s;
      assert Nodes(stages)[i] in Nodes(stages);
    }
  }

  /** One more stage: what the names, their uniqueness and their validity become. */
  lemma PrefixStep(stages: seq<Stage>, i: nat)
    requires i < |stages|
    ensures stages[..i + 1][..i] == stages[..i] && stages[..i + 1] == stages[..i] + [stages[i]]
    ensures Names(stages[..i + 1]) == Names(stages[..i]) + {stages[i].name}
    ensures UniqueNames(stages[..i + 1]) <==> UniqueNames(stages[..i]) && stages[i].name !in Names(stages[..i])
  {
    var next := stages[..i + 1];
    assert next == stages[..i] + [stages[i]];
    assert next[..i] == stages[..i] && next[i] == stages[i];
  }

  lemma {:induction false} PrefixUnique(stages: seq<Stage>, i: nat)
    requires i <= |stages| && UniqueNames(stages)
    ensures UniqueNames(stages[..i])
    decreases |stages| - i
  {
    if i < |stages| {
      PrefixUnique(stages, i + 1);
      PrefixStep(stages, i);
    } else {
      assert stages[..i] == stages;
    }
  }

  lemma ValidStagesPrefix(stages: seq<Stage>, i: nat)
    requires i <= |stages| && ValidStages(stages)
    ensures ValidStages(stages[..i])
  {
    PrefixUnique(stages, i);
  }

  lemma EmptyIsValid()
    ensures ValidStages([]) && Names([]) == {}
  {
  }

  lemma ValidStagesStep(stages: seq<Stage>, i: nat)
    requires i < |stages|
    ensures Names(stages[..i + 1]) == Names(stages[..i]) + {stages[i].name}
    ensures ValidStages(stages[..i + 1]) <==>
              && ValidStages(stages[..i]) && stages[i].name != "" && ValidStage(stages[i])
              && stages[i].name !in Names(stages[..i])
    ensures ValidStages(stages) ==> ValidStages(stages[..i + 1])
  {
    hide ValidStage;
    PrefixStep(stages, i);
    if ValidStages(stages) {
      ValidStagesPrefix(stages, i + 1);
    }
  }

  method ValidateStages(p: Pipeline) returns (names: set<string>, err: Option<Invalid>)
    ensures err.None? <==> ValidStages(p.stages)
    ensures err.None? ==> names == Names(p.stages)
    ensures err.Some? ==> Explains(p, err.value)
  {
    hide UniqueNames, ValidStages;
    names := {};
    var stages := p.stages;
    EmptyIsValid();
    for i := 0 to |stages|
      invariant names == Names(stages[..i])
      invariant ValidStages(stages[..i])
    {
      var s := stages[i];
      ValidStagesStep(stages, i);
      if s.name == "" {
        return names, Some(UnnamedStage(i));
      }
      if s.name in names {
        assert exists j :: 0 <= j < i && stages[j].name == s.name;
        return names, Some(DuplicateStage(s.name));
      }
      names := names + {s.name};
      if !ValidStage(s) {
        return names, Some(BadStage(s.name));
      }
    }
    assert stages[..|stages|] == stages;
    err := None;
  }

  method ValidateDependencies(p: Pipeline, names: set<string>) returns (err: Option<Invalid>)
    requires names == Names(p.stages) && UniqueNames(p.stages)
    ensures err.None? <==> KnownDeps(p.stages) && !HasCycle(StageGraph(p.stages))
    ensures err.Some? ==> Explains(p, err.value)
  {
    var stages := p.stages;
    for i := 0 to |stages|
      invariant forall s, d :: s in stages[..i] && d in s.dependsOn ==> d in names
    {
      var s := stages[i];
      assert stages[..i + 1] == stages[..i] + [s];
      for j := 0 to |s.dependsOn|
        invariant forall d :: d in s.dependsOn[..j] ==> d in names
      {
        var dep := s.dependsOn[j];
        assert s.dependsOn[..j + 1] == s.dependsOn[..j] + [dep];
        assert dep in s.dependsOn && s in stages;
        if dep !in names {
          return Some(UnknownDependency(s.name, dep));
        }
        if dep == s.name {
          StageGraphOf(stages);
          SelfEdgeIsCycle(StageGraph(stages), s.name);
          return Some(SelfDependency(s.name));
        }
      }
      assert s.dependsOn[..|s.dependsOn|] == s.dependsOn;
    }
    assert stages[..|stages|] == stages;
    var cycle := DetectCycle(Nodes(stages));
    err := if cycle.None? then None else Some(CycleFound(cycle.value.0, cycle.value.1));
  }

  method ValidateGates(p: Pipeline, names: set<string>) returns (err: Option<Invalid>)
    requires names == Names(p.stages)
    ensures err.None? <==> forall g :: g in p.gates ==> ValidGate(g, names)
    ensures err.Some? ==> Explains(p, err.value)
  {
    for i := 0 to |p.gates|
      invariant forall g :: g in p.gates[..i] ==> ValidGate(g, names)
    {
      var g := p.gates[i];
      assert p.gates[..i + 1] == p.gates[..i] + [g];
      assert g in p.gates;
      if g.after !in names {
        return Some(UnknownGateStage(g.after));
      }
      if g.command == "" {
        return Some(GateWithoutCommand(g.after));
      }
    }
    assert p.gates[..|p.gates|] == p.gates;
    err := None;
  }

  /** Accepts exactly the valid pipelines, and every error it reports is a fact about the pipeline. */
  method Validate(p: Pipeline) returns (err: Option<Invalid>)
    ensures err.None? <==> ValidPipeline(p)
    ensures err.Some? ==> Explains(p, err.value)
  {
    if p.name == "" {
      return Some(NoName);
    }
    if |p.stages| == 0 {
      return Some(NoStages);
    }
    var names;
    names, err := ValidateStages(p);
    if err.Some? {
      return;
    }
    err := ValidateDependencies(p, names);
    if err.Some? {
      return;
    }
    err := ValidateGates(p, names);
  }

  method GatesAfter(p: Pipeline, stage: string) returns (gates: seq<Gate>)
    ensures gates == GatesOf(p.gates, stage)
  {
    gates := [];
    for i := 0 to |p.gates|
      invariant gates == GatesOf(p.gates[..i], stage)
    {
      assert p.gates[..i + 1][..i] == p.gates[..i];
      if p.gates[i].after == stage {
        gates := gates + [p.gates[i]];
      }
    }
    assert p.gates[..|p.gates|] == p.gates;
  }

  function GatesOf(gates: seq<Gate>, stage: string): seq<Gate> {
    if gates == [] then []
    else
      var front, last := gates[..|gates| - 1], gates[|gates| - 1];
      GatesOf(front, stage) + if last.after == stage then [last] else []
  }

  function GateOf(stage: string): Gate -> Option<Gate> {
    (g: Gate) => if g.after == stage then Some(g) else None
  }

  /** The gates of a stage are those of the manifest that name it, each as often as there and in that order. */
  lemma {:induction false} GatesInOrder(gates: seq<Gate>, stage: string) returns (at: seq<nat>)
    ensures Picks(gates, GateOf(stage), GatesOf(gates, stage), at)
  {
    if gates == [] {
      at := [];
      PicksNone(GateOf(stage));
    } else {
      var front, last := gates[..|gates| - 1], gates[|gates| - 1];
      at := GatesInOrder(front, stage);
      at := PicksOneMore(front, GateOf(stage), GatesOf(front, stage), at, last);
      assert front + [last] == gates;
    }
  }

  // ----- Tiers -----

  /** Distinct names, and exactly the given ones. */
  ghost predicate Lists(stages: seq<Stage>, names: set<string>) {
    UniqueNames(stages) && Names(stages) == names
  }

  /** Tier k holds the stages settled in round k + 1, each once. */
  ghost predicate TiersSoFar(stages: seq<Stage>, tiers: seq<seq<Stage>>) {
    var g := StageGraph(stages);
    && (forall k :: 0 <= k < |tiers| ==> tiers[k] != [] && Lists(tiers[k], Level(g, k + 1) - Level(g, k)))
    && (forall k, s :: 0 <= k < |tiers| && s in tiers[k] ==> s in stages)
  }

  /** What the tiers are for a list with unique names: the rounds went on until nothing more
      could be settled. */
  ghost predicate IsTierOrder(stages: seq<Stage>, tiers: seq<seq<Stage>>) {
    && TiersSoFar(stages, tiers)
    && Level(StageGraph(stages), |tiers|) == Level(StageGraph(stages), |tiers| + 1)
  }

  /** How many entries of a dependency list are not settled yet; a repeated entry counts again. */
  function Unsettled(deps: seq<string>, settled: set<string>): nat {
    if deps == [] then 0
    else Unsettled(deps[..|deps| - 1], settled) + if deps[|deps| - 1] in settled then 0 else 1
  }

  lemma {:induction false} UnsettledZero(deps: seq<string>, settled: set<string>)
    ensures Unsettled(deps, settled) == 0 <==> forall d :: d in deps ==> d in settled
    ensures settled == {} ==> Unsettled(deps, settled) == |deps|
  {
    if deps != [] {
      assert deps == deps[..|deps| - 1] + [deps[|deps| - 1]];
      UnsettledZero(deps[..|deps| - 1], settled);
    }
  }

  lemma {:induction false} UnsettledStep(deps: seq<string>, settled: set<string>, d: string)
    requires d !in settled
    ensures Unsettled(deps, settled + {d}) == Unsettled(deps, settled) - Count(deps, d)
  {
    if deps != [] {
      assert deps == deps[..|deps| - 1] + [deps[|deps| - 1]];
      UnsettledStep(deps[..|deps| - 1], settled, d);
    }
  }

  function Lookup(m: map<string, seq<string>>, k: string): seq<string> {
    if k in m then m[k] else []
  }

  function Count(s: seq<string>, x: string): nat {
    if s == [] then 0 else Count(s[..|s| - 1], x) + if s[|s| - 1] == x then 1 else 0
  }

  lemma CountAppend(s: seq<string>, x: string)
    ensures forall y :: Count(s + [x], y) == Count(s, y) + if y == x then 1 else 0
  {
    assert (s + [x])[..|s|] == s;
  }

  lemma {:induction false} CountPositive(s: seq<string>, x: string)
    ensures Count(s, x) > 0 <==> x in s
  {
    if s != [] {
      CountPositive(s[..|s| - 1], x);
      assert s == s[..|s| - 1] + [s[|s| - 1]];
    }
  }

  /** How often `dependents` lists stage n under dependency d. */
  ghost function Times(dependents: map<string, seq<string>>, d: string, n: string): nat {
    Count(Lookup(dependents, d), n)
  }

  ghost predicate Adds(
    before: map<string, seq<string>>, after: map<string, seq<string>>, name: string, deps: seq<string>)
  {
    forall d, n :: Times(after, d, n) == Times(before, d, n) + if n == name then Count(deps, d) else 0
  }

  /** Every stage is listed under every dependency as often as it names it. */
  ghost predicate Counted(dependents: map<string, seq<string>>, stageMap: map<string, Stage>) {
    forall d, n :: Times(dependents, d, n) == if n in stageMap then Count(stageMap[n].dependsOn, d) else 0
  }

  ghost predicate ListsOnly(dependents: map<string, seq<string>>, names: set<string>) {
    forall d, n :: Times(dependents, d, n) > 0 ==> n in names
  }

  /** What the three maps of the algorithm say about a list of stages. */
  ghost predicate Indexed(
    stages: seq<Stage>, stageMap: map<string, Stage>, inDegree: map<string, int>, dependents: map<string, seq<string>>)
  {
    && Mapped(stages, stageMap, inDegree)
    && ListsOnly(dependents, stageMap.Keys)
    && (UniqueNames(stages) ==> Counted(dependents, stageMap))
  }

  lemma IndexedStep(
    stages: seq<Stage>, i: nat, stageMap: map<string, Stage>, inDegree: map<string, int>,
    before: map<string, seq<string>>, after: map<string, seq<string>>)
    requires i < |stages| && Indexed(stages[..i], stageMap, inDegree, before)
    requires Adds(before, after, stages[i].name, stages[i].dependsOn)
    ensures Indexed(stages[..i + 1], stageMap[stages[i].name := stages[i]],
                    inDegree[stages[i].name := |stages[i].dependsOn|], after)
  {
    hide UniqueNames, Counted, ListsOnly, Adds, Names;
    PrefixStep(stages, i);
    var s := stages[i];
    CountedStep(before, after, stageMap, s);
    MappedStep(stages, i, stageMap, inDegree);
  }

  /** The part of the maps that concerns stages. */
  ghost predicate Mapped(stages: seq<Stage>, stageMap: map<string, Stage>, inDegree: map<string, int>) {
    && stageMap.Keys == inDegree.Keys == Names(stages)
    && (forall n :: n in stageMap ==> stageMap[n] in stages && stageMap[n].name == n)
    && (forall n :: n in inDegree ==> inDegree[n] == |stageMap[n].dependsOn|)
  }

  lemma MappedStep(stages: seq<Stage>, i: nat, stageMap: map<string, Stage>, inDegree: map<string, int>)
    requires i < |stages| && Mapped(stages[..i], stageMap, inDegree)
    ensures Mapped(stages[..i + 1], stageMap[stages[i].name := stages[i]],
                   inDegree[stages[i].name := |stages[i].dependsOn|])
  {
    hide Names, UniqueNames;
    PrefixStep(stages, i);
  }

  lemma CountedStep(
    before: map<string, seq<string>>, after: map<string, seq<string>>, stageMap: map<string, Stage>, s: Stage)
    requires Adds(before, after, s.name, s.dependsOn) && ListsOnly(before, stageMap.Keys)
    ensures ListsOnly(after, stageMap[s.name := s].Keys)
    ensures Counted(before, stageMap) && s.name !in stageMap ==> Counted(after, stageMap[s.name := s])
  {
  }

  /** Lists a stage under each of its dependencies, once for every time it names the dependency,
      so that a repeated dependency is counted and discounted equally often. */
  method AddDependent(name: string, deps: seq<string>, dependents: map<string, seq<string>>)
    returns (out: map<string, seq<string>>)
    ensures Adds(dependents, out, name, deps)
  {
    out := dependents;
    assert deps[..0] == [] && forall d :: Count([], d) == 0;
    for j := 0 to |deps|
      invariant Adds(dependents, out, name, deps[..j])
    {
      assert deps[..j + 1] == deps[..j] + [deps[j]];
      CountAppend(deps[..j], deps[j]);
      CountAppend(Lookup(out, deps[j]), name);
      out := out[deps[j] := Lookup(out, deps[j]) + [name]];
    }
    assert deps[..|deps|] == deps;
  }

  method IndexStages(stages: seq<Stage>)
    returns (stageMap: map<string, Stage>, inDegree: map<string, int>, dependents: map<string, seq<string>>)
    ensures Indexed(stages, stageMap, inDegree, dependents)
  {
    stageMap, inDegree, dependents := map[], map[], map[];
    for i := 0 to |stages|
      invariant Indexed(stages[..i], stageMap, inDegree, dependents)
    {
      var s := stages[i];
      var listed := AddDependent(s.name, s.dependsOn, dependents);
      IndexedStep(stages, i, stageMap, inDegree, dependents, listed);
      stageMap, inDegree, dependents := stageMap[s.name := s], inDegree[s.name := |s.dependsOn|], listed;
    }
    assert stages[..|stages|] == stages;
  }

  /** Collects the stages with no unmet dependency, in whatever order the map yields them. */
  method CollectReady(inDegree: map<string, int>, stageMap: map<string, Stage>) returns (ready: seq<Stage>)
    requires inDegree.Keys <= stageMap.Keys
    requires forall n :: n in stageMap ==> stageMap[n].name == n
    ensures Lists(ready, set n | n in inDegree && inDegree[n] == 0)
    ensures forall s :: s in ready ==> s in stageMap.Values
  {
    ready := [];
    var rest := inDegree.Keys;
    while rest != {}
      invariant rest <= inDegree.Keys
      invariant Lists(ready, set n | n in inDegree && n !in rest && inDegree[n] == 0)
      invariant forall s :: s in ready ==> s in stageMap.Values
    {
      var name :| name in rest;
      rest := rest - {name};
      if inDegree[name] == 0 {
        var s := stageMap[name];
        ready := ready + [s];
        PrefixStep(ready, |ready| - 1);
      }
    }
  }

  /** One stage is settled: its own entry is deleted and every dependent's count goes down. Go's
      decrement of a missing key inserts it at -1. */
  ghost predicate Settles(before: map<string, int>, name: string, dependents: seq<string>, after: map<string, int>) {
    && after.Keys == before.Keys - {name} + (set n | n in dependents)
    && forall n :: n in after ==>
         after[n] == (if n in before && n != name then before[n] else 0) - Count(dependents, n)
  }

  lemma SettlesNone(before: map<string, int>, name: string)
    ensures Settles(before, name, [], before - {name})
  {
  }

  lemma SettlesOne(
    before: map<string, int>, name: string, dependents: seq<string>, after: map<string, int>, dep: string)
    requires Settles(before, name, dependents, after)
    ensures Settles(before, name, dependents + [dep], after[dep := (if dep in after then after[dep] else 0) - 1])
  {
    hide Count;
    CountAppend(dependents, dep);
    CountPositive(dependents, dep);
  }

  method Settle(name: string, inDegree: map<string, int>, dependents: seq<string>) returns (out: map<string, int>)
    ensures Settles(inDegree, name, dependents, out)
  {
    hide Settles, Count;
    out := inDegree - {name};
    assert dependents[..0] == [];
    SettlesNone(inDegree, name);
    for j := 0 to |dependents|
      invariant Settles(inDegree, name, dependents[..j], out)
    {
      var dep := dependents[j];
      assert dependents[..j + 1] == dependents[..j] + [dep];
      SettlesOne(inDegree, name, dependents[..j], out, dep);
      out := out[dep := (if dep in out then out[dep] else 0) - 1];
    }
    assert dependents[..|dependents|] == dependents;
  }

  /** The stages still waiting, each with the number of its dependencies that are not settled. */
  ghost predicate Waiting(g: Graph, inDegree: map<string, int>, settled: set<string>) {
    && inDegree.Keys == g.Keys - settled
    && forall n :: n in inDegree ==> inDegree[n] == Unsettled(g[n], settled)
  }

  /** Stages that can still become ready. Settling never adds one, whatever the list. */
  ghost function Candidates(inDegree: map<string, int>): set<string> {
    set n | n in inDegree && inDegree[n] >= 0
  }

  /** The decrement stays on waiting stages: no settled key is inserted again. */
  lemma SettlesKeepsWaiting(
    g: Graph, dependents: map<string, seq<string>>, before: map<string, int>, after: map<string, int>,
    settled: set<string>, d: string)
    requires CountedIn(dependents, g)
    requires Waiting(g, before, settled) && Settles(before, d, Lookup(dependents, d), after)
    requires d in g && d !in settled
    requires forall n :: n in settled + {d} && n in g ==> d !in g[n]
    ensures Waiting(g, after, settled + {d})
  {
    forall n ensures n in Lookup(dependents, d) <==> n in g && d in g[n] {
      CountPositive(Lookup(dependents, d), n);
      if n in g { CountPositive(g[n], d); }
      assert Times(dependents, d, n) == Count(Lookup(dependents, d), n);
    }
    forall n | n in g { UnsettledStep(g[n], settled, d); }
  }

  /** The ready stages are exactly those of the next level. */
  lemma ReadyIsNextLevel(g: Graph, inDegree: map<string, int>, k: nat)
    requires Waiting(g, inDegree, Level(g, k))
    ensures (set n | n in inDegree && inDegree[n] == 0) == Level(g, k + 1) - Level(g, k)
  {
    forall n | n in g { UnsettledZero(g[n], Level(g, k)); }
    LevelGrows(g, k, k + 1);
  }

  lemma CandidatesShrink(before: map<string, int>, name: string, dependents: seq<string>, after: map<string, int>)
    requires Settles(before, name, dependents, after)
    ensures Candidates(after) <= Candidates(before) - {name}
  {
    forall n | n in Candidates(after) ensures n in Candidates(before) - {name} {
      CountPositive(dependents, n);
    }
  }

  /** Settles a whole tier. */
  method SettleTier(
    ready: seq<Stage>, inDegree: map<string, int>, dependents: map<string, seq<string>>,
    ghost names: set<string>, ghost g: Graph, ghost k: nat)
    returns (out: map<string, int>)
    requires inDegree.Keys <= names && ListsOnly(dependents, names)
    ensures out.Keys <= names
    ensures Candidates(out) <= Candidates(inDegree) - Names(ready)
    ensures TierReady(g, k, dependents, ready) && Waiting(g, inDegree, Level(g, k)) ==> Waiting(g, out, Level(g, k + 1))
  {
    hide UniqueNames, Waiting, CountedIn, Level, Candidates;
    out := inDegree;
    ghost var sound := TierReady(g, k, dependents, ready) && Waiting(g, inDegree, Level(g, k));
    assert ready[..0] == [] && Names([]) == {} && Level(g, k) + {} == Level(g, k);
    for i := 0 to |ready|
      invariant out.Keys <= names
      invariant Candidates(out) <= Candidates(inDegree) - Names(ready[..i])
      invariant sound ==> Waiting(g, out, Level(g, k) + Names(ready[..i]))
    {
      var before := out;
      var name := ready[i].name;
      PrefixStep(ready, i);
      out := Settle(name, before, Lookup(dependents, name));
      CandidatesShrink(before, name, Lookup(dependents, name), out);
      forall n | n in Lookup(dependents, name) ensures Times(dependents, name, n) > 0 {
        CountPositive(Lookup(dependents, name), n);
      }
      if sound {
        TierStep(g, k, dependents, ready, i, before, out);
      }
    }
    assert ready[..|ready|] == ready;
    LevelGrows(g, k, k + 1);
    assert sound ==> Level(g, k) + Names(ready) == Level(g, k + 1);
  }

  ghost predicate CountedIn(dependents: map<string, seq<string>>, g: Graph) {
    forall d, n :: Times(dependents, d, n) == if n in g then Count(g[n], d) else 0
  }

  ghost predicate TierReady(g: Graph, k: nat, dependents: map<string, seq<string>>, ready: seq<Stage>) {
    Lists(ready, Level(g, k + 1) - Level(g, k)) && CountedIn(dependents, g)
  }

  lemma TierStep(
    g: Graph, k: nat, dependents: map<string, seq<string>>, ready: seq<Stage>, i: nat,
    before: map<string, int>, after: map<string, int>)
    requires TierReady(g, k, dependents, ready) && i < |ready|
    requires Waiting(g, before, Level(g, k) + Names(ready[..i]))
    requires Settles(before, ready[i].name, Lookup(dependents, ready[i].name), after)
    ensures Waiting(g, after, Level(g, k) + Names(ready[..i + 1]))
  {
    var settled, d := Level(g, k) + Names(ready[..i]), ready[i].name;
    PrefixStep(ready, i);
    PrefixUnique(ready, i + 1);
    LevelGrows(g, k, k + 1);
    assert d in Names(ready) && Names(ready[..i + 1]) <= Names(ready);
    assert settled + {d} <= Level(g, k + 1);
    SettlesKeepsWaiting(g, dependents, before, after, settled, d);
    assert settled + {d} == Level(g, k) + Names(ready[..i + 1]);
  }

  /** The maps of the algorithm describe the dependency graph. */
  lemma IndexedGraph(
    stages: seq<Stage>, stageMap: map<string, Stage>, inDegree: map<string, int>, dependents: map<string, seq<string>>)
    requires Indexed(stages, stageMap, inDegree, dependents) && UniqueNames(stages)
    ensures CountedIn(dependents, StageGraph(stages)) && Waiting(StageGraph(stages), inDegree, {})
  {
    var g := StageGraph(stages);
    StageGraphOf(stages);
    assert forall n :: n in g ==> g[n] == stageMap[n].dependsOn;
    forall n | n in g { UnsettledZero(g[n], {}); }
  }

  /** What collecting the ready stages yields: the next tier, or the end of the order. */
  lemma CollectedTier(
    stages: seq<Stage>, tiers: seq<seq<Stage>>,
    stageMap: map<string, Stage>, inDegree: map<string, int>, ready: seq<Stage>)
    requires TiersSoFar(stages, tiers) && Waiting(StageGraph(stages), inDegree, Level(StageGraph(stages), |tiers|))
    requires Lists(ready, set n | n in inDegree && inDegree[n] == 0)
    requires forall s :: s in ready ==> s in stageMap.Values
    requires forall n :: n in stageMap ==> stageMap[n] in stages
    ensures Lists(ready, Level(StageGraph(stages), |tiers| + 1) - Level(StageGraph(stages), |tiers|))
    ensures ready == [] ==> IsTierOrder(stages, tiers)
    ensures ready != [] ==> TiersSoFar(stages, tiers + [ready])
  {
    var g, k := StageGraph(stages), |tiers|;
    ReadyIsNextLevel(g, inDegree, k);
    if ready == [] {
      NothingLeft(g, k);
    } else {
      TiersGrow(stages, tiers, stageMap, ready);
    }
  }

  lemma NothingLeft(g: Graph, k: nat)
    requires Level(g, k + 1) - Level(g, k) == {}
    ensures Level(g, k) == Level(g, k + 1)
  {
    LevelGrows(g, k, k + 1);
    forall n ensures n in Level(g, k) <==> n in Level(g, k + 1) {
      assert n !in Level(g, k + 1) - Level(g, k);
    }
  }

  lemma TiersGrow(stages: seq<Stage>, tiers: seq<seq<Stage>>, stageMap: map<string, Stage>, ready: seq<Stage>)
    requires TiersSoFar(stages, tiers) && ready != []
    requires Lists(ready, Level(StageGraph(stages), |tiers| + 1) - Level(StageGraph(stages), |tiers|))
    requires forall s :: s in ready ==> s in stageMap.Values
    requires forall n :: n in stageMap ==> stageMap[n] in stages
    ensures TiersSoFar(stages, tiers + [ready])
  {
    hide UniqueNames, Level, StageGraph, Names;
  }

  /** Groups the stages into tiers. It terminates on every list, even one whose names repeat. */
  method TopologicalOrder(stages: seq<Stage>) returns (tiers: seq<seq<Stage>>)
    ensures UniqueNames(stages) ==> IsTierOrder(stages, tiers)
  {
    var stageMap, inDegree, dependents := IndexStages(stages);
    ghost var g, unique := StageGraph(stages), UniqueNames(stages);
    if unique {
      IndexedGraph(stages, stageMap, inDegree, dependents);
    }
    tiers := [];
    while true
      invariant inDegree.Keys <= stageMap.Keys
      invariant unique ==> Waiting(g, inDegree, Level(g, |tiers|)) && TiersSoFar(stages, tiers)
      decreases Candidates(inDegree)
    {
      var ready := CollectReady(inDegree, stageMap);
      if unique {
        CollectedTier(stages, tiers, stageMap, inDegree, ready);
      }
      if |ready| == 0 {
        return;
      }
      assert ready[0].name in Names(ready) && ready[0].name in Candidates(inDegree);
      inDegree := SettleTier(ready, inDegree, dependents, stageMap.Keys, g, |tiers|);
      tiers := tiers + [ready];
    }
  }

  // ----- What the tiers mean -----

  ghost predicate InTier(tiers: seq<seq<Stage>>, k: nat, n: string) {
    k < |tiers| && n in Names(tiers[k])
  }

  /** The longest dependency chain below n has length k, and every stage on any chain is listed. */
  ghost predicate LongestChain(g: Graph, n: string, k: nat) {
    && (exists p :: IsPath(g, p) && p[0] == n && |p| == k + 1)
    && (forall p :: IsPath(g, p) && p[0] == n ==> |p| <= k + 1 && p[|p| - 1] in g)
  }

  /** Being in tier k and being settled in round k + 1 are the same. */
  lemma InTierIffSettled(stages: seq<Stage>, tiers: seq<seq<Stage>>, k: nat, n: string)
    requires IsTierOrder(stages, tiers)
    ensures InTier(tiers, k, n) <==> n in Level(StageGraph(stages), k + 1) - Level(StageGraph(stages), k)
  {
    var g := StageGraph(stages);
    if k >= |tiers| {
      LevelFixed(g, |tiers|, k);
      LevelFixed(g, |tiers|, k + 1);
    }
  }

  lemma {:induction false} FirstLevel(g: Graph, k: nat, n: string) returns (m: nat)
    requires n in Level(g, k)
    ensures m < k && n in Level(g, m + 1) - Level(g, m)
  {
    if n in Level(g, k - 1) {
      m := FirstLevel(g, k - 1, n);
    } else {
      m := k - 1;
    }
  }

  /** A stage is in tier k exactly when its longest dependency chain has length k. */
  lemma TierIsChainLength(stages: seq<Stage>, tiers: seq<seq<Stage>>, k: nat, n: string)
    requires IsTierOrder(stages, tiers)
    ensures InTier(tiers, k, n) <==> LongestChain(StageGraph(stages), n, k)
  {
    TierIsLongestChain(StageGraph(stages), k, n);
    InTierIffSettled(stages, tiers, k, n);
  }

  /** A listed stage is left out exactly when it reaches a cycle or an unknown dependency. */
  lemma OmittedIff(stages: seq<Stage>, tiers: seq<seq<Stage>>, n: string)
    requires IsTierOrder(stages, tiers)
    ensures (forall k: nat :: !InTier(tiers, k, n)) <==>
              ReachesCycle(StageGraph(stages), n) || ReachesUnknown(StageGraph(stages), n)
  {
    var g := StageGraph(stages);
    NeverSettledIff(g, n);
    if forall k: nat :: n !in Level(g, k) {
      forall k: nat ensures !InTier(tiers, k, n) {
        InTierIffSettled(stages, tiers, k, n);
      }
    } else {
      var k: nat :| n in Level(g, k);
      var m := FirstLevel(g, k, n);
      InTierIffSettled(stages, tiers, m, n);
    }
  }

  /** No stage is emitted twice. */
  lemma EmittedOnce(stages: seq<Stage>, tiers: seq<seq<Stage>>, j: nat, k: nat, n: string)
    requires IsTierOrder(stages, tiers)
    requires InTier(tiers, j, n) && InTier(tiers, k, n)
    ensures j == k
  {
    InTierIffSettled(stages, tiers, j, n);
    InTierIffSettled(stages, tiers, k, n);
    if j < k {
      LevelGrows(StageGraph(stages), j + 1, k);
    } else if k < j {
      LevelGrows(StageGraph(stages), k + 1, j);
    }
  }

  /** A stage's dependencies all lie in earlier tiers. */
  lemma DependenciesInEarlierTiers(stages: seq<Stage>, tiers: seq<seq<Stage>>, k: nat, n: string, d: string)
    returns (j: nat)
    requires IsTierOrder(stages, tiers)
    requires InTier(tiers, k, n) && Edge(StageGraph(stages), n, d)
    ensures j < k && InTier(tiers, j, d)
  {
    InTierIffSettled(stages, tiers, k, n);
    j := FirstLevel(StageGraph(stages), k, d);
    InTierIffSettled(stages, tiers, j, d);
  }

  /** The tiers of a valid pipeline hold exactly its stages. */
  lemma ValidPipelineIsComplete(p: Pipeline, tiers: seq<seq<Stage>>, n: string)
    requires ValidPipeline(p) && IsTierOrder(p.stages, tiers)
    ensures n in Names(p.stages) <==> exists k :: 0 <= k < |tiers| && InTier(tiers, k, n)
  {
    var g := StageGraph(p.stages);
    StageGraphOf(p.stages);
    if n in g {
      forall a, b | Edge(g, a, b) ensures b in g {
        var s :| s in p.stages && s.name == a;
      }
      AcyclicSettles(g, n);
      var m := FirstLevel(g, |g|, n);
      InTierIffSettled(p.stages, tiers, m, n);
    }
  }
}
