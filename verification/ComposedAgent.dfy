/** Composed agent manifests (agent/composed.go) and their conversion to pipelines (runner/composed.go). */
module ComposedAgent {
  import opened Wrappers
  import opened DependencyGraph
  import P = Pipeline

  datatype ComposedPartition = ComposedPartition(splitBy: string, glob: string, maxPerPartition: int)

  datatype ComposedPreGate = ComposedPreGate(command: string, title: string, onError: string)

  datatype ComposedGate = ComposedGate(after: string, command: string, onFailure: string)

  datatype ComposedModel = ComposedModel(model: string, provider: string)

  datatype ComposedStage = ComposedStage(
    name: string, agent: string, agents: seq<string>, dependsOn: seq<string>, mode: string,
    vars: map<string, string>, condition: string, preGates: seq<ComposedPreGate>, maxCost: real,
    partition: Option<ComposedPartition>, summarize: string, summarizePrompt: string,
    entryPoint: string, wrapper: string, task: string, models: seq<ComposedModel>, references: seq<string>,
    commentsOnly: bool, asciiOnly: bool, mcpServers: seq<string>)
  {
    predicate IsInline() {
      entryPoint != ""
    }

    /** An inline stage is its own agent. */
    function AgentList(): seq<string> {
      if IsInline() then [name]
      else if agent != "" then [agent]
      else agents
    }
  }

  /** `requiresOk` and `executionOk` are the verdicts of the requires and execution blocks. */
  datatype Manifest = Manifest(
    name: string, version: string, description: string, entryPoint: string, wrapper: string, task: string,
    models: seq<ComposedModel>, stages: seq<ComposedStage>, gates: seq<ComposedGate>,
    requiresOk: bool, executionOk: bool)
  {
    predicate IsComposed() {
      |stages| > 0
    }
  }

  datatype Invalid =
    | NoName | BadRequires | BadExecution | LeafField
    | UnnamedStage | DuplicateStage(name: string) | BadStage(name: string)
    | UnknownDependency(stage: string, dep: string) | SelfDependency(stage: string)
    | CycleFound(from: string, to: string)
    | BadGate(after: string)

  function Nodes(stages: seq<ComposedStage>): (nodes: seq<Node>)
    ensures |nodes| == |stages|
    ensures forall i :: 0 <= i < |stages| ==> nodes[i] == Node(stages[i].name, stages[i].dependsOn)
  {
    NodesBy(stages, (s: ComposedStage) => Node(s.name, s.dependsOn))
  }

  predicate ValidAgents(s: ComposedStage) {
    var hasExternal := s.agent != "" || |s.agents| > 0;
    && (hasExternal || s.IsInline())
    && !(hasExternal && s.IsInline())
    && !(s.agent != "" && |s.agents| > 0)
    && (s.IsInline() ==> s.wrapper != "")
  }

  predicate ValidStage(s: ComposedStage) {
    && ValidAgents(s)
    && (s.partition.Some? ==> s.agent != "" && s.partition.value.splitBy == "files" && s.partition.value.glob != "")
    && s.summarize in ["", "auto", "always", "never"]
  }

  ghost predicate EachValid(stages: seq<ComposedStage>) {
    forall i :: 0 <= i < |stages| ==> stages[i].name != "" && ValidStage(stages[i])
  }

  ghost predicate ValidStages(stages: seq<ComposedStage>) {
    EachValid(stages) && UniqueNodes(Nodes(stages))
  }

  predicate ValidGate(g: ComposedGate, names: set<string>) {
    g.after in names && g.command != ""
  }

  ghost predicate NoLeafFields(m: Manifest) {
    m.entryPoint == "" && m.wrapper == "" && m.models == [] && m.task == ""
  }

  /** What a composed manifest must satisfy, without reference to how it is checked. */
  ghost predicate ValidManifest(m: Manifest) {
    && m.name != "" && m.requiresOk && m.executionOk
    && NoLeafFields(m)
    && ValidStages(m.stages)
    && KnownNodes(Nodes(m.stages)) && !HasCycle(GraphOf(Nodes(m.stages)))
    && (forall g :: g in m.gates ==> ValidGate(g, NodeNames(Nodes(m.stages))))
  }

  lemma ValidStagesStep(stages: seq<ComposedStage>, i: nat)
    requires i < |stages| && ValidStages(stages[..i])
    ensures NodeNames(Nodes(stages[..i + 1])) == NodeNames(Nodes(stages[..i])) + {stages[i].name}
    ensures ValidStages(stages[..i + 1]) <==>
              stages[i].name != "" && stages[i].name !in NodeNames(Nodes(stages[..i])) && ValidStage(stages[i])
    ensures ValidStages(stages) ==> ValidStages(stages[..i + 1])
  {
    var nodes := Nodes(stages);
    assert Nodes(stages[..i]) == nodes[..i] && Nodes(stages[..i + 1]) == nodes[..i + 1];
    NodePrefixStep(nodes, i);
    EachValidStep(stages, i);
    if ValidStages(stages) {
      NodePrefixUnique(nodes, i + 1);
    }
  }

  lemma EachValidStep(stages: seq<ComposedStage>, i: nat)
    requires i < |stages|
    ensures EachValid(stages[..i + 1]) <==> EachValid(stages[..i]) && stages[i].name != "" && ValidStage(stages[i])
    ensures EachValid(stages) ==> EachValid(stages[..i + 1])
  {
    assert stages[..i + 1][i] == stages[i];
    assert forall j :: 0 <= j < i ==> stages[..i + 1][j] == stages[..i][j];
  }

  method ValidateComposedStages(m: Manifest) returns (names: set<string>, err: Option<Invalid>)
    ensures err.None? <==> ValidStages(m.stages)
    ensures err.None? ==> names == NodeNames(Nodes(m.stages))
  {
    names := {};
    for i := 0 to |m.stages|
      invariant names == NodeNames(Nodes(m.stages[..i]))
      invariant ValidStages(m.stages[..i])
    {
      var s := m.stages[i];
      ValidStagesStep(m.stages, i);
      if s.name == "" {
        return names, Some(UnnamedStage);
      }
      if s.name in names {
        return names, Some(DuplicateStage(s.name));
      }
      names := names + {s.name};
      if !ValidStage(s) {
        return names, Some(BadStage(s.name));
      }
    }
    assert m.stages[..|m.stages|] == m.stages;
    err := None;
  }

  method ValidateComposedDeps(m: Manifest, names: set<string>) returns (err: Option<Invalid>)
    requires names == NodeNames(Nodes(m.stages)) && UniqueNodes(Nodes(m.stages))
    ensures err.None? <==> KnownNodes(Nodes(m.stages)) && !HasCycle(GraphOf(Nodes(m.stages)))
  {
    var nodes := Nodes(m.stages);
    for i := 0 to |nodes|
      invariant forall n, d :: n in nodes[..i] && d in n.deps ==> d in names
    {
      var s := nodes[i];
      assert nodes[..i + 1] == nodes[..i] + [s];
      for j := 0 to |s.deps|
        invariant forall d :: d in s.deps[..j] ==> d in names
      {
        var dep := s.deps[j];
        assert s.deps[..j + 1] == s.deps[..j] + [dep];
        assert dep in s.deps && s in nodes;
        if dep !in names {
          return Some(UnknownDependency(s.name, dep));
        }
        if dep == s.name {
          UniqueGraph(nodes);
          SelfEdgeIsCycle(GraphOf(nodes), dep);
          return Some(SelfDependency(s.name));
        }
      }
      assert s.deps[..|s.deps|] == s.deps;
    }
    assert nodes[..|nodes|] == nodes;
    var cycle := DetectCycle(nodes);
    err := if cycle.None? then None else Some(CycleFound(cycle.value.0, cycle.value.1));
  }

  method ValidateComposedGates(m: Manifest, names: set<string>) returns (err: Option<Invalid>)
    ensures err.None? <==> forall g :: g in m.gates ==> ValidGate(g, names)
  {
    for i := 0 to |m.gates|
      invariant forall g :: g in m.gates[..i] ==> ValidGate(g, names)
    {
      var g := m.gates[i];
      assert m.gates[..i + 1] == m.gates[..i] + [g];
      assert g in m.gates;
      if !ValidGate(g, names) {
        return Some(BadGate(g.after));
      }
    }
    assert m.gates[..|m.gates|] == m.gates;
    err := None;
  }

  /** Accepts exactly the valid composed manifests. */
  method ValidateComposed(m: Manifest) returns (err: Option<Invalid>)
    requires m.IsComposed()
    ensures err.None? <==> ValidManifest(m)
  {
    if m.name == "" {
      return Some(NoName);
    }
    if !m.requiresOk {
      return Some(BadRequires);
    }
    if !m.executionOk {
      return Some(BadExecution);
    }
    if m.entryPoint != "" || m.wrapper != "" || |m.models| > 0 || m.task != "" {
      return Some(LeafField);
    }
    var names;
    names, err := ValidateComposedStages(m);
    if err.Some? {
      return;
    }
    err := ValidateComposedDeps(m, names);
    if err.Some? {
      return;
    }
    err := ValidateComposedGates(m, names);
  }

  // ----- Conversion -----

  datatype ConvertError = NotComposed | Rejected(reason: P.Invalid)

  /** What one converted stage must look like. */
  ghost predicate Converts(s: ComposedStage, t: P.Stage) {
    && t.name == s.name && t.dependsOn == s.dependsOn
    && t.agent == (if s.IsInline() then s.name else s.agent) && t.agents == s.agents
    && t.mode == s.mode && t.vars == s.vars && t.condition == s.condition && t.maxCost == s.maxCost
    && t.summarize == s.summarize && t.summarizePrompt == s.summarizePrompt && t.mcpServers == s.mcpServers
    && |t.preGates| == |s.preGates|
    && (forall i :: 0 <= i < |s.preGates| ==>
          t.preGates[i] == P.PreGate(s.preGates[i].command, s.preGates[i].title, s.preGates[i].onError))
    && (t.partition.Some? <==> s.partition.Some?)
    && (s.partition.Some? ==>
          && t.partition.value.splitBy == s.partition.value.splitBy
          && t.partition.value.glob == s.partition.value.glob
          && t.partition.value.maxPerPartition == s.partition.value.maxPerPartition)
    && (t.inlineConfig.Some? <==> s.IsInline())
    && (s.IsInline() ==> ConvertsInline(s, t.inlineConfig.value))
  }

  ghost predicate ConvertsInline(s: ComposedStage, c: P.InlineConfig) {
    && c.entryPoint == s.entryPoint && c.wrapper == s.wrapper && c.task == s.task && c.references == s.references
    && c.commentsOnly == s.commentsOnly && c.asciiOnly == s.asciiOnly
    && |c.models| == |s.models|
    && forall i :: 0 <= i < |s.models| ==> c.models[i] == P.ModelPreference(s.models[i].model, s.models[i].provider)
  }

  ghost predicate ConvertsGate(g: ComposedGate, h: P.Gate) {
    h.after == g.after && h.command == g.command && h.onFailure == g.onFailure
  }

  method ConvertStage(s: ComposedStage) returns (t: P.Stage)
    ensures Converts(s, t)
  {
    t := P.Stage(s.name, s.agent, s.agents, s.dependsOn, s.mode, s.vars, s.condition, [], s.maxCost, None,
                 s.summarize, s.summarizePrompt, s.mcpServers, None);
    if s.IsInline() {
      var models := [];
      for i := 0 to |s.models|
        invariant |models| == i
        invariant forall j :: 0 <= j < i ==> models[j] == P.ModelPreference(s.models[j].model, s.models[j].provider)
      {
        models := models + [P.ModelPreference(s.models[i].model, s.models[i].provider)];
      }
      t := t.(agent := s.name,
              inlineConfig := Some(P.InlineConfig(s.entryPoint, s.wrapper, s.task, models, s.references,
                                                  s.commentsOnly, s.asciiOnly)));
    }
    var preGates := [];
    for i := 0 to |s.preGates|
      invariant |preGates| == i
      invariant forall j :: 0 <= j < i ==>
          preGates[j] == P.PreGate(s.preGates[j].command, s.preGates[j].title, s.preGates[j].onError)
    {
      preGates := preGates + [P.PreGate(s.preGates[i].command, s.preGates[i].title, s.preGates[i].onError)];
    }
    t := t.(preGates := preGates);
    if s.partition.Some? {
      var q := s.partition.value;
      t := t.(partition := Some(P.Partition(q.splitBy, q.glob, q.maxPerPartition)));
    }
  }

  ghost predicate ConvertsTo(m: Manifest, p: P.Pipeline) {
    && p.name == m.name && p.version == m.version && p.description == m.description
    && |p.stages| == |m.stages| && (forall i :: 0 <= i < |m.stages| ==> Converts(m.stages[i], p.stages[i]))
    && |p.gates| == |m.gates| && (forall i :: 0 <= i < |m.gates| ==> ConvertsGate(m.gates[i], p.gates[i]))
  }

  /** Converts and validates. On a valid composed manifest it cannot fail. */
  method ManifestToPipeline(m: Manifest) returns (p: Option<P.Pipeline>, err: Option<ConvertError>)
    ensures p.Some? <==> err.None?
    ensures !m.IsComposed() <==> err == Some(NotComposed)
    ensures p.Some? ==> ConvertsTo(m, p.value) && P.ValidPipeline(p.value)
    ensures m.IsComposed() && ValidManifest(m) ==> p.Some?
  {
    if !m.IsComposed() {
      return None, Some(NotComposed);
    }
    var stages: seq<P.Stage> := [];
    for i := 0 to |m.stages|
      invariant |stages| == i
      invariant forall j :: 0 <= j < i ==> Converts(m.stages[j], stages[j])
    {
      var t := ConvertStage(m.stages[i]);
      stages := stages + [t];
    }
    var gates: seq<P.Gate> := [];
    for i := 0 to |m.gates|
      invariant |gates| == i
      invariant forall j :: 0 <= j < i ==> ConvertsGate(m.gates[j], gates[j])
    {
      gates := gates + [P.Gate(m.gates[i].after, m.gates[i].command, m.gates[i].onFailure)];
    }
    var pipe := P.Pipeline(m.name, m.version, m.description, stages, gates);
    var invalid := P.Validate(pipe);
    if ValidManifest(m) {
      ConversionKeepsValidity(m, pipe);
    }
    if invalid.Some? {
      return None, Some(Rejected(invalid.value));
    }
    return Some(pipe), None;
  }

  /** Order, names, dependency graph, agents and gates survive conversion, so both cycle checks
      look at the same graph. */
  lemma ConversionPreserves(m: Manifest, p: P.Pipeline)
    requires ConvertsTo(m, p)
    ensures Nodes(m.stages) == P.Nodes(p.stages)
    ensures NodeNames(Nodes(m.stages)) == P.Names(p.stages)
    ensures HasCycle(GraphOf(Nodes(m.stages))) <==> HasCycle(P.StageGraph(p.stages))
    ensures forall i :: 0 <= i < |m.stages| && m.stages[i].name != "" && ValidAgents(m.stages[i]) ==>
              p.stages[i].AgentList() == m.stages[i].AgentList() && |p.stages[i].AgentList()| > 0
  {
    assert Nodes(m.stages) == P.Nodes(p.stages);
    P.StageNodes(p.stages);
    forall i | 0 <= i < |m.stages| && m.stages[i].name != "" && ValidAgents(m.stages[i])
      ensures p.stages[i].AgentList() == m.stages[i].AgentList() && |p.stages[i].AgentList()| > 0
    {
      assert Converts(m.stages[i], p.stages[i]);
    }
  }

  lemma StageStaysValid(s: ComposedStage, t: P.Stage)
    requires Converts(s, t) && s.name != "" && ValidStage(s)
    ensures t.name != "" && P.ValidStage(t)
  {
  }

  lemma GateStaysValid(g: ComposedGate, h: P.Gate, names: set<string>)
    requires ConvertsGate(g, h) && ValidGate(g, names)
    ensures P.ValidGate(h, names)
  {
  }

  /** Every manifest the composed check accepts yields a pipeline the pipeline check accepts. */
  lemma ConversionKeepsValidity(m: Manifest, p: P.Pipeline)
    requires m.IsComposed() && ValidManifest(m) && ConvertsTo(m, p)
    ensures P.ValidPipeline(p)
  {
    hide HasCycle, GraphOf, P.StageGraph, P.ValidStage, P.ValidGate, P.Names;
    ConversionPreserves(m, p);
    P.StageNodes(p.stages);
    forall t | t in p.stages ensures t.name != "" && P.ValidStage(t) {
      var i :| 0 <= i < |p.stages| && p.stages[i] == t;
      StageStaysValid(m.stages[i], t);
    }
    forall t, d | t in p.stages && d in t.dependsOn ensures d in P.Names(p.stages) {
      var i :| 0 <= i < |p.stages| && p.stages[i] == t;
      assert Nodes(m.stages)[i] in Nodes(m.stages);
    }
    forall h | h in p.gates ensures P.ValidGate(h, P.Names(p.stages)) {
      var i :| 0 <= i < |p.gates| && p.gates[i] == h;
      assert ConvertsGate(m.gates[i], p.gates[i]) && m.gates[i] in m.gates;
      GateStaysValid(m.gates[i], h, P.Names(p.stages));
    }
  }
}
