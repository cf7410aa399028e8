/** The `depends_on` graph shared by pipelines and composed agents: an edge leads from a
    stage to each stage it depends on. The first half is what a path, a cycle and a level
    mean; the second half is the three-colour depth-first search that looks for a cycle. */
module DependencyGraph {
  import opened Wrappers

  type Graph = map<string, seq<string>>

  datatype Node = Node(name: string, deps: seq<string>)

  /** A list of stages of any kind as nodes. */
  function NodesBy<T>(stages: seq<T>, node: T -> Node): (nodes: seq<Node>)
    ensures |nodes| == |stages| && forall i :: 0 <= i < |stages| ==> nodes[i] == node(stages[i])
  {
    seq(|stages|, i requires 0 <= i < |stages| => node(stages[i]))
  }

  /** The adjacency map built from a stage list: a later stage of the same name wins. */
  function GraphOf(nodes: seq<Node>): Graph {
    if nodes == [] then map[]
    else GraphOf(nodes[..|nodes| - 1])[nodes[|nodes| - 1].name := nodes[|nodes| - 1].deps]
  }

  function Deps(g: Graph, n: string): seq<string> {
    if n in g then g[n] else []
  }

  predicate Edge(g: Graph, a: string, b: string) {
    a in g && b in g[a]
  }

  ghost predicate IsPath(g: Graph, p: seq<string>) {
    |p| > 0 && (|p| > 1 ==> Edge(g, p[0], p[1]) && IsPath(g, p[1..]))
  }

  ghost predicate IsPathFromTo(g: Graph, p: seq<string>, a: string, b: string) {
    IsPath(g, p) && p[0] == a && p[|p| - 1] == b
  }

  ghost predicate IsCycle(g: Graph, p: seq<string>) {
    |p| >= 2 && IsPath(g, p) && p[0] == p[|p| - 1]
  }

  ghost predicate HasCycle(g: Graph) {
    exists p :: IsCycle(g, p)
  }

  ghost predicate ReachesCycle(g: Graph, n: string) {
    exists p, c :: IsCycle(g, c) && IsPathFromTo(g, p, n, c[0])
  }

  ghost predicate ReachesUnknown(g: Graph, n: string) {
    exists p, u :: IsPathFromTo(g, p, n, u) && u !in g
  }

  /** `rank` numbers some stages so that every edge from one of them goes down to another. */
  ghost predicate Descends(g: Graph, rank: map<string, nat>) {
    forall a, b {:trigger Edge(g, a, b)} :: a in rank && Edge(g, a, b) ==> b in rank && rank[b] < rank[a]
  }

  ghost function NodeNames(nodes: seq<Node>): set<string> {
    set n | n in nodes :: n.name
  }

  ghost predicate UniqueNodes(nodes: seq<Node>) {
    nodes == [] || (UniqueNodes(nodes[..|nodes| - 1]) && nodes[|nodes| - 1].name !in NodeNames(nodes[..|nodes| - 1]))
  }

  ghost predicate KnownNodes(nodes: seq<Node>) {
    forall n, d :: n in nodes && d in n.deps ==> d in NodeNames(nodes)
  }

  /** One more node: what the names and their uniqueness become. */
  lemma NodePrefixStep(nodes: seq<Node>, i: nat)
    requires i < |nodes|
    ensures nodes[..i + 1][..i] == nodes[..i] && nodes[..i + 1] == nodes[..i] + [nodes[i]]
    ensures NodeNames(nodes[..i + 1]) == NodeNames(nodes[..i]) + {nodes[i].name}
    ensures UniqueNodes(nodes[..i + 1]) <==> UniqueNodes(nodes[..i]) && nodes[i].name !in NodeNames(nodes[..i])
  {
    var next := nodes[..i + 1];
    assert next == nodes[..i] + [nodes[i]];
    assert next[..i] == nodes[..i] && next[i] == nodes[i];
  }

  lemma {:induction false} NodePrefixUnique(nodes: seq<Node>, i: nat)
    requires i <= |nodes| && UniqueNodes(nodes)
    ensures UniqueNodes(nodes[..i])
    decreases |nodes| - i
  {
    if i < |nodes| {
      NodePrefixUnique(nodes, i + 1);
      NodePrefixStep(nodes, i);
    } else {
      assert nodes[..i] == nodes;
    }
  }

  lemma SelfEdgeIsCycle(g: Graph, n: string)
    requires Edge(g, n, n)
    ensures HasCycle(g)
  {
    assert IsPath(g, [n]);
    PathPrepend(g, n, [n]);
    assert IsCycle(g, [n] + [n]);
  }

  lemma {:induction false} UniqueGraph(nodes: seq<Node>)
    ensures GraphOf(nodes).Keys == NodeNames(nodes)
    ensures UniqueNodes(nodes) ==> forall n :: n in nodes ==> GraphOf(nodes)[n.name] == n.deps
  {
    if nodes != [] {
      var i := |nodes| - 1;
      NodePrefixStep(nodes, i);
      assert nodes[..i + 1] == nodes;
      UniqueGraph(nodes[..i]);
    }
  }

  /** A numbering in which every edge goes down leaves no room for a cycle. */
  lemma {:induction false} RankDescends(g: Graph, rank: map<string, nat>, p: seq<string>)
    requires IsPath(g, p) && g.Keys <= rank.Keys
    requires Descends(g, rank)
    requires p[0] in rank
    ensures p[|p| - 1] in rank
    ensures |p| > 1 ==> rank[p[|p| - 1]] < rank[p[0]]
  {
    if |p| > 1 {
      assert Edge(g, p[0], p[1]);
      RankDescends(g, rank, p[1..]);
    }
  }

  lemma RankedIsAcyclic(g: Graph, rank: map<string, nat>)
    requires g.Keys <= rank.Keys
    requires Descends(g, rank)
    ensures !HasCycle(g)
  {
    if p :| IsCycle(g, p) {
      assert Edge(g, p[0], p[1]);
      RankDescends(g, rank, p);
    }
  }

  // ----- Levels: what a stage list's tiers mean -----

  /** The stages whose dependencies are all known and settled within k rounds. */
  ghost function Level(g: Graph, k: nat): set<string> {
    if k == 0 then {}
    else set n | n in g && forall d :: d in g[n] ==> d in Level(g, k - 1)
  }

  lemma {:induction false} LevelGrows(g: Graph, j: nat, k: nat)
    requires j <= k
    ensures Level(g, j) <= Level(g, k)
  {
    if j > 0 {
      LevelGrows(g, j - 1, k - 1);
    }
  }

  lemma {:induction false} LevelFixed(g: Graph, k: nat, m: nat)
    requires k <= m && Level(g, k) == Level(g, k + 1)
    ensures Level(g, m) == Level(g, k)
  {
    if k < m {
      LevelFixed(g, k, m - 1);
      assert forall n :: n in Level(g, m) <==> n in Level(g, k + 1);
    }
  }

  lemma PathPrepend(g: Graph, n: string, p: seq<string>)
    requires IsPath(g, p) && Edge(g, n, p[0])
    ensures IsPath(g, [n] + p)
  {
    assert ([n] + p)[1..] == p;
  }

  lemma {:induction false} PathAppend(g: Graph, p: seq<string>, n: string)
    requires IsPath(g, p) && Edge(g, p[|p| - 1], n)
    ensures IsPath(g, p + [n])
  {
    assert (p + [n])[1..] == p[1..] + [n];
    if |p| > 1 {
      PathAppend(g, p[1..], n);
    } else {
      assert p[1..] + [n] == [n];
    }
  }

  lemma {:induction false} PathSlice(g: Graph, p: seq<string>, i: nat, j: nat)
    requires IsPath(g, p) && i < j <= |p|
    ensures IsPath(g, p[i..j])
    decreases |p|
  {
    if i > 0 {
      assert p[i..j] == p[1..][i - 1..j - 1];
      PathSlice(g, p[1..], i - 1, j - 1);
    } else if j > 1 {
      assert p[0..j][1..] == p[1..][0..j - 1];
      PathSlice(g, p[1..], 0, j - 1);
    }
  }

  lemma PathInit(g: Graph, p: seq<string>, n: string)
    requires IsPath(g, p + [n])
    ensures p == [] || IsPath(g, p)
  {
    if p != [] {
      PathSlice(g, p + [n], 0, |p|);
      assert (p + [n])[0..|p|] == p;
    }
  }

  /** Every stage on a chain but its last has dependencies, so it is a listed stage. */
  lemma {:induction false} PathKnown(g: Graph, p: seq<string>)
    requires IsPath(g, p)
    ensures forall t :: 0 <= t < |p| - 1 ==> p[t] in g
  {
    if |p| > 1 {
      PathKnown(g, p[1..]);
      assert forall t :: 1 <= t < |p| - 1 ==> p[t] == p[1..][t - 1];
    }
  }

  /** A settled stage has only known stages on every chain below it, and no chain longer than k. */
  lemma {:induction false} SettledChains(g: Graph, k: nat, n: string, p: seq<string>)
    requires n in Level(g, k) && IsPath(g, p) && p[0] == n
    ensures |p| <= k && p[|p| - 1] in g
  {
    if |p| > 1 {
      SettledChains(g, k - 1, p[1], p[1..]);
    }
  }

  /** A stage not settled within k rounds shows why: a chain longer than k, or one to an unknown stage. */
  lemma {:induction false} UnsettledChain(g: Graph, k: nat, n: string) returns (p: seq<string>)
    requires n !in Level(g, k)
    ensures IsPath(g, p) && p[0] == n
    ensures |p| > k || p[|p| - 1] !in g
  {
    if k == 0 || n !in g {
      p := [n];
    } else {
      var d :| d in g[n] && d !in Level(g, k - 1);
      var rest := UnsettledChain(g, k - 1, d);
      PathPrepend(g, n, rest);
      p := [n] + rest;
    }
  }

  /** No stage on the way to a cycle is ever settled. */
  lemma {:induction false} NeverSettledOnCycle(g: Graph, k: nat, n: string, p: seq<string>, c: seq<string>)
    requires IsCycle(g, c) && IsPathFromTo(g, p, n, c[0])
    ensures n !in Level(g, k)
    decreases k
  {
    if k > 0 && n in Level(g, k) {
      if |p| > 1 {
        NeverSettledOnCycle(g, k - 1, p[1], p[1..], c);
      } else {
        NeverSettledOnCycle(g, k - 1, c[1], c[1..], c);
      }
    }
  }

  /** More positions than names: some name repeats. */
  lemma {:induction false} Pigeonhole(p: seq<string>, names: set<string>) returns (i: nat, j: nat)
    requires forall t :: 0 <= t < |p| ==> p[t] in names
    requires |p| > |names|
    ensures i < j < |p| && p[i] == p[j]
  {
    var last := p[|p| - 1];
    if t :| 0 <= t < |p| - 1 && p[t] == last {
      i, j := t, |p| - 1;
    } else {
      i, j := Pigeonhole(p[..|p| - 1], names - {last});
    }
  }

  /** The two reasons a stage is left out, and there is no third: it reaches a cycle or an unknown stage. */
  lemma NeverSettledIff(g: Graph, n: string)
    ensures (forall k: nat :: n !in Level(g, k)) <==> ReachesCycle(g, n) || ReachesUnknown(g, n)
  {
    if ReachesCycle(g, n) {
      var p, c :| IsCycle(g, c) && IsPathFromTo(g, p, n, c[0]);
      forall k: nat ensures n !in Level(g, k) {
        NeverSettledOnCycle(g, k, n, p, c);
      }
    } else if ReachesUnknown(g, n) {
      var p, u :| IsPathFromTo(g, p, n, u) && u !in g;
      forall k: nat ensures n !in Level(g, k) {
        if n in Level(g, k) {
          SettledChains(g, k, n, p);
        }
      }
    } else {
      if n !in Level(g, |g|) {
        var p := UnsettledChain(g, |g|, n);
        LongChainCloses(g, n, p);
        assert IsPathFromTo(g, p, n, p[|p| - 1]);
        assert false;
      }
      var k: nat := |g|;
      assert n in Level(g, k);
    }
  }

  lemma LongChainCloses(g: Graph, n: string, p: seq<string>)
    requires IsPath(g, p) && p[0] == n
    requires |p| > |g| || p[|p| - 1] !in g
    ensures ReachesCycle(g, n) || p[|p| - 1] !in g
  {
    if p[|p| - 1] in g {
      assert |g.Keys| == |g|;
      PathKnown(g, p);
      var i, j := Pigeonhole(p, g.Keys);
      PathSlice(g, p, i, j + 1);
      PathSlice(g, p, 0, i + 1);
      assert IsCycle(g, p[i..j + 1]);
      assert IsPathFromTo(g, p[0..i + 1], n, p[i..j + 1][0]);
    }
  }

  /** The stages settled exactly in round k + 1 are those whose longest dependency chain has
      length k (k edges): there is such a chain, none is longer, and none leaves the list. */
  lemma TierIsLongestChain(g: Graph, k: nat, n: string)
    ensures n in Level(g, k + 1) - Level(g, k) <==>
              && (exists p :: IsPath(g, p) && p[0] == n && |p| == k + 1)
              && (forall p :: IsPath(g, p) && p[0] == n ==> |p| <= k + 1 && p[|p| - 1] in g)
  {
    if n in Level(g, k + 1) - Level(g, k) {
      forall p | IsPath(g, p) && p[0] == n ensures |p| <= k + 1 && p[|p| - 1] in g {
        SettledChains(g, k + 1, n, p);
      }
      var p := UnsettledChain(g, k, n);
      assert |p| == k + 1;
    }
    if forall p :: IsPath(g, p) && p[0] == n ==> |p| <= k + 1 && p[|p| - 1] in g {
      if n !in Level(g, k + 1) {
        var p := UnsettledChain(g, k + 1, n);
      }
      if q :| IsPath(g, q) && q[0] == n && |q| == k + 1 && n in Level(g, k) {
        SettledChains(g, k, n, q);
      }
    }
  }

  /** Without cycles and with every dependency known, every stage is settled within |g| rounds. */
  lemma AcyclicSettles(g: Graph, n: string)
    requires n in g && !HasCycle(g)
    requires forall a, b :: Edge(g, a, b) ==> b in g
    ensures n in Level(g, |g|)
  {
    if n !in Level(g, |g|) {
      var p := UnsettledChain(g, |g|, n);
      if |p| > 1 {
        PathSlice(g, p, |p| - 2, |p|);
        assert Edge(g, p[|p| - 2], p[|p| - 1]);
      }
      LongChainCloses(g, n, p);
    }
  }

  // ----- The three-colour search -----

  datatype Color = White | Gray | Black

  class CycleSearch {
    const adj: Graph
    var color: map<string, Color>
    // Finishing number of every black stage: the certificate that none of them is on a cycle.
    ghost var rank: map<string, nat>
    ghost var clock: nat

    constructor (adj: Graph)
      ensures this.adj == adj && Valid([])
    {
      this.adj := adj;
      color := map[];
      rank, clock := map[], 0;
    }

    ghost predicate Valid(stack: seq<string>)
      reads this
    {
      SearchState(adj, color, rank, clock, stack)
    }

    /** Visits one white stage. An error names an edge that closes a cycle; otherwise the stage and
        everything it depends on is black. */
    method Visit(name: string, ghost stack: seq<string>) returns (err: Option<(string, string)>)
      requires Valid(stack) && ColorOf(color, name) == White && name in Universe(adj)
      requires stack == [] || Edge(adj, stack[|stack| - 1], name)
      modifies this
      ensures old(color.Keys) <= color.Keys
      ensures err.None? ==> Valid(stack) && name in rank && old(rank.Keys) <= rank.Keys
      ensures err.Some? ==> OnCycle(adj, err.value.0, err.value.1)
      decreases Universe(adj) - color.Keys
    {
      hide SearchState, OnCycle, Elems, Descends, IsPath;
      EnterGray(adj, color, rank, clock, stack, name);
      WhiteIsNew(adj, color, rank, clock, stack, name);
      color := color[name := Gray];
      ghost var path := stack + [name];
      var deps := Deps(adj, name);
      for i := 0 to |deps|
        invariant old(color.Keys) + {name} <= color.Keys
        invariant Valid(path) && old(rank.Keys) <= rank.Keys
        invariant forall d :: d in deps[..i] ==> d in rank
      {
        var dep := deps[i];
        assert deps[..i + 1] == deps[..i] + [dep];
        assert Edge(adj, name, dep);
        ColorMeans(adj, color, rank, clock, path, dep);
        if ColorOf(color, dep) == Gray {
          return Some((name, dep));
        } else if ColorOf(color, dep) == White {
          err := Visit(dep, path);
          if err.Some? {
            return;
          }
        }
      }
      assert deps[..|deps|] == deps;
      LeaveBlack(adj, color, rank, clock, stack, name);
      color := color[name := Black];
      rank, clock := rank[name := clock], clock + 1;
      err := None;
    }
  }

  /** A map entry that was never written reads as white. */
  function ColorOf(color: map<string, Color>, n: string): Color {
    if n in color then color[n] else White
  }

  ghost function Universe(g: Graph): set<string> {
    g.Keys + set a, d | a in g && d in g[a] :: d
  }

  /** What holds between two steps of the search. `stack` is the chain of gray stages from the root
      to the current one; `rank` numbers the black stages so that every edge from one goes down. */
  ghost predicate SearchState(
    g: Graph, color: map<string, Color>, rank: map<string, nat>, clock: nat, stack: seq<string>)
  {
    && (stack == [] || IsPath(g, stack))
    && color.Keys == rank.Keys + Elems(stack) && rank.Keys !! Elems(stack)
    && (forall n :: n in color ==> color[n] == if n in rank then Black else Gray)
    && (forall n :: n in rank ==> rank[n] < clock)
    && Descends(g, rank)
  }

  ghost function Elems(s: seq<string>): set<string> {
    set n | n in s
  }

  lemma EnterGray(
    g: Graph, color: map<string, Color>, rank: map<string, nat>, clock: nat, stack: seq<string>, n: string)
    requires SearchState(g, color, rank, clock, stack) && ColorOf(color, n) == White
    requires stack == [] || Edge(g, stack[|stack| - 1], n)
    ensures SearchState(g, color[n := Gray], rank, clock, stack + [n])
  {
    if stack != [] {
      PathAppend(g, stack, n);
    }
    assert Elems(stack + [n]) == Elems(stack) + {n};
  }

  lemma DescendsExtends(g: Graph, rank: map<string, nat>, n: string, clock: nat)
    requires Descends(g, rank) && n !in rank
    requires forall d :: d in Deps(g, n) ==> d in rank
    requires forall m :: m in rank ==> rank[m] < clock
    ensures Descends(g, rank[n := clock])
  {
  }

  lemma LeaveBlack(
    g: Graph, color: map<string, Color>, rank: map<string, nat>, clock: nat, stack: seq<string>, n: string)
    requires SearchState(g, color, rank, clock, stack + [n]) && n !in stack
    requires forall d :: d in Deps(g, n) ==> d in rank
    ensures SearchState(g, color[n := Black], rank[n := clock], clock + 1, stack)
  {
    PathInit(g, stack, n);
    assert Elems(stack + [n]) == Elems(stack) + {n};
    assert n !in rank && n !in Elems(stack);
    DescendsExtends(g, rank, n, clock);
  }

  /** The edge from `a` to `b` lies on a cycle. */
  ghost predicate OnCycle(g: Graph, a: string, b: string) {
    Edge(g, a, b) && exists p :: IsPathFromTo(g, p, b, a)
  }

  /** A dependency that is gray closes a cycle, and one that is black has its number. */
  lemma ColorMeans(
    g: Graph, color: map<string, Color>, rank: map<string, nat>, clock: nat, path: seq<string>, dep: string)
    requires SearchState(g, color, rank, clock, path) && path != [] && Edge(g, path[|path| - 1], dep)
    ensures ColorOf(color, dep) == Gray ==> OnCycle(g, path[|path| - 1], dep)
    ensures ColorOf(color, dep) == Black ==> dep in rank
  {
    hide OnCycle, Descends;
    if ColorOf(color, dep) == Gray {
      GrayClosesCycle(g, path, dep);
    }
  }

  lemma WhiteIsNew(
    g: Graph, color: map<string, Color>, rank: map<string, nat>, clock: nat, stack: seq<string>, n: string)
    requires SearchState(g, color, rank, clock, stack)
    ensures ColorOf(color, n) == White ==> n !in color && n !in stack
    ensures ColorOf(color, n) != White && stack == [] ==> n in rank
  {
    hide IsPath, Descends;
    assert n in Elems(stack) <==> n in stack;
  }

  /** When the search is over and every stage has its number, there is no cycle. */
  lemma SearchedAll(g: Graph, color: map<string, Color>, rank: map<string, nat>, clock: nat)
    requires SearchState(g, color, rank, clock, []) && g.Keys <= rank.Keys
    ensures !HasCycle(g)
  {
    hide HasCycle;
    RankedIsAcyclic(g, rank);
  }

  lemma GrayClosesCycle(g: Graph, path: seq<string>, dep: string)
    requires IsPath(g, path) && dep in Elems(path) && Edge(g, path[|path| - 1], dep)
    ensures OnCycle(g, path[|path| - 1], dep)
  {
    var i :| 0 <= i < |path| && path[i] == dep;
    PathSlice(g, path, i, |path|);
    assert IsPathFromTo(g, path[i..|path|], dep, path[|path| - 1]);
  }

  lemma OnCycleIsCycle(g: Graph, a: string, b: string)
    requires OnCycle(g, a, b)
    ensures HasCycle(g)
  {
    var p :| IsPathFromTo(g, p, b, a);
    PathPrepend(g, a, p);
    assert IsCycle(g, [a] + p);
  }

  /** Searches the whole list. It returns an error exactly when the dependency graph has a cycle,
      for every list: names may repeat and dependencies may be unknown. */
  method DetectCycle(nodes: seq<Node>) returns (err: Option<(string, string)>)
    ensures err.None? <==> !HasCycle(GraphOf(nodes))
    ensures err.Some? ==> OnCycle(GraphOf(nodes), err.value.0, err.value.1)
  {
    hide SearchState, OnCycle, HasCycle;
    var adj: Graph := map[];
    for i := 0 to |nodes|
      invariant adj == GraphOf(nodes[..i])
    {
      assert nodes[..i + 1][..i] == nodes[..i];
      adj := adj[nodes[i].name := nodes[i].deps];
    }
    assert nodes[..|nodes|] == nodes;
    UniqueGraph(nodes);
    var search := new CycleSearch(adj);
    assert nodes[..|nodes|] == nodes;
    for i := 0 to |nodes|
      invariant search.Valid([])
      invariant forall j :: 0 <= j < i ==> nodes[j].name in search.rank
    {
      WhiteIsNew(adj, search.color, search.rank, search.clock, [], nodes[i].name);
      if ColorOf(search.color, nodes[i].name) == White {
        err := search.Visit(nodes[i].name, []);
        if err.Some? {
          OnCycleIsCycle(adj, err.value.0, err.value.1);
          return;
        }
      }
    }
    SearchedAll(adj, search.color, search.rank, search.clock);
    err := None;
  }
}
