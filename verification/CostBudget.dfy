/** The cost budget shared by the agents of a run (pipeline/runner.go, runAgent and its helpers).
    The check of the budget and the reading of the cap are two steps of the source, so other agents
    may finish in between. */
module CostBudget {
  import opened Wrappers

  /** What is left of the budget; 0 also stands for "unlimited". */
  function Remaining(maxCost: real, spent: real): real {
    if maxCost <= 0.0 then 0.0
    else if maxCost - spent < 0.0 then 0.0
    else maxCost - spent
  }

  /** The cap injected for an agent, if any: the smaller of what is left and the stage's own cap. */
  function EffectiveCap(maxCost: real, spent: real, stageCap: real): Option<real> {
    var left := if maxCost > 0.0 || stageCap > 0.0 then Remaining(maxCost, spent) else 0.0;
    var cap := if stageCap > 0.0 && (left <= 0.0 || stageCap < left) then stageCap else left;
    if cap > 0.0 then Some(cap) else None
  }

  /** The cap stays within what is left exactly when something is left at the moment it is read:
      on an exhausted budget the agent gets the stage's own cap, or none at all. */
  lemma CapWithinBudgetIff(maxCost: real, spent: real, stageCap: real)
    requires maxCost > 0.0
    ensures (&& EffectiveCap(maxCost, spent, stageCap).Some?
             && EffectiveCap(maxCost, spent, stageCap).value <= maxCost - spent)
            <==> spent < maxCost
    ensures EffectiveCap(maxCost, spent, stageCap).None? <==> spent >= maxCost && stageCap <= 0.0
  {
  }

  /** Without a budget of the pipeline the cap is the stage's own, and no cap exceeds the stage's own. */
  lemma StageCapRules(maxCost: real, spent: real, stageCap: real)
    ensures maxCost <= 0.0 ==>
              EffectiveCap(maxCost, spent, stageCap) == if stageCap > 0.0 then Some(stageCap) else None
    ensures stageCap > 0.0 ==>
              EffectiveCap(maxCost, spent, stageCap).Some? && EffectiveCap(maxCost, spent, stageCap).value <= stageCap
    ensures maxCost > spent && stageCap <= 0.0 && maxCost > 0.0 ==>
              EffectiveCap(maxCost, spent, stageCap) == Some(maxCost - spent)
    ensures maxCost > spent && stageCap > 0.0 && maxCost > 0.0 ==>
              EffectiveCap(maxCost, spent, stageCap) ==
                Some(if stageCap < maxCost - spent then stageCap else maxCost - spent)
    ensures EffectiveCap(maxCost, spent, stageCap).Some? ==> EffectiveCap(maxCost, spent, stageCap).value > 0.0
  {
  }

  class Ledger {
    const maxCost: real
    var spent: real

    constructor (maxCost: real)
      ensures this.maxCost == maxCost && spent == 0.0
    {
      this.maxCost := maxCost;
      spent := 0.0;
    }

    function RemainingBudget(): real
      reads this
    {
      Remaining(maxCost, spent)
    }

    method AddSpent(cost: real) returns (total: real)
      modifies this
      ensures spent == total == old(spent) + cost
    {
      spent := spent + cost;
      total := spent;
    }

    /** One agent with nothing else in flight. `wanted` is what it would like to spend; it honours
        the cap it was given. `metered` tells whether it reported a cost. */
    method RunAgent(stageCap: real, wanted: real, metered: bool) returns (refused: bool, cap: Option<real>)
      requires 0.0 <= wanted
      modifies this
      ensures refused <==> maxCost > 0.0 && old(spent) >= maxCost
      ensures !refused ==> cap == EffectiveCap(maxCost, old(spent), stageCap)
      ensures spent == if refused || !metered then old(spent)
                       else if cap.Some? && cap.value < wanted then old(spent) + cap.value
                       else old(spent) + wanted
      ensures maxCost > 0.0 && old(spent) <= maxCost ==> spent <= maxCost
    {
      refused, cap := false, None;
      if maxCost > 0.0 && RemainingBudget() <= 0.0 {
        refused := true;
        return;
      }
      cap := EffectiveCap(maxCost, spent, stageCap);
      if metered {
        var _ := AddSpent(Honoured(wanted, cap));
      }
    }
  }

  function Honoured(wanted: real, cap: Option<real>): real {
    if cap.Some? && cap.value < wanted then cap.value else wanted
  }

  // ----- Concurrent agents -----

  datatype Phase = Idle | Refused | Checked | Launched(cap: Option<real>) | Done

  datatype State = State(spent: real, agents: seq<Phase>)

  datatype Step = Check(agent: nat) | ReadCap(agent: nat) | Finish(agent: nat, cost: real)

  datatype Config = Config(maxCost: real, stageCaps: seq<real>)

  function Init(c: Config): State {
    State(0.0, seq(|c.stageCaps|, _ => Idle))
  }

  /** An agent that was given a cap spends at most that; an agent that reported no cost spends 0. */
  predicate Enabled(c: Config, s: State, step: Step) {
    && step.agent < |s.agents| == |c.stageCaps|
    && match step
       case Check(i) => s.agents[i].Idle?
       case ReadCap(i) => s.agents[i].Checked?
       case Finish(i, cost) =>
         s.agents[i].Launched? && 0.0 <= cost && (s.agents[i].cap.Some? ==> cost <= s.agents[i].cap.value)
  }

  function Apply(c: Config, s: State, step: Step): State
    requires Enabled(c, s, step)
  {
    match step
    case Check(i) =>
      s.(agents := s.agents[i := if c.maxCost > 0.0 && Remaining(c.maxCost, s.spent) <= 0.0 then Refused else Checked])
    case ReadCap(i) =>
      s.(agents := s.agents[i := Launched(EffectiveCap(c.maxCost, s.spent, c.stageCaps[i]))])
    case Finish(i, cost) =>
      State(s.spent + cost, s.agents[i := Done])
  }

  ghost predicate IsRun(c: Config, steps: seq<Step>)
    decreases |steps|, 0
  {
    steps == [] || (IsRun(c, steps[..|steps| - 1]) && Enabled(c, After(c, steps[..|steps| - 1]), steps[|steps| - 1]))
  }

  ghost function After(c: Config, steps: seq<Step>): State
    requires IsRun(c, steps)
    decreases |steps|, 1
  {
    if steps == [] then Init(c) else Apply(c, After(c, steps[..|steps| - 1]), steps[|steps| - 1])
  }

  predicate InFlight(p: Phase) {
    p.Checked? || p.Launched?
  }

  function Flights(agents: seq<Phase>): nat {
    if agents == [] then 0 else Flights(agents[..|agents| - 1]) + if InFlight(agents[|agents| - 1]) then 1 else 0
  }

  function CapOf(p: Phase): real {
    if p.Launched? && p.cap.Some? then p.cap.value else 0.0
  }

  /** The sum of the caps of the agents in flight: what they may still spend. */
  function Outstanding(agents: seq<Phase>): real {
    if agents == [] then 0.0 else Outstanding(agents[..|agents| - 1]) + CapOf(agents[|agents| - 1])
  }

  /** At most k agents are in flight at every moment of the run. */
  ghost predicate AtMostInFlight(c: Config, steps: seq<Step>, k: nat)
    requires IsRun(c, steps)
  {
    Flights(After(c, steps).agents) <= k && (steps == [] || AtMostInFlight(c, steps[..|steps| - 1], k))
  }

  /** Whenever a cap is read, something is left of the budget. */
  ghost predicate FreshCaps(c: Config, steps: seq<Step>)
    requires IsRun(c, steps)
  {
    steps == [] ||
    (FreshCaps(c, steps[..|steps| - 1]) &&
      (steps[|steps| - 1].ReadCap? ==> After(c, steps[..|steps| - 1]).spent < c.maxCost))
  }

  /** Every cap is read directly after the same agent's check: the two are one step. */
  ghost predicate Atomic(steps: seq<Step>) {
    forall i :: 0 <= i < |steps| && steps[i].ReadCap? ==> i > 0 && steps[i - 1] == Check(steps[i].agent)
  }

  /** An agent is refused exactly if there is a budget and it is used up when the agent checks it. */
  lemma RefusedIff(c: Config, s: State, i: nat)
    requires Enabled(c, s, Check(i))
    ensures Apply(c, s, Check(i)).agents[i] == Refused <==> c.maxCost > 0.0 && s.spent >= c.maxCost
  {
  }

  /** Without a budget no agent is ever refused. */
  lemma {:induction false} NoBudgetRefusesNone(c: Config, steps: seq<Step>)
    requires c.maxCost <= 0.0 && IsRun(c, steps)
    ensures Refused !in After(c, steps).agents
  {
    if steps != [] {
      var s, step := After(c, steps[..|steps| - 1]), steps[|steps| - 1];
      NoBudgetRefusesNone(c, steps[..|steps| - 1]);
      var t := Apply(c, s, step);
      forall j | 0 <= j < |t.agents| ensures t.agents[j] != Refused {
        assert j != step.agent ==> t.agents[j] == s.agents[j] && s.agents[j] in s.agents;
      }
    }
  }

  lemma {:induction false} UpdateSums(agents: seq<Phase>, i: nat, p: Phase)
    requires i < |agents|
    ensures Flights(agents[i := p]) ==
              Flights(agents) - (if InFlight(agents[i]) then 1 else 0) + if InFlight(p) then 1 else 0
    ensures Outstanding(agents[i := p]) == Outstanding(agents) - CapOf(agents[i]) + CapOf(p)
  {
    var last := |agents| - 1;
    if i < last {
      assert agents[i := p][..last] == agents[..last][i := p];
      UpdateSums(agents[..last], i, p);
    } else {
      assert agents[i := p][..last] == agents[..last];
    }
  }

  lemma {:induction false} OutstandingBound(agents: seq<Phase>, maxCost: real)
    requires maxCost > 0.0
    requires forall p :: p in agents ==> CapOf(p) <= maxCost
    ensures Outstanding(agents) <= Budgets(Flights(agents), maxCost)
  {
    if agents != [] {
      var front := agents[..|agents| - 1];
      OutstandingBound(front, maxCost);
      assert agents[|agents| - 1] in agents;
    }
  }

  ghost predicate Inv(c: Config, s: State, k: nat) {
    && |s.agents| == |c.stageCaps| && s.spent >= 0.0
    && (forall p :: p in s.agents ==> CapOf(p) <= c.maxCost)
    && (forall p :: p in s.agents && p.Launched? ==> p.cap.Some?)
    && s.spent + Outstanding(s.agents) <= Budgets(k, c.maxCost)
  }

  /** A cap read from a budget with something left keeps the bound: the other agents in flight hold
      at most k - 1 full budgets. */
  lemma ReadCapKeeps(c: Config, s: State, i: nat, k: nat)
    requires c.maxCost > 0.0 && Inv(c, s, k) && Enabled(c, s, ReadCap(i)) && Flights(s.agents) <= k
    requires s.spent < c.maxCost
    ensures Inv(c, Apply(c, s, ReadCap(i)), k)
  {
    var cap := EffectiveCap(c.maxCost, s.spent, c.stageCaps[i]);
    CapWithinBudgetIff(c.maxCost, s.spent, c.stageCaps[i]);
    UpdateSums(s.agents, i, Launched(cap));
    UpdateSums(s.agents, i, Idle);
    var others := s.agents[i := Idle];
    OutstandingBound(others, c.maxCost);
    BudgetsGrow(Flights(others), k, c.maxCost);
    var t := Apply(c, s, ReadCap(i));
    assert Outstanding(t.agents) == Outstanding(others) + cap.value;
    assert s.spent + Outstanding(t.agents) <= Outstanding(others) + c.maxCost;
    forall p | p in t.agents ensures CapOf(p) <= c.maxCost && (p.Launched? ==> p.cap.Some?) {
      assert p in s.agents || p == Launched(cap);
    }
  }

  /** k budgets, added up. */
  function Budgets(k: nat, maxCost: real): real {
    if k == 0 then 0.0 else Budgets(k - 1, maxCost) + maxCost
  }

  lemma {:induction false} BudgetsGrow(j: nat, k: nat, maxCost: real)
    requires maxCost > 0.0 && j <= k
    ensures 0.0 <= Budgets(j, maxCost) <= Budgets(k, maxCost)
    ensures j < k ==> Budgets(j, maxCost) + maxCost <= Budgets(k, maxCost)
  {
    if k > 0 {
      BudgetsGrow(if j < k then j else j - 1, k - 1, maxCost);
    }
  }

  lemma {:induction false} BudgetsIsProduct(k: nat, maxCost: real)
    ensures Budgets(k, maxCost) == k as real * maxCost
  {
    if k > 0 {
      BudgetsIsProduct(k - 1, maxCost);
      assert (k - 1) as real * maxCost + maxCost == k as real * maxCost;
    }
  }

  lemma StepKeeps(c: Config, s: State, step: Step, k: nat)
    requires c.maxCost > 0.0 && Inv(c, s, k) && Enabled(c, s, step) && Flights(s.agents) <= k
    requires step.ReadCap? ==> s.spent < c.maxCost
    ensures Inv(c, Apply(c, s, step), k)
  {
    match step {
      case Check(i) =>
        UpdateSums(s.agents, i, Checked);
        UpdateSums(s.agents, i, Refused);
      case ReadCap(i) => ReadCapKeeps(c, s, i, k);
      case Finish(i, cost) =>
        assert s.agents[i] in s.agents;
        UpdateSums(s.agents, i, Done);
    }
  }

  lemma {:induction false} IdleSums(agents: seq<Phase>)
    requires forall i :: 0 <= i < |agents| ==> agents[i] == Idle
    ensures Flights(agents) == 0 && Outstanding(agents) == 0.0
  {
    if agents != [] {
      IdleSums(agents[..|agents| - 1]);
    }
  }

  lemma InitInv(c: Config, k: nat)
    requires c.maxCost > 0.0
    ensures Inv(c, Init(c), k)
  {
    IdleSums(Init(c).agents);
    BudgetsGrow(0, k, c.maxCost);
  }

  /** With k agents in flight and every cap read while something is left, what is spent and what may
      still be spent never exceed k budgets together. */
  lemma {:induction false} SpendingBound(c: Config, steps: seq<Step>, k: nat)
    requires c.maxCost > 0.0 && IsRun(c, steps) && AtMostInFlight(c, steps, k) && FreshCaps(c, steps)
    ensures Inv(c, After(c, steps), k)
  {
    if steps == [] {
      InitInv(c, k);
    } else {
      SpendingBound(c, steps[..|steps| - 1], k);
      StepKeeps(c, After(c, steps[..|steps| - 1]), steps[|steps| - 1], k);
    }
  }

  /** Checking and reading in one step reads only fresh caps. */
  lemma {:induction false} AtomicIsFresh(c: Config, steps: seq<Step>)
    requires c.maxCost > 0.0 && IsRun(c, steps) && Atomic(steps)
    ensures FreshCaps(c, steps)
  {
    if steps != [] {
      var front := steps[..|steps| - 1];
      assert forall i :: 0 <= i < |front| ==> front[i] == steps[i];
      AtomicIsFresh(c, front);
      if steps[|steps| - 1].ReadCap? {
        var i := steps[|steps| - 1].agent;
        assert steps[|steps| - 2] == Check(i) && front[|front| - 1] == Check(i);
        assert After(c, front) == Apply(c, After(c, front[..|front| - 1]), Check(i));
      }
    }
  }

  /** In an atomic run with at most k agents in flight, spending stays within k budgets. */
  lemma AtomicSpendingBound(c: Config, steps: seq<Step>, k: nat)
    requires c.maxCost > 0.0 && IsRun(c, steps) && AtMostInFlight(c, steps, k) && Atomic(steps)
    ensures After(c, steps).spent + Outstanding(After(c, steps).agents) <= k as real * c.maxCost
  {
    AtomicIsFresh(c, steps);
    SpendingBound(c, steps, k);
    BudgetsIsProduct(k, c.maxCost);
  }

  /** While an agent that passed the check is the only one in flight, nothing is spent. */
  lemma {:induction false} SequentialIsFresh(c: Config, steps: seq<Step>)
    requires c.maxCost > 0.0 && IsRun(c, steps) && AtMostInFlight(c, steps, 1)
    ensures FreshCaps(c, steps)
    ensures |After(c, steps).agents| == |c.stageCaps|
    ensures Checked in After(c, steps).agents ==> After(c, steps).spent < c.maxCost
  {
    if steps != [] {
      var s, step := After(c, steps[..|steps| - 1]), steps[|steps| - 1];
      SequentialIsFresh(c, steps[..|steps| - 1]);
      var t := After(c, steps);
      assert s.agents[step.agent] in s.agents;
      if step.Finish? && Checked in t.agents {
        var j :| 0 <= j < |t.agents| && t.agents[j] == Checked;
        TwoInFlight(s.agents, j, step.agent);
      }
    }
  }

  lemma TwoInFlight(agents: seq<Phase>, i: nat, j: nat)
    requires i < |agents| && j < |agents| && i != j && InFlight(agents[i]) && InFlight(agents[j])
    ensures Flights(agents) >= 2
  {
    UpdateSums(agents, i, Idle);
    UpdateSums(agents[i := Idle], j, Idle);
  }

  /** One agent at a time never spends more than the budget, whether or not check and read are one
      step. */
  lemma SequentialSpendingBound(c: Config, steps: seq<Step>)
    requires c.maxCost > 0.0 && IsRun(c, steps) && AtMostInFlight(c, steps, 1)
    ensures After(c, steps).spent + Outstanding(After(c, steps).agents) <= c.maxCost
  {
    SequentialIsFresh(c, steps);
    SpendingBound(c, steps, 1);
    assert Budgets(0, c.maxCost) == 0.0;
  }

  /** Without that condition the bound is lost: two agents pass the check on an untouched budget,
      one spends all of it, and the other is then launched without any cap. */
  lemma StaleCheckLosesTheCap(cost: real) returns (c: Config, steps: seq<Step>)
    requires cost >= 0.0
    ensures c.maxCost == 1.0 && IsRun(c, steps) && AtMostInFlight(c, steps, 2)
    ensures After(c, steps).spent == 1.0 + cost
  {
    c := Config(1.0, [0.0, 0.0]);
    assert Init(c) == State(0.0, [Idle, Idle]);
    FlightsAtMost([Idle, Idle]);
    steps := [];
    steps := Extend(c, steps, Check(0), State(0.0, [Checked, Idle]));
    steps := Extend(c, steps, Check(1), State(0.0, [Checked, Checked]));
    steps := Extend(c, steps, ReadCap(0), State(0.0, [Launched(Some(1.0)), Checked]));
    steps := Extend(c, steps, Finish(0, 1.0), State(1.0, [Done, Checked]));
    steps := Extend(c, steps, ReadCap(1), State(1.0, [Done, Launched(None)]));
    steps := Extend(c, steps, Finish(1, cost), State(1.0 + cost, [Done, Done]));
  }

  ghost function MaxCap(agents: seq<Phase>): real {
    if agents == [] then 0.0
    else
      var front, cap := MaxCap(agents[..|agents| - 1]), CapOf(agents[|agents| - 1]);
      if front < cap then cap else front
  }

  lemma {:induction false} MaxCapAt(agents: seq<Phase>, i: nat)
    requires i < |agents|
    ensures CapOf(agents[i]) <= MaxCap(agents)
  {
    if i < |agents| - 1 {
      MaxCapAt(agents[..|agents| - 1], i);
    }
  }

  /** Whatever the amount, some agent may be just about to exceed it. */
  ghost predicate Unbounded(c: Config, s: State) {
    forall bound: real :: CanExceed(c, s, bound)
  }

  ghost predicate CanExceed(c: Config, s: State, bound: real) {
    exists i: nat, cost: real :: Enabled(c, s, Finish(i, cost)) && s.spent + cost > bound
  }

  /** In every run, nothing bounds what the next agent spends exactly when one was launched without a
      cap. */
  lemma UnboundedIff(c: Config, steps: seq<Step>)
    requires IsRun(c, steps)
    ensures Unbounded(c, After(c, steps)) <==> Launched(None) in After(c, steps).agents
  {
    hide IsRun, After;
    var s := After(c, steps);
    assert |s.agents| == |c.stageCaps| by { AgentsStay(c, steps); }
    if i :| 0 <= i < |s.agents| && s.agents[i] == Launched(None) {
      forall bound ensures CanExceed(c, s, bound) {
        var cost := if bound < s.spent then 1.0 else bound - s.spent + 1.0;
        assert Enabled(c, s, Finish(i, cost));
      }
    } else {
      assert !CanExceed(c, s, s.spent + MaxCap(s.agents)) by {
        forall i: nat, cost: real | Enabled(c, s, Finish(i, cost)) ensures cost <= MaxCap(s.agents) {
          MaxCapAt(s.agents, i);
        }
      }
    }
  }

  lemma {:induction false} AgentsStay(c: Config, steps: seq<Step>)
    requires IsRun(c, steps)
    ensures |After(c, steps).agents| == |c.stageCaps|
  {
    if steps != [] {
      AgentsStay(c, steps[..|steps| - 1]);
    }
  }

  /** Every stage has a cap of its own, and none above the budget. */
  ghost predicate StagesCapped(c: Config) {
    forall i :: 0 <= i < |c.stageCaps| ==> 0.0 < c.stageCaps[i] <= c.maxCost
  }

  ghost predicate CappedInv(c: Config, s: State, k: nat) {
    && |s.agents| == |c.stageCaps|
    && (forall i :: 0 <= i < |s.agents| && s.agents[i].Launched? ==>
          s.agents[i].cap.Some? && s.agents[i].cap.value <= c.maxCost)
    && s.spent + Budgets(Flights(s.agents), c.maxCost) <= Budgets(k + 1, c.maxCost)
  }

  lemma CappedStepKeeps(c: Config, s: State, step: Step, k: nat)
    requires c.maxCost > 0.0 && StagesCapped(c) && CappedInv(c, s, k) && Enabled(c, s, step)
    requires Flights(Apply(c, s, step).agents) <= k
    ensures CappedInv(c, Apply(c, s, step), k)
  {
    hide Flights, Budgets;
    var t := Apply(c, s, step);
    var i := step.agent;
    UpdateSums(s.agents, i, t.agents[i]);
    assert t.agents == s.agents[i := t.agents[i]];
    OneBudget(k, c.maxCost);
    if Flights(t.agents) > Flights(s.agents) {
      BudgetsGrow(Flights(t.agents), k, c.maxCost);
    } else if Flights(t.agents) < Flights(s.agents) {
      OneBudget(Flights(t.agents), c.maxCost);
    }
  }

  lemma OneBudget(k: nat, maxCost: real)
    ensures Budgets(k + 1, maxCost) == Budgets(k, maxCost) + maxCost
  {
  }

  /** Where every stage has a cap within the budget, k agents in flight never take spending and
      outstanding caps over k + 1 budgets, however stale their checks are. */
  lemma {:induction false} CappedSpendingBound(c: Config, steps: seq<Step>, k: nat)
    requires c.maxCost > 0.0 && StagesCapped(c) && IsRun(c, steps) && AtMostInFlight(c, steps, k)
    ensures CappedInv(c, After(c, steps), k)
    ensures After(c, steps).spent + Outstanding(After(c, steps).agents) <= (k + 1) as real * c.maxCost
  {
    hide CappedInv, StagesCapped, Apply, Enabled;
    if steps == [] {
      CappedAtStart(c, k);
    } else {
      CappedSpendingBound(c, steps[..|steps| - 1], k);
      CappedStepKeeps(c, After(c, steps[..|steps| - 1]), steps[|steps| - 1], k);
    }
    CappedOutstanding(c, After(c, steps), k);
  }

  lemma CappedAtStart(c: Config, k: nat)
    requires c.maxCost > 0.0
    ensures CappedInv(c, Init(c), k)
  {
    IdleSums(Init(c).agents);
    BudgetsGrow(0, k + 1, c.maxCost);
  }

  lemma CappedOutstanding(c: Config, s: State, k: nat)
    requires c.maxCost > 0.0 && CappedInv(c, s, k)
    ensures s.spent + Outstanding(s.agents) <= (k + 1) as real * c.maxCost
  {
    forall p | p in s.agents ensures CapOf(p) <= c.maxCost {
      var i :| 0 <= i < |s.agents| && s.agents[i] == p;
    }
    OutstandingBound(s.agents, c.maxCost);
    BudgetsIsProduct(k + 1, c.maxCost);
  }

  lemma {:induction false} FlightsAtMost(agents: seq<Phase>)
    ensures Flights(agents) <= |agents|
  {
    if agents != [] {
      FlightsAtMost(agents[..|agents| - 1]);
    }
  }

  lemma Extend(c: Config, steps: seq<Step>, step: Step, t: State) returns (more: seq<Step>)
    requires IsRun(c, steps) && AtMostInFlight(c, steps, 2)
    requires Enabled(c, After(c, steps), step) && t == Apply(c, After(c, steps), step)
    requires |t.agents| == 2
    ensures more == steps + [step] && IsRun(c, more) && AtMostInFlight(c, more, 2) && After(c, more) == t
  {
    more := steps + [step];
    assert more[..|steps|] == steps;
    FlightsAtMost(t.agents);
  }

  // ----- Which stage caps bound the spending of every run -----

  /** What an agent may spend at most, if it is given a cap. */
  function Allowance(c: Config, i: nat): real
    requires i < |c.stageCaps|
  {
    if c.stageCaps[i] > 0.0 then c.stageCaps[i] else c.maxCost
  }

  /** The allowances of those of the first n agents that are not done. */
  function Left(c: Config, agents: seq<Phase>, n: nat): real
    requires n <= |agents| == |c.stageCaps|
  {
    if n == 0 then 0.0 else Left(c, agents, n - 1) + if agents[n - 1].Done? then 0.0 else Allowance(c, n - 1)
  }

  /** The first n stage caps added up, but for that of one stage. */
  function OtherCaps(caps: seq<real>, i: nat, n: nat): real
    requires n <= |caps|
  {
    if n == 0 then 0.0 else OtherCaps(caps, i, n - 1) + if n - 1 == i then 0.0 else caps[n - 1]
  }

  /** The others cannot use up the budget behind the back of a stage without a cap: they all have one,
      and these add up to less than the budget. */
  ghost predicate Covered(c: Config, i: nat)
    requires i < |c.stageCaps|
  {
    && (forall j :: 0 <= j < |c.stageCaps| && j != i ==> c.stageCaps[j] > 0.0)
    && OtherCaps(c.stageCaps, i, |c.stageCaps|) < c.maxCost
  }

  ghost predicate AllCovered(c: Config) {
    forall i :: 0 <= i < |c.stageCaps| && c.stageCaps[i] <= 0.0 ==> Covered(c, i)
  }

  ghost predicate SpentWithin(c: Config, bound: real) {
    forall steps | IsRun(c, steps) :: After(c, steps).spent <= bound
  }

  lemma {:induction false} LeftUpdate(c: Config, agents: seq<Phase>, n: nat, i: nat, p: Phase)
    requires n <= |agents| == |c.stageCaps| && i < |agents|
    ensures Left(c, agents[i := p], n) ==
              if i >= n || p.Done? == agents[i].Done? then Left(c, agents, n)
              else if p.Done? then Left(c, agents, n) - Allowance(c, i)
              else Left(c, agents, n) + Allowance(c, i)
  {
    if n > 0 {
      LeftUpdate(c, agents, n - 1, i, p);
    }
  }

  /** What the others spent is at most their caps. */
  lemma {:induction false} LeftOfOthers(c: Config, agents: seq<Phase>, start: seq<Phase>, n: nat, i: nat)
    requires c.maxCost > 0.0 && n <= |agents| == |start| == |c.stageCaps| && i < |agents|
    requires !agents[i].Done? && !start[i].Done?
    requires forall j :: 0 <= j < |start| ==> !start[j].Done?
    requires forall j :: 0 <= j < n && j != i ==> c.stageCaps[j] > 0.0
    ensures Left(c, start, n) - Left(c, agents, n) <= OtherCaps(c.stageCaps, i, n)
  {
    if n > 0 {
      LeftOfOthers(c, agents, start, n - 1, i);
    }
  }

  ghost predicate AllowanceInv(c: Config, s: State) {
    var n, start := |c.stageCaps|, Init(c).agents;
    && |s.agents| == n && 0.0 <= s.spent <= Left(c, start, n) - Left(c, s.agents, n)
    && forall i :: 0 <= i < n && s.agents[i].Launched? ==>
         s.agents[i].cap.Some? && s.agents[i].cap.value <= Allowance(c, i)
  }

  /** A cap that is read is given, and within the agent's allowance. */
  lemma CapIsGiven(c: Config, s: State, i: nat)
    requires c.maxCost > 0.0 && AllCovered(c) && AllowanceInv(c, s) && i < |s.agents| && s.agents[i].Checked?
    ensures var cap := EffectiveCap(c.maxCost, s.spent, c.stageCaps[i]); cap.Some? && cap.value <= Allowance(c, i)
  {
    hide Left, OtherCaps;
    if c.stageCaps[i] <= 0.0 {
      assert Covered(c, i);
      LeftOfOthers(c, s.agents, Init(c).agents, |c.stageCaps|, i);
      CapWithinBudgetIff(c.maxCost, s.spent, c.stageCaps[i]);
    }
  }

  lemma AllowanceStepKeeps(c: Config, s: State, step: Step)
    requires c.maxCost > 0.0 && AllCovered(c) && AllowanceInv(c, s) && Enabled(c, s, step)
    ensures AllowanceInv(c, Apply(c, s, step))
  {
    hide Left, AllCovered;
    var t, n := Apply(c, s, step), |c.stageCaps|;
    LeftUpdate(c, s.agents, n, step.agent, t.agents[step.agent]);
    assert t.agents == s.agents[step.agent := t.agents[step.agent]];
    if step.ReadCap? {
      CapIsGiven(c, s, step.agent);
    }
  }

  lemma {:induction false} RunKeepsAllowance(c: Config, steps: seq<Step>)
    requires c.maxCost > 0.0 && AllCovered(c) && IsRun(c, steps)
    ensures AllowanceInv(c, After(c, steps))
  {
    hide AllowanceInv, AllCovered, Apply, Enabled;
    if steps == [] {
      AllowanceAtStart(c);
    } else {
      RunKeepsAllowance(c, steps[..|steps| - 1]);
      AllowanceStepKeeps(c, After(c, steps[..|steps| - 1]), steps[|steps| - 1]);
    }
  }

  lemma AllowanceAtStart(c: Config)
    ensures AllowanceInv(c, Init(c))
  {
  }

  lemma {:induction false} LeftIsPositive(c: Config, agents: seq<Phase>, n: nat)
    requires c.maxCost > 0.0 && n <= |agents| == |c.stageCaps|
    ensures Left(c, agents, n) >= 0.0
  {
    if n > 0 {
      LeftIsPositive(c, agents, n - 1);
    }
  }

  lemma Take(c: Config, steps: seq<Step>, step: Step)
    requires IsRun(c, steps) && Enabled(c, After(c, steps), step)
    ensures IsRun(c, steps + [step]) && After(c, steps + [step]) == Apply(c, After(c, steps), step)
  {
    assert (steps + [step])[..|steps|] == steps;
  }

  /** Stage i has passed its check, the stages from m on have not begun, and the others have spent all they
      could, which is the budget or all their caps. */
  ghost predicate Drained(c: Config, s: State, i: nat, m: nat)
    requires i < |c.stageCaps| && m <= |c.stageCaps|
  {
    && |s.agents| == |c.stageCaps| && s.agents[i] == Checked
    && (forall j :: m <= j < |s.agents| && j != i ==> s.agents[j] == Idle)
    && (s.spent >= c.maxCost
        || ((forall j :: 0 <= j < m && j != i ==> c.stageCaps[j] > 0.0) && s.spent == OtherCaps(c.stageCaps, i, m)))
  }

  lemma {:induction false} Drain(c: Config, i: nat, m: nat) returns (steps: seq<Step>)
    requires c.maxCost > 0.0 && i < |c.stageCaps| && m <= |c.stageCaps|
    ensures IsRun(c, steps) && Drained(c, After(c, steps), i, m)
  {
    hide IsRun, After, Drained, Enabled, Apply;
    if m == 0 {
      steps := [Check(i)];
      FirstCheck(c, i);
    } else {
      steps := Drain(c, i, m - 1);
      var s, j := After(c, steps), m - 1;
      if j == i || s.spent >= c.maxCost {
        DrainedFurther(c, s, i, m);
      } else {
        var t, cost := DrainOne(c, s, i, j);
        Take(c, steps, Check(j));
        Take(c, steps + [Check(j)], ReadCap(j));
        Take(c, steps + [Check(j)] + [ReadCap(j)], Finish(j, cost));
        steps := steps + [Check(j)] + [ReadCap(j)] + [Finish(j, cost)];
      }
    }
  }

  lemma FirstCheck(c: Config, i: nat)
    requires c.maxCost > 0.0 && i < |c.stageCaps|
    ensures IsRun(c, [Check(i)]) && Drained(c, After(c, [Check(i)]), i, 0)
  {
    assert IsRun(c, []) && After(c, []) == Init(c);
    Take(c, [], Check(i));
    assert [] + [Check(i)] == [Check(i)];
  }

  lemma DrainedFurther(c: Config, s: State, i: nat, m: nat)
    requires i < |c.stageCaps| && 0 < m <= |c.stageCaps| && Drained(c, s, i, m - 1)
    requires m - 1 == i || s.spent >= c.maxCost
    ensures Drained(c, s, i, m)
  {
  }

  /** One more stage is checked, launched, and spends its whole cap. */
  lemma DrainOne(c: Config, s: State, i: nat, j: nat) returns (t: State, cost: real)
    requires c.maxCost > 0.0 && i < |c.stageCaps| && j < |c.stageCaps| && j != i
    requires Drained(c, s, i, j) && s.spent < c.maxCost
    ensures Enabled(c, s, Check(j))
    ensures var s1 := Apply(c, s, Check(j));
            && Enabled(c, s1, ReadCap(j))
            && var s2 := Apply(c, s1, ReadCap(j));
               Enabled(c, s2, Finish(j, cost)) && t == Apply(c, s2, Finish(j, cost))
    ensures Drained(c, t, i, j + 1)
  {
    var s1 := Apply(c, s, Check(j));
    var s2 := Apply(c, s1, ReadCap(j));
    cost := s2.agents[j].cap.value;
    t := Apply(c, s2, Finish(j, cost));
    assert t.spent == s.spent + cost;
    assert c.stageCaps[j] <= 0.0 || c.stageCaps[j] >= c.maxCost - s.spent ==> t.spent == c.maxCost;
  }

  /** With a positive budget, some bound holds for the spending of every run if and only if no stage without a
      cap can be left behind by the others: all of them are capped, and for less than the budget. */
  lemma SpendingIsBoundedIff(c: Config)
    requires c.maxCost > 0.0
    ensures (exists bound :: SpentWithin(c, bound)) <==> AllCovered(c)
  {
    hide IsRun, After, AllowanceInv, Covered;
    if AllCovered(c) {
      var bound := Left(c, Init(c).agents, |c.stageCaps|);
      forall steps | IsRun(c, steps) ensures After(c, steps).spent <= bound {
        RunKeepsAllowance(c, steps);
        SpentAllowance(c, After(c, steps));
      }
      assert SpentWithin(c, bound);
    } else {
      var i :| 0 <= i < |c.stageCaps| && c.stageCaps[i] <= 0.0 && !Covered(c, i);
      forall bound ensures !SpentWithin(c, bound) {
        var steps := Overspend(c, i, bound);
      }
    }
  }

  lemma SpentAllowance(c: Config, s: State)
    requires c.maxCost > 0.0 && AllowanceInv(c, s)
    ensures s.spent <= Left(c, Init(c).agents, |c.stageCaps|)
  {
    LeftIsPositive(c, s.agents, |c.stageCaps|);
  }

  lemma Overspend(c: Config, i: nat, bound: real) returns (steps: seq<Step>)
    requires c.maxCost > 0.0 && i < |c.stageCaps| && c.stageCaps[i] <= 0.0 && !Covered(c, i)
    ensures IsRun(c, steps) && After(c, steps).spent > bound
  {
    hide IsRun, After;
    steps := Drain(c, i, |c.stageCaps|);
    var s := After(c, steps);
    assert s.spent >= c.maxCost;
    var cost := if bound < s.spent then 1.0 else bound - s.spent + 1.0;
    Take(c, steps, ReadCap(i));
    Take(c, steps + [ReadCap(i)], Finish(i, cost));
    steps := steps + [ReadCap(i)] + [Finish(i, cost)];
  }
}
