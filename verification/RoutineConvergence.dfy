/** The daemon's loop (routine/daemon/daemon_run.go): one consumer applies the store's events to the
    scheduler while timer callbacks of the watcher reload the store and send more of them. A step system
    on the scheduler's job table, whose two operations RoutineScheduler proves for the real scheduler. */
module RoutineConvergence {
  import opened Wrappers
  import opened RoutineStore
  import opened RoutineScheduler

  /** A reload has copied the store and not yet loaded it anew, or it has the events still to be sent. */
  datatype Callback = Copied(before: Entries) | Sending(unsent: seq<Event>)

  /** `snapshot` is the copy of the store that an addition or update has taken and not applied yet. */
  datatype State = State(
    store: Entries, jobs: Entries, queue: seq<Event>, snapshot: Option<Entries>, callbacks: seq<Callback>)

  datatype Step =
    | Begin
    | Load(n: nat, after: Entries, events: seq<Event>)
    | Abandon(n: nat)
    | Send(n: nat)
    | Take
    | Apply

  /** A reload replaces the store with what it finds, and sends the events it owes against its own copy one
      by one, none dropped, in any order. It gives up if the directories cannot be read. */
  ghost predicate Enabled(s: State, step: Step) {
    match step
    case Begin => true
    case Load(n, after, events) =>
      n < |s.callbacks| && s.callbacks[n].Copied? && Keyed(after)
      && IsDiff(s.callbacks[n].before, after, events)
    case Abandon(n) => n < |s.callbacks| && s.callbacks[n].Copied?
    case Send(n) => n < |s.callbacks| && s.callbacks[n].Sending? && s.callbacks[n].unsent != []
    case Take => s.queue != [] && s.snapshot.None?
    case Apply => s.snapshot.Some?
  }

  ghost function Next(s: State, step: Step, accepts: string -> bool): State
    requires Enabled(s, step)
  {
    match step
    case Begin => s.(callbacks := s.callbacks + [Copied(s.store)])
    case Load(n, after, events) => s.(store := after, callbacks := s.callbacks[n := Sending(events)])
    case Abandon(n) => s.(callbacks := s.callbacks[n := Sending([])])
    case Send(n) =>
      var unsent := s.callbacks[n].unsent;
      s.(queue := s.queue + [unsent[0]], callbacks := s.callbacks[n := Sending(unsent[1..])])
    case Take =>
      var e, rest := s.queue[0], s.queue[1..];
      if e.Removed? then s.(jobs := s.jobs - {e.key}, queue := rest)
      else s.(snapshot := Some(s.store), queue := rest)
    case Apply => s.(jobs := Target(s.snapshot.value, accepts), snapshot := None)
  }

  ghost predicate IsRun(s: State, steps: seq<Step>, accepts: string -> bool)
    decreases |steps|, 0
  {
    steps == [] ||
    (IsRun(s, steps[..|steps| - 1], accepts) && Enabled(After(s, steps[..|steps| - 1], accepts), steps[|steps| - 1]))
  }

  ghost function After(s: State, steps: seq<Step>, accepts: string -> bool): State
    requires IsRun(s, steps, accepts)
    decreases |steps|, 1
  {
    if steps == [] then s
    else Next(After(s, steps[..|steps| - 1], accepts), steps[|steps| - 1], accepts)
  }

  ghost predicate AllSent(s: State) {
    forall n :: 0 <= n < |s.callbacks| ==> s.callbacks[n] == Sending([])
  }

  /** How many reloads are under way. */
  function Busy(callbacks: seq<Callback>): nat {
    if callbacks == [] then 0
    else Busy(callbacks[..|callbacks| - 1]) + if callbacks[|callbacks| - 1] == Sending([]) then 0 else 1
  }

  /** At most b reloads are ever under way at the same time. */
  ghost predicate AtMost(s: State, steps: seq<Step>, b: nat, accepts: string -> bool)
    requires IsRun(s, steps, accepts)
  {
    steps == [] ||
    (AtMost(s, steps[..|steps| - 1], b, accepts)
     && (steps[|steps| - 1].Begin? ==> Busy(After(s, steps[..|steps| - 1], accepts).callbacks) < b))
  }

  lemma {:induction false} NotBusy(callbacks: seq<Callback>)
    ensures Busy(callbacks) == 0 <==> forall n :: 0 <= n < |callbacks| ==> callbacks[n] == Sending([])
  {
    if callbacks != [] {
      NotBusy(callbacks[..|callbacks| - 1]);
    }
  }

  /** The same keys, and entries that agree on everything compared but the variables. */
  ghost predicate SameJobs(a: Entries, b: Entries) {
    a.Keys == b.Keys && forall k :: k in a ==> Agree(a[k].routine, b[k].routine)
  }

  /** The jobs are the enabled store entries with an accepted schedule, each on its current one. */
  ghost predicate InSync(jobs: Entries, store: Entries, accepts: string -> bool) {
    SameJobs(jobs, Target(store, accepts))
  }

  /** The jobs there will be once a snapshot that was taken is applied. */
  ghost function Effective(s: State, accepts: string -> bool): Entries {
    if s.snapshot.Some? then Target(s.snapshot.value, accepts) else s.jobs
  }

  ghost predicate Quiet(queue: seq<Event>) {
    forall e :: e in queue ==> e.Removed?
  }

  ghost function RemovedKeys(queue: seq<Event>): set<string> {
    set e | e in queue && e.Removed? :: e.key
  }

  /** A pending removal is of a key that is gone, or is made good by a later addition. */
  ghost predicate RemovalsAreSafe(s: State) {
    forall i :: 0 <= i < |s.queue| && s.queue[i].Removed? ==>
      s.queue[i].key !in s.store || AddedAfter(s.queue, i, s.queue[i].key)
  }

  ghost predicate AddedAfter(queue: seq<Event>, i: nat, k: string) {
    exists j :: i < j < |queue| && queue[j].Added? && queue[j].key == k
  }

  /** If no addition or update is pending, the pending removals are all that separates the jobs from
      the store. */
  ghost predicate Inv(s: State, accepts: string -> bool) {
    && RemovalsAreSafe(s)
    && (Quiet(s.queue) ==> InSync(Effective(s, accepts) - RemovedKeys(s.queue), s.store, accepts))
  }

  lemma DiffMember(before: Entries, after: Entries, events: seq<Event>, e: Event)
    requires IsDiff(before, after, events)
    ensures e in events <==> Owed(before, after, e)
  {
    assert e in events <==> e in multiset(events);
  }

  /** A reload that only removes leaves the surviving entries in agreement. */
  lemma QuietReload(before: Entries, after: Entries, events: seq<Event>, accepts: string -> bool)
    requires IsDiff(before, after, events) && Quiet(events)
    ensures SameJobs(Target(before, accepts) - RemovedKeys(events), Target(after, accepts))
  {
    forall k | k in after ensures k in before && Agree(before[k].routine, after[k].routine) {
      DiffMember(before, after, events, Added(k, after[k]));
      DiffMember(before, after, events, Updated(k, after[k]));
    }
    forall k ensures k in RemovedKeys(events) <==> k in before && k !in after {
      DiffMember(before, after, events, Removed(k));
      if k in RemovedKeys(events) {
        var e :| e in events && e.Removed? && e.key == k;
        assert e == Removed(k);
      }
    }
  }

  lemma ReloadKeepsRemovals(s: State, after: Entries, events: seq<Event>)
    requires RemovalsAreSafe(s) && IsDiff(s.store, after, events)
    ensures RemovalsAreSafe(s.(store := after, queue := s.queue + events))
  {
    var q := s.queue + events;
    forall i | 0 <= i < |q| && q[i].Removed? ensures q[i].key !in after || AddedAfter(q, i, q[i].key) {
      var k := q[i].key;
      if i >= |s.queue| {
        DiffMember(s.store, after, events, q[i]);
      } else if AddedAfter(s.queue, i, k) {
        var j :| i < j < |s.queue| && s.queue[j].Added? && s.queue[j].key == k;
        assert q[j].Added? && q[j].key == k;
      } else if k in after {
        DiffMember(s.store, after, events, Added(k, after[k]));
        var j :| 0 <= j < |events| && events[j] == Added(k, after[k]);
        assert q[|s.queue| + j] == events[j];
      }
    }
  }

  lemma ReloadKeeps(s: State, after: Entries, events: seq<Event>, accepts: string -> bool)
    requires Inv(s, accepts) && IsDiff(s.store, after, events)
    ensures Inv(s.(store := after, queue := s.queue + events), accepts)
  {
    hide IsDiff, Target, RemovalsAreSafe;
    ReloadKeepsRemovals(s, after, events);
    if Quiet(s.queue + events) {
      assert Quiet(s.queue) by { assert forall e :: e in s.queue ==> e in s.queue + events; }
      assert Quiet(events) by { assert forall e :: e in events ==> e in s.queue + events; }
      QuietReload(s.store, after, events, accepts);
      RemovedTogether(Effective(s, accepts), s.queue, events);
    }
  }

  lemma RemovedTogether(jobs: Entries, a: seq<Event>, b: seq<Event>)
    ensures jobs - RemovedKeys(a + b) == jobs - RemovedKeys(a) - RemovedKeys(b)
  {
    assert RemovedKeys(a + b) == RemovedKeys(a) + RemovedKeys(b);
  }

  lemma TakeKeepsRemovals(s: State, rest: seq<Event>)
    requires RemovalsAreSafe(s) && s.queue != [] && rest == s.queue[1..]
    ensures RemovalsAreSafe(s.(queue := rest))
  {
    forall i | 0 <= i < |rest| && rest[i].Removed? ensures rest[i].key !in s.store || AddedAfter(rest, i, rest[i].key) {
      assert s.queue[i + 1] == rest[i];
      if AddedAfter(s.queue, i + 1, rest[i].key) {
        var j :| i + 1 < j < |s.queue| && s.queue[j].Added? && s.queue[j].key == rest[i].key;
        assert rest[j - 1] == s.queue[j];
      }
    }
  }

  lemma QuietAddsNothing(queue: seq<Event>, i: nat, k: string)
    requires Quiet(queue)
    ensures !AddedAfter(queue, i, k)
  {
    forall j | i < j < |queue| ensures !queue[j].Added? {
      assert queue[j] in queue;
    }
  }

  /** With only removals pending, all of them are of keys that are gone. */
  lemma QuietRemovalsAreGone(s: State)
    requires RemovalsAreSafe(s) && Quiet(s.queue)
    ensures RemovedKeys(s.queue) !! s.store.Keys
  {
    forall k | k in RemovedKeys(s.queue) ensures k !in s.store {
      var e :| e in s.queue && e.Removed? && e.key == k;
      var i :| 0 <= i < |s.queue| && s.queue[i] == e;
      QuietAddsNothing(s.queue, i, k);
    }
  }

  lemma TakeKeeps(s: State, accepts: string -> bool)
    requires Inv(s, accepts) && Enabled(s, Take)
    ensures Inv(Next(s, Take, accepts), accepts)
  {
    hide RemovalsAreSafe, Target, InSync, RemovedKeys;
    var e, rest, t := s.queue[0], s.queue[1..], Next(s, Take, accepts);
    assert s.queue == [e] + rest;
    TakeKeepsRemovals(s, rest);
    assert RemovalsAreSafe(t) <==> RemovalsAreSafe(s.(queue := rest)) by { SameRemovals(t, s.(queue := rest)); }
    if Quiet(rest) {
      if e.Removed? {
        assert RemovedKeys([e]) == {e.key} by { RemovesOne(e); }
        RemovedTogether(s.jobs, [e], rest);
      } else {
        QuietRemovalsAreGone(s.(queue := rest));
        NothingToRemove(s.store, RemovedKeys(rest), accepts);
      }
    }
  }

  lemma RemovesOne(e: Event)
    requires e.Removed?
    ensures RemovedKeys([e]) == {e.key}
  {
    assert e in [e];
  }

  lemma SameRemovals(s: State, t: State)
    requires s.queue == t.queue && s.store == t.store
    ensures RemovalsAreSafe(s) <==> RemovalsAreSafe(t)
  {
  }

  lemma NothingToRemove(store: Entries, keys: set<string>, accepts: string -> bool)
    requires keys !! store.Keys
    ensures Target(store, accepts) - keys == Target(store, accepts)
    ensures InSync(Target(store, accepts) - keys, store, accepts)
  {
  }

  // ----- Events on their way -----

  /** Only the last reload can be under way; if it has not loaded the store yet, the store is as it was. */
  ghost predicate OneAtATime(s: State) {
    && (forall n :: 0 <= n < |s.callbacks| - 1 ==> s.callbacks[n] == Sending([]))
    && (s.callbacks != [] && s.callbacks[|s.callbacks| - 1].Copied? ==>
          s.callbacks[|s.callbacks| - 1].before == s.store)
  }

  ghost function Unsent(s: State): seq<Event> {
    if s.callbacks != [] && s.callbacks[|s.callbacks| - 1].Sending? then s.callbacks[|s.callbacks| - 1].unsent else []
  }

  /** The state with all events sent. */
  ghost function Sent(s: State): State {
    s.(queue := s.queue + Unsent(s))
  }

  /** Loading queues the events owed, and otherwise a serial reload changes nothing for whoever counts
      the unsent events as sent. */
  lemma SerialStep(s: State, step: Step, accepts: string -> bool)
    requires Enabled(s, step) && OneAtATime(s) && (step.Begin? ==> AllSent(s))
    ensures OneAtATime(Next(s, step, accepts))
    ensures match step
            case Load(_, after, events) =>
              && IsDiff(s.store, after, events) && Unsent(s) == []
              && Sent(Next(s, step, accepts)).(callbacks := []) ==
                   Sent(s).(store := after, queue := Sent(s).queue + events, callbacks := [])
            case Take =>
              Enabled(Sent(s), Take) && Sent(Next(s, Take, accepts)) == Next(Sent(s), Take, accepts)
            case Apply => Enabled(Sent(s), Apply) && Sent(Next(s, Apply, accepts)) == Next(Sent(s), Apply, accepts)
            case _ => Sent(Next(s, step, accepts)).(callbacks := []) == Sent(s).(callbacks := [])
  {
    hide IsDiff, Target;
    match step {
      case Begin =>
      case Load(n, after, events) =>
        assert n == |s.callbacks| - 1;
        assert s.queue + [] == s.queue;
      case Abandon(n) =>
        assert n == |s.callbacks| - 1;
      case Send(n) =>
        assert n == |s.callbacks| - 1;
        var unsent := s.callbacks[n].unsent;
        assert s.queue + unsent == s.queue + [unsent[0]] + unsent[1..];
      case Take =>
        assert (s.queue + Unsent(s))[0] == s.queue[0];
        assert (s.queue + Unsent(s))[1..] == s.queue[1..] + Unsent(s);
      case Apply =>
    }
  }

  lemma StepKeeps(s: State, step: Step, accepts: string -> bool)
    requires Enabled(s, step) && OneAtATime(s) && (step.Begin? ==> AllSent(s)) && Inv(Sent(s), accepts)
    ensures OneAtATime(Next(s, step, accepts)) && Inv(Sent(Next(s, step, accepts)), accepts)
  {
    hide Inv, OneAtATime, Next;
    SerialStep(s, step, accepts);
    match step {
      case Load(_, after, events) =>
        ReloadKeeps(Sent(s), after, events, accepts);
        SameInv(Sent(Next(s, step, accepts)), Sent(s).(store := after, queue := Sent(s).queue + events), accepts);
      case Take => TakeKeeps(Sent(s), accepts);
      case Apply => ApplyKeeps(Sent(s), accepts);
      case _ => SameInv(Sent(Next(s, step, accepts)), Sent(s), accepts);
    }
  }

  lemma ApplyKeeps(s: State, accepts: string -> bool)
    requires Inv(s, accepts) && Enabled(s, Apply)
    ensures Inv(Next(s, Apply, accepts), accepts)
  {
    hide InSync, Target;
  }

  lemma SameInv(s: State, t: State, accepts: string -> bool)
    requires s.(callbacks := []) == t.(callbacks := [])
    ensures Inv(s, accepts) <==> Inv(t, accepts)
  {
    hide InSync, Target;
  }

  lemma {:induction false} RunKeeps(s: State, steps: seq<Step>, accepts: string -> bool)
    requires IsRun(s, steps, accepts) && AtMost(s, steps, 1, accepts) && OneAtATime(s) && Inv(Sent(s), accepts)
    ensures OneAtATime(After(s, steps, accepts)) && Inv(Sent(After(s, steps, accepts)), accepts)
  {
    hide Inv, Sent, OneAtATime, Next, Enabled, Busy;
    if steps != [] {
      RunKeeps(s, steps[..|steps| - 1], accepts);
      if steps[|steps| - 1].Begin? {
        NotBusy(After(s, steps[..|steps| - 1], accepts).callbacks);
      }
      StepKeeps(After(s, steps[..|steps| - 1], accepts), steps[|steps| - 1], accepts);
    }
  }

  /** The consumer has nothing left to do and no reload has an event left to send. */
  ghost predicate Quiescent(s: State) {
    && s.queue == [] && s.snapshot.None?
    && forall n :: 0 <= n < |s.callbacks| && s.callbacks[n].Sending? ==> s.callbacks[n].unsent == []
  }

  /** Started in sync, the daemon is in sync again whenever nothing is left to do: after any number of
      reloads, none begun before the last one was through, with their events sent in any order and
      consumed at any pace. */
  lemma DaemonConverges(s: State, steps: seq<Step>, accepts: string -> bool)
    requires Quiescent(s) && s.callbacks == [] && InSync(s.jobs, s.store, accepts)
    requires IsRun(s, steps, accepts) && AtMost(s, steps, 1, accepts) && Quiescent(After(s, steps, accepts))
    ensures InSync(After(s, steps, accepts).jobs, After(s, steps, accepts).store, accepts)
  {
    hide IsRun, After, AtMost, InSync, Target;
    assert RemovedKeys([]) == {};
    assert s.jobs - {} == s.jobs && s.queue + [] == s.queue;
    RunKeeps(s, steps, accepts);
    var t := After(s, steps, accepts);
    assert t.jobs - {} == t.jobs && Sent(t).queue == [];
  }

  // ----- Overlapping reloads -----

  lemma TakeStep(s: State, steps: seq<Step>, step: Step, accepts: string -> bool)
    requires IsRun(s, steps, accepts) && Enabled(After(s, steps, accepts), step)
    ensures IsRun(s, steps + [step], accepts)
    ensures After(s, steps + [step], accepts) == Next(After(s, steps, accepts), step, accepts)
    ensures forall b {:trigger AtMost(s, steps + [step], b, accepts)} ::
              AtMost(s, steps, b, accepts) && (step.Begin? ==> Busy(After(s, steps, accepts).callbacks) < b) ==>
              AtMost(s, steps + [step], b, accepts)
  {
    assert (steps + [step])[..|steps|] == steps;
  }

  /** A routine's file goes and comes back, and the second reload overtakes the first. */
  function Overtaking(k: string, e: Entry): seq<Step> {
    [Begin, Load(0, map[], [Removed(k)]), Begin, Load(1, map[k := e], [Added(k, e)])]
    + [Send(1), Take, Apply, Send(0), Take]
  }

  lemma DiffOfOne(k: string, e: Entry)
    ensures IsDiff(map[k := e], map[], [Removed(k)]) && IsDiff(map[], map[k := e], [Added(k, e)])
  {
  }

  /** When reloads overlap, the removal found by the first can arrive after the addition found by the
      second: nothing is left to do, the routine is in the store, enabled and accepted, and has no job. */
  lemma OverlapLosesTheJob(e: Entry, accepts: string -> bool)
    requires e.routine.enabled && accepts(e.routine.schedule)
    ensures var k := EntryKey(e.ref);
            var s := State(map[k := e], map[k := e], [], None, []);
            && Keyed(s.store) && InSync(s.jobs, s.store, accepts)
            && IsRun(s, Overtaking(k, e), accepts) && AtMost(s, Overtaking(k, e), 2, accepts)
            && var t := After(s, Overtaking(k, e), accepts);
               && Quiescent(t) && k in t.store && t.store[k] == e && k in Target(t.store, accepts) && k !in t.jobs
  {
    hide IsRun, After, Overtaking, AtMost;
    var k := EntryKey(e.ref);
    var one: Entries := map[k := e];
    var s := State(one, one, [], None, []);
    var a := [Begin, Load(0, map[], [Removed(k)]), Begin, Load(1, one, [Added(k, e)])];
    var b := [Send(1), Take, Apply, Send(0), Take];
    NoSteps(s, accepts);
    BothReload(s, k, e, accepts);
    var t := State(one, one, [], None, [Sending([Removed(k)]), Sending([Added(k, e)])]);
    assert After(s, a, accepts) == t;
    SecondFirst(s, a, k, e, accepts);
    assert Overtaking(k, e) == a + b by { OvertakingParts(k, e); }
  }

  /** Every run from a store and jobs in sync, with at most b reloads under way at the same time, is in sync
      when nothing is left to do. */
  ghost predicate ConvergesWith(b: nat, accepts: string -> bool) {
    forall s: State, steps |
      && Keyed(s.store) && InSync(s.jobs, s.store, accepts) && Quiescent(s) && s.callbacks == []
      && IsRun(s, steps, accepts) && AtMost(s, steps, b, accepts) && Quiescent(After(s, steps, accepts)) ::
      InSync(After(s, steps, accepts).jobs, After(s, steps, accepts).store, accepts)
  }

  /** If any schedule is accepted at all, the daemon converges exactly if no two reloads overlap. */
  lemma ConvergesIff(b: nat, schedule: string, accepts: string -> bool)
    requires accepts(schedule)
    ensures ConvergesWith(b, accepts) <==> b <= 1
  {
    hide IsRun, After, AtMost, InSync, Quiescent;
    if b <= 1 {
      forall s: State, steps |
        && Keyed(s.store) && InSync(s.jobs, s.store, accepts) && Quiescent(s) && s.callbacks == []
        && IsRun(s, steps, accepts) && AtMost(s, steps, b, accepts) && Quiescent(After(s, steps, accepts))
        ensures InSync(After(s, steps, accepts).jobs, After(s, steps, accepts).store, accepts)
      {
        MoreAllowed(s, steps, b, 1, accepts);
        DaemonConverges(s, steps, accepts);
      }
    } else {
      Diverges(b, schedule, accepts);
    }
  }

  lemma Diverges(b: nat, schedule: string, accepts: string -> bool)
    requires accepts(schedule) && b >= 2
    ensures !ConvergesWith(b, accepts)
  {
    hide IsRun, After, AtMost, Overtaking;
    var routine := Routine("r", "", schedule, "", "", "", "", "", 0.0, 0, map[], true, "");
    var e := Entry(Ref(Global, "", "r"), routine);
    var k := EntryKey(e.ref);
    var s := State(map[k := e], map[k := e], [], None, []);
    OverlapLosesTheJob(e, accepts);
    MoreAllowed(s, Overtaking(k, e), 2, b, accepts);
  }

  lemma {:induction false} MoreAllowed(s: State, steps: seq<Step>, a: nat, b: nat, accepts: string -> bool)
    requires IsRun(s, steps, accepts) && AtMost(s, steps, a, accepts) && a <= b
    ensures AtMost(s, steps, b, accepts)
  {
    hide Next, Enabled, Busy;
    if steps != [] {
      MoreAllowed(s, steps[..|steps| - 1], a, b, accepts);
    }
  }

  lemma OvertakingParts(k: string, e: Entry)
    ensures Overtaking(k, e) == [Begin, Load(0, map[], [Removed(k)]), Begin, Load(1, map[k := e], [Added(k, e)])]
                                + [Send(1), Take, Apply, Send(0), Take]
  {
  }

  lemma BothReload(s: State, k: string, e: Entry, accepts: string -> bool)
    requires s == State(map[k := e], map[k := e], [], None, []) && Keyed(s.store)
    ensures var steps := [Begin, Load(0, map[], [Removed(k)]), Begin, Load(1, map[k := e], [Added(k, e)])];
            IsRun(s, steps, accepts) && AtMost(s, steps, 2, accepts)
            && After(s, steps, accepts) == s.(callbacks := [Sending([Removed(k)]), Sending([Added(k, e)])])
  {
    hide IsRun, After, IsDiff, AtMost;
    var none: Entries := map[];
    var events, more := [Removed(k)], [Added(k, e)];
    NoSteps(s, accepts);
    DiffOfOne(k, e);
    OneBusy(events);
    OneReload(s, [], none, events, accepts);
    assert [] + [Begin, Load(0, none, events)] == [Begin, Load(0, none, events)];
    assert [] + [Sending(events)] == [Sending(events)];
    OneReload(s, [Begin, Load(0, none, events)], s.store, more, accepts);
    assert [Begin, Load(0, none, events)] + [Begin, Load(1, s.store, more)]
        == [Begin, Load(0, none, events), Begin, Load(1, s.store, more)];
    assert [Sending(events)] + [Sending(more)] == [Sending(events), Sending(more)];
  }

  /** A reload begins and loads the store, with nothing in between. */
  lemma OneReload(s: State, before: seq<Step>, after: Entries, events: seq<Event>, accepts: string -> bool)
    requires IsRun(s, before, accepts) && AtMost(s, before, 2, accepts)
    requires var t := After(s, before, accepts);
             Busy(t.callbacks) < 2 && Keyed(after) && IsDiff(t.store, after, events)
    ensures var t := After(s, before, accepts);
            var steps := before + [Begin, Load(|t.callbacks|, after, events)];
            && IsRun(s, steps, accepts) && AtMost(s, steps, 2, accepts)
            && After(s, steps, accepts) == t.(store := after, callbacks := t.callbacks + [Sending(events)])
  {
    hide IsRun, After, IsDiff, AtMost, Next, Enabled, Busy, Keyed;
    var t := After(s, before, accepts);
    var n, begun := |t.callbacks|, t.callbacks + [Copied(t.store)];
    BeginStep(t, accepts);
    TakeStep(s, before, Begin, accepts);
    LoadStep(t.(callbacks := begun), n, after, events, accepts);
    TakeStep(s, before + [Begin], Load(n, after, events), accepts);
    assert before + [Begin] + [Load(n, after, events)] == before + [Begin, Load(n, after, events)];
    assert begun[n := Sending(events)] == t.callbacks + [Sending(events)];
  }

  lemma BeginStep(s: State, accepts: string -> bool)
    ensures Enabled(s, Begin) && Next(s, Begin, accepts) == s.(callbacks := s.callbacks + [Copied(s.store)])
  {
  }

  lemma LoadStep(s: State, n: nat, after: Entries, events: seq<Event>, accepts: string -> bool)
    requires n < |s.callbacks| && s.callbacks[n].Copied? && Keyed(after)
    requires IsDiff(s.callbacks[n].before, after, events)
    ensures Enabled(s, Load(n, after, events))
    ensures Next(s, Load(n, after, events), accepts) ==
              s.(store := after, callbacks := s.callbacks[n := Sending(events)])
  {
    hide IsDiff, Keyed;
  }

  lemma OneBusy(unsent: seq<Event>)
    ensures Busy([]) == 0 && Busy([Sending(unsent)]) <= 1
  {
    assert [Sending(unsent)][..0] == [];
  }

  lemma SecondFirst(s: State, before: seq<Step>, k: string, e: Entry, accepts: string -> bool)
    requires IsRun(s, before, accepts) && AtMost(s, before, 2, accepts)
    requires e.routine.enabled && accepts(e.routine.schedule)
    requires After(s, before, accepts) ==
               State(map[k := e], map[k := e], [], None, [Sending([Removed(k)]), Sending([Added(k, e)])])
    ensures var steps := before + [Send(1), Take, Apply, Send(0), Take];
            IsRun(s, steps, accepts) && AtMost(s, steps, 2, accepts)
            && After(s, steps, accepts) == State(map[k := e], map[], [], None, [Sending([]), Sending([])])
  {
    hide IsRun, After, Next, Enabled, AtMost;
    var one: Entries := map[k := e];
    SendLast(one, one, Sending([Removed(k)]), Added(k, e), accepts);
    TakeStep(s, before, Send(1), accepts);
    var a := before + [Send(1)];
    Reconcile(one, Added(k, e), [Sending([Removed(k)]), Sending([])], accepts);
    TakeStep(s, a, Take, accepts);
    TakeStep(s, a + [Take], Apply, accepts);
    var b := a + [Take] + [Apply];
    assert Target(one, accepts) == one;
    SendFirst(one, one, Removed(k), accepts);
    TakeStep(s, b, Send(0), accepts);
    TakeRemoval(one, k, e, accepts);
    TakeStep(s, b + [Send(0)], Take, accepts);
    assert b + [Send(0)] + [Take] == before + [Send(1), Take, Apply, Send(0), Take];
  }

  lemma SendLast(store: Entries, jobs: Entries, first: Callback, e: Event, accepts: string -> bool)
    ensures var s := State(store, jobs, [], None, [first, Sending([e])]);
            Enabled(s, Send(1)) && Next(s, Send(1), accepts) == State(store, jobs, [e], None, [first, Sending([])])
  {
    assert [e][1..] == [];
  }

  lemma SendFirst(store: Entries, jobs: Entries, e: Event, accepts: string -> bool)
    ensures var s := State(store, jobs, [], None, [Sending([e]), Sending([])]);
            && Enabled(s, Send(0))
            && Next(s, Send(0), accepts) == State(store, jobs, [e], None, [Sending([]), Sending([])])
  {
    assert [] + [e] == [e] && [e][1..] == [];
  }

  /** Taking an addition and applying it gives exactly the jobs the store wants. */
  lemma Reconcile(store: Entries, e: Event, callbacks: seq<Callback>, accepts: string -> bool)
    requires e.Added?
    ensures var s := State(store, store, [e], None, callbacks);
            var t := State(store, store, [], Some(store), callbacks);
            && Enabled(s, Take) && Next(s, Take, accepts) == t
            && Enabled(t, Apply)
            && Next(t, Apply, accepts) == State(store, Target(store, accepts), [], None, callbacks)
  {
    assert [e][1..] == [];
  }

  lemma TakeRemoval(store: Entries, k: string, e: Entry, accepts: string -> bool)
    ensures var s := State(store, map[k := e], [Removed(k)], None, [Sending([]), Sending([])]);
            Enabled(s, Take) && Next(s, Take, accepts) == State(store, map[], [], None, [Sending([]), Sending([])])
  {
    assert [Removed(k)][1..] == [];
    assert map[k := e] - {k} == map[];
  }

  lemma NoSteps(s: State, accepts: string -> bool)
    ensures IsRun(s, [], accepts) && After(s, [], accepts) == s && forall b :: AtMost(s, [], b, accepts)
  {
  }

  // ----- Dropped events -----

  /** What consuming some events makes of the jobs, with the store reloaded before the first. */
  ghost function Consume(jobs: Entries, after: Entries, events: seq<Event>, accepts: string -> bool): Entries {
    if events == [] then jobs
    else
      var last := events[|events| - 1];
      if last.Removed? then Consume(jobs, after, events[..|events| - 1], accepts) - {last.key}
      else Target(after, accepts)
  }

  /** Of the events of one reload any may be dropped, as long as one addition or update gets through:
      it reconciles everything. With none, exactly the delivered removals take effect. */
  lemma {:induction false} OneEventHealsAllDrops(
    jobs: Entries, before: Entries, after: Entries, sent: seq<Event>, accepts: string -> bool)
    requires forall e :: e in sent ==> Owed(before, after, e)
    ensures Consume(jobs, after, sent, accepts) ==
              if Quiet(sent) then jobs - RemovedKeys(sent) else Target(after, accepts)
  {
    if sent == [] {
      assert RemovedKeys(sent) == {} && jobs - {} == jobs;
    } else {
      var front, last := sent[..|sent| - 1], sent[|sent| - 1];
      OneEventHealsAllDrops(jobs, before, after, front, accepts);
      assert forall e :: e in sent <==> e in front || e == last;
      if last.Removed? {
        assert Quiet(sent) <==> Quiet(front);
        assert RemovedKeys(sent) == RemovedKeys(front) + {last.key};
        assert Owed(before, after, last) && last.key !in Target(after, accepts);
        assert Target(after, accepts) - {last.key} == Target(after, accepts);
        assert jobs - RemovedKeys(front) - {last.key} == jobs - RemovedKeys(sent);
      } else {
        assert !Quiet(sent);
      }
    }
  }

  /** Losing the event leaves the jobs as the store wants them. */
  ghost predicate Harmless(before: Entries, after: Entries, e: Event, accepts: string -> bool) {
    var was, now := Target(before, accepts), Target(after, accepts);
    match e
    case Added(k, _) => k !in now
    case Removed(k) => k !in was
    case Updated(k, _) => (k in was <==> k in now) && (k in now ==> Agree(was[k].routine, now[k].routine))
  }

  /** When no addition or update gets through, the daemon is in sync again exactly if every dropped
      event was harmless. */
  lemma QuietDeliveryIff(
    jobs: Entries, before: Entries, after: Entries, sent: seq<Event>, dropped: seq<Event>, accepts: string -> bool)
    requires IsDiff(before, after, sent + dropped) && InSync(jobs, before, accepts) && Quiet(sent)
    ensures InSync(Consume(jobs, after, sent, accepts), after, accepts) <==>
              forall e :: e in dropped ==> Harmless(before, after, e, accepts)
  {
    var left := jobs - RemovedKeys(sent);
    DeliveredOrDropped(before, after, sent, dropped);
    OneEventHealsAllDrops(jobs, before, after, sent, accepts);
    InSyncByKeys(left, after, accepts);
    if forall e :: e in dropped ==> Harmless(before, after, e, accepts) {
      forall k ensures KeyInSync(left, after, k, accepts) {
        HarmlessKey(jobs, before, after, sent, dropped, k, accepts);
      }
    } else {
      var e :| e in dropped && !Harmless(before, after, e, accepts);
      HarmfulKey(jobs, before, after, sent, dropped, e, accepts);
    }
  }

  lemma DeliveredOrDropped(before: Entries, after: Entries, sent: seq<Event>, dropped: seq<Event>)
    requires IsDiff(before, after, sent + dropped)
    ensures forall e :: e in sent || e in dropped <==> Owed(before, after, e)
    ensures forall e :: e in sent ==> e !in dropped
  {
    forall e ensures (e in sent || e in dropped <==> Owed(before, after, e)) && !(e in sent && e in dropped) {
      DiffMember(before, after, sent + dropped, e);
      assert multiset(sent + dropped)[e] == multiset(sent)[e] + multiset(dropped)[e];
      assert (e in sent <==> e in multiset(sent)) && (e in dropped <==> e in multiset(dropped));
    }
  }

  lemma InSyncByKeys(jobs: Entries, store: Entries, accepts: string -> bool)
    ensures InSync(jobs, store, accepts) <==> forall k :: KeyInSync(jobs, store, k, accepts)
  {
    if forall k :: KeyInSync(jobs, store, k, accepts) {
      forall k ensures k in jobs <==> k in Target(store, accepts) {
        assert KeyInSync(jobs, store, k, accepts);
      }
      forall k | k in jobs ensures Agree(jobs[k].routine, Target(store, accepts)[k].routine) {
        assert KeyInSync(jobs, store, k, accepts);
      }
    }
  }

  ghost predicate KeyInSync(jobs: Entries, store: Entries, k: string, accepts: string -> bool) {
    var now := Target(store, accepts);
    (k in jobs <==> k in now) && (k in now && k in jobs ==> Agree(jobs[k].routine, now[k].routine))
  }

  lemma HarmlessKey(
    jobs: Entries, before: Entries, after: Entries, sent: seq<Event>, dropped: seq<Event>, k: string,
    accepts: string -> bool)
    requires forall e :: e in sent || e in dropped <==> Owed(before, after, e)
    requires InSync(jobs, before, accepts) && Quiet(sent)
    requires forall e :: e in dropped ==> Harmless(before, after, e, accepts)
    ensures KeyInSync(jobs - RemovedKeys(sent), after, k, accepts)
  {
    if k in after && k !in before {
      assert Owed(before, after, Added(k, after[k]));
    } else if k in after && !Unchanged(before[k].routine, after[k].routine) {
      assert Owed(before, after, Updated(k, after[k]));
    } else if k !in after && k in before {
      assert Owed(before, after, Removed(k));
    }
    assert forall e :: e in sent && e.key == k ==> e == Removed(k);
    assert k in RemovedKeys(sent) ==> Removed(k) in sent;
  }

  lemma HarmfulKey(
    jobs: Entries, before: Entries, after: Entries, sent: seq<Event>, dropped: seq<Event>, e: Event,
    accepts: string -> bool)
    requires forall f :: f in sent || f in dropped <==> Owed(before, after, f)
    requires forall f :: f in sent ==> f !in dropped
    requires InSync(jobs, before, accepts) && Quiet(sent)
    requires e in dropped && !Harmless(before, after, e, accepts)
    ensures !KeyInSync(jobs - RemovedKeys(sent), after, e.key, accepts)
  {
    assert Owed(before, after, e);
    assert forall f :: f in sent && f.key == e.key ==> f == Removed(e.key);
    assert e.key in RemovedKeys(sent) ==> Removed(e.key) in sent;
  }

  // ----- The store's listing -----

  /** Any listing of the store gives the scheduler the same target as the store itself. */
  lemma ListingHasSameTarget(store: Entries, listing: seq<Entry>, accepts: string -> bool)
    requires Keyed(store)
    requires forall e :: e in listing <==> e in store.Values
    ensures Target(Wanted(listing), accepts) == Target(store, accepts)
  {
    WantedIsListed(listing);
    forall k | k in store ensures store[k] in listing {
      assert store[k] in store.Values;
    }
  }

  lemma {:induction false} WantedIsListed(listing: seq<Entry>)
    ensures forall k :: k in Wanted(listing) ==>
              && Wanted(listing)[k] in listing && EntryKey(Wanted(listing)[k].ref) == k
              && Wanted(listing)[k].routine.enabled
    ensures forall e :: e in listing && e.routine.enabled ==> EntryKey(e.ref) in Wanted(listing)
  {
    if listing != [] {
      WantedIsListed(listing[..|listing| - 1]);
      assert listing == listing[..|listing| - 1] + [listing[|listing| - 1]];
    }
  }
}
