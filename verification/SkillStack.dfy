/** Loaded skills (skill/stack.go, tools/skill.go) and how runs restore them from the event log of their
    session (runner/model.go), which they share with the runs they start. */
module SkillStack {
  import opened SkillCatalog
  import opened Wrappers

  const MAX_BODY_BYTES: nat := 64 * 1024

  // ----- The stack -----

  predicate OnStack(dirs: seq<Entry>, dir: string) {
    exists i :: 0 <= i < |dirs| && dirs[i].dir == dir
  }

  /** Adds an entry unless it is there already or has no directory. */
  function Pushed(dirs: seq<Entry>, e: Entry): seq<Entry> {
    if e.dir == "" || OnStack(dirs, e.dir) then dirs else dirs + [e]
  }

  class Stack {
    var dirs: seq<Entry>

    constructor ()
      ensures dirs == []
    {
      dirs := [];
    }

    method Push(e: Entry) returns (ok: bool)
      modifies this
      ensures dirs == Pushed(old(dirs), e)
      ensures ok <==> OnStack(dirs, e.dir) && e.dir != ""
    {
      if e.dir == "" {
        return false;
      }
      for i := 0 to |dirs|
        invariant forall j :: 0 <= j < i ==> dirs[j].dir != e.dir
      {
        if dirs[i].dir == e.dir {
          return true;
        }
      }
      dirs := dirs + [e];
      assert dirs[|dirs| - 1].dir == e.dir;
      return true;
    }
  }

  // ----- Which tools the loaded skills leave -----

  predicate Permits(allowed: seq<string>, tool: string) {
    allowed == [] || tool in allowed
  }

  predicate Allows(dirs: seq<Entry>, tool: string) {
    tool == "Skill" ||
    forall e :: e in dirs && e.manifest.Some? ==> Permits(e.manifest.value.allowedTools, tool)
  }

  // ----- The log -----

  datatype LogEvent = SkillLoaded(name: string) | OtherEvent

  function First(entries: seq<Entry>, name: string): Option<Entry> {
    if entries == [] then None
    else if First(entries[..|entries| - 1], name).Some? then First(entries[..|entries| - 1], name)
    else if entries[|entries| - 1].Name() == name then Some(entries[|entries| - 1])
    else None
  }

  function Last(entries: seq<Entry>, name: string): Option<Entry> {
    if entries == [] then None
    else if entries[|entries| - 1].Name() == name then Some(entries[|entries| - 1])
    else Last(entries[..|entries| - 1], name)
  }

  /** The stack a log of loads leads to, on a fresh stack. */
  function Replay(entries: seq<Entry>, log: seq<LogEvent>): seq<Entry> {
    if log == [] then []
    else
      var before := Replay(entries, log[..|log| - 1]);
      match log[|log| - 1]
      case OtherEvent => before
      case SkillLoaded(name) =>
        var e := Last(entries, name);
        if e.Some? then Pushed(before, e.value) else before
  }

  // ----- One run, over loads and resumes -----

  datatype LoadResult = NameRequired | NoCatalog | NotInCatalog | BodyTooLarge | Loaded

  datatype State = State(dirs: seq<Entry>, log: seq<LogEvent>)

  /** Which entry a load takes, if it takes one. */
  function Loadable(entries: seq<Entry>, name: string): Option<Entry> {
    var e := First(entries, name);
    if name != "" && e.Some? && e.value.manifest.Some? && e.value.manifest.value.bodyBytes <= MAX_BODY_BYTES
    then e else None
  }

  function LoadSkill(entries: seq<Entry>, s: State, name: string): (State, LoadResult) {
    if name == "" then (s, NameRequired)
    else if entries == [] then (s, NoCatalog)
    else if First(entries, name).None? then (s, NotInCatalog)
    else if Loadable(entries, name).None? then (s, BodyTooLarge)
    else (State(Pushed(s.dirs, Loadable(entries, name).value), s.log + [SkillLoaded(name)]), Loaded)
  }

  /** A foreign load is one by another run that writes to the same log. */
  datatype Op = Load(name: string) | ForeignLoad(name: string) | LogOther | Resume

  function StepOf(entries: seq<Entry>, s: State, op: Op): State {
    match op
    case Load(name) => LoadSkill(entries, s, name).0
    case ForeignLoad(name) => State(s.dirs, s.log + [SkillLoaded(name)])
    case LogOther => State(s.dirs, s.log + [OtherEvent])
    case Resume => State(Replay(entries, s.log), s.log)
  }

  /** A run over any number of processes; each resume starts with a fresh stack. */
  function RunOf(entries: seq<Entry>, ops: seq<Op>): State {
    if ops == [] then State([], []) else StepOf(entries, RunOf(entries, ops[..|ops| - 1]), ops[|ops| - 1])
  }

  class SkillRuntime {
    const entries: seq<Entry>
    const stack: Stack
    var log: seq<LogEvent>

    ghost function Model(): State
      reads this, stack
    {
      State(stack.dirs, log)
    }

    /** A run starts with whatever the session's log says was loaded. */
    constructor (entries: seq<Entry>, log: seq<LogEvent>)
      ensures this.entries == entries && this.log == log
      ensures fresh(stack) && stack.dirs == Replay(entries, log)
    {
      this.entries, this.log := entries, log;
      stack := new Stack();
      new;
      Rehydrate(log);
    }

    method Rehydrate(events: seq<LogEvent>)
      requires stack.dirs == []
      modifies stack
      ensures stack.dirs == Replay(entries, events)
    {
      var byName: map<string, Entry> := map[];
      for i := 0 to |entries|
        invariant forall n :: Last(entries[..i], n) == if n in byName then Some(byName[n]) else None
      {
        assert entries[..i + 1][..i] == entries[..i];
        byName := byName[entries[i].Name() := entries[i]];
      }
      assert entries[..|entries|] == entries;
      for i := 0 to |events|
        invariant stack.dirs == Replay(entries, events[..i])
      {
        assert events[..i + 1][..i] == events[..i];
        if events[i].SkillLoaded? && events[i].name in byName {
          var _ := stack.Push(byName[events[i].name]);
        }
      }
      assert events[..|events|] == events;
    }

    method Find(name: string) returns (r: Option<Entry>)
      ensures r == First(entries, name)
    {
      for i := 0 to |entries|
        invariant First(entries[..i], name) == None
      {
        assert entries[..i + 1][..i] == entries[..i];
        if entries[i].Name() == name {
          FirstStays(entries, i + 1, name);
          return Some(entries[i]);
        }
      }
      assert entries[..|entries|] == entries;
      r := None;
    }

    method AllowsTool(tool: string) returns (ok: bool)
      ensures ok <==> Allows(stack.dirs, tool)
    {
      if tool == "Skill" {
        return true;
      }
      for i := 0 to |stack.dirs|
        invariant forall j :: 0 <= j < i && stack.dirs[j].manifest.Some? ==>
                                Permits(stack.dirs[j].manifest.value.allowedTools, tool)
      {
        var e := stack.dirs[i];
        if e.manifest.Some? && !Permits(e.manifest.value.allowedTools, tool) {
          return false;
        }
      }
      return true;
    }

    method Load(name: string) returns (r: LoadResult)
      modifies this, stack
      ensures (Model(), r) == LoadSkill(entries, old(Model()), name)
    {
      if name == "" {
        return NameRequired;
      }
      if |entries| == 0 {
        return NoCatalog;
      }
      var entry := Find(name);
      if entry.None? {
        return NotInCatalog;
      }
      FirstMember(entries, name);
      if entry.value.manifest.value.bodyBytes > MAX_BODY_BYTES {
        return BodyTooLarge;
      }
      var _ := stack.Push(entry.value);
      log := log + [SkillLoaded(name)];
      return Loaded;
    }
  }

  lemma {:induction false} FirstStays(entries: seq<Entry>, k: nat, name: string)
    requires k <= |entries| && First(entries[..k], name).Some?
    ensures First(entries, name) == First(entries[..k], name)
    decreases |entries|
  {
    if k < |entries| {
      assert entries[..|entries| - 1][..k] == entries[..k];
      FirstStays(entries[..|entries| - 1], k, name);
    } else {
      assert entries[..k] == entries;
    }
  }

  lemma {:induction false} FirstMember(entries: seq<Entry>, name: string)
    ensures First(entries, name).Some? <==> Last(entries, name).Some?
    ensures First(entries, name).Some? ==>
              First(entries, name).value in entries && First(entries, name).value.Name() == name
    ensures Last(entries, name).Some? ==>
              Last(entries, name).value in entries && Last(entries, name).value.Name() == name
  {
    if entries != [] {
      FirstMember(entries[..|entries| - 1], name);
      assert entries == entries[..|entries| - 1] + [entries[|entries| - 1]];
    }
  }

  // ----- What a load does -----

  ghost predicate FirstOfName(entries: seq<Entry>, name: string, i: nat) {
    && i < |entries| && entries[i].Name() == name
    && forall j :: 0 <= j < i ==> entries[j].Name() != name
  }

  ghost predicate LastOfName(entries: seq<Entry>, name: string, i: nat) {
    && i < |entries| && entries[i].Name() == name
    && forall j :: i < j < |entries| ==> entries[j].Name() != name
  }

  ghost predicate NoneOfName(entries: seq<Entry>, name: string) {
    forall j :: 0 <= j < |entries| ==> entries[j].Name() != name
  }

  lemma {:induction false} FirstIs(entries: seq<Entry>, name: string) returns (i: nat)
    ensures if First(entries, name).Some?
            then FirstOfName(entries, name, i) && First(entries, name) == Some(entries[i])
            else NoneOfName(entries, name)
  {
    i := 0;
    if entries != [] {
      i := FirstIs(entries[..|entries| - 1], name);
      if First(entries[..|entries| - 1], name).None? {
        i := |entries| - 1;
      }
    }
  }

  lemma {:induction false} LastIs(entries: seq<Entry>, name: string) returns (i: nat)
    ensures if Last(entries, name).Some?
            then LastOfName(entries, name, i) && Last(entries, name) == Some(entries[i])
            else NoneOfName(entries, name)
  {
    i := 0;
    if entries != [] {
      if entries[|entries| - 1].Name() == name {
        i := |entries| - 1;
      } else {
        i := LastIs(entries[..|entries| - 1], name);
      }
    }
  }

  /** A load takes the first entry of the name, if that has a manifest with a body of at most 64 KiB. It is then
      logged, and stacked unless it has no directory or one that is on the stack. */
  lemma LoadMeans(entries: seq<Entry>, s: State, name: string) returns (i: nat)
    ensures var (t, result) := LoadSkill(entries, s, name);
            && (result == NameRequired <==> name == "")
            && (result == NoCatalog <==> name != "" && entries == [])
            && (result == NotInCatalog <==> name != "" && entries != [] && NoneOfName(entries, name))
            && (result == Loaded || result == BodyTooLarge ==> name != "" && FirstOfName(entries, name, i))
            && (result == Loaded ==>
                  && entries[i].manifest.Some? && entries[i].manifest.value.bodyBytes <= 65_536
                  && t.log == s.log + [SkillLoaded(name)]
                  && t.dirs == if entries[i].dir == "" || exists d :: d in s.dirs && d.dir == entries[i].dir
                               then s.dirs else s.dirs + [entries[i]])
            && (result == BodyTooLarge ==>
                  entries[i].manifest.None? || entries[i].manifest.value.bodyBytes > 65_536)
            && (result != Loaded ==> t == s)
  {
    hide First, Last;
    i := FirstIs(entries, name);
  }

  // ----- The stack equals its history -----

  ghost predicate DistinctDirs(dirs: seq<Entry>) {
    && (forall i :: 0 <= i < |dirs| ==> dirs[i].dir != "")
    && (forall i, j :: 0 <= i < j < |dirs| ==> dirs[i].dir != dirs[j].dir)
  }

  /** What a load takes first and what a resume takes last of a name are the same skill, or neither
      can be stacked. */
  ghost predicate Unambiguous(entries: seq<Entry>) {
    forall name :: Loadable(entries, name).Some? ==>
                     First(entries, name) == Last(entries, name)
                     || (First(entries, name).value.dir == ""
                         && Last(entries, name).Some? && Last(entries, name).value.dir == "")
  }

  lemma ReplayAppend(entries: seq<Entry>, log: seq<LogEvent>, e: LogEvent)
    ensures Replay(entries, log + [e]) ==
              if e.SkillLoaded? && Last(entries, e.name).Some?
              then Pushed(Replay(entries, log), Last(entries, e.name).value) else Replay(entries, log)
  {
    assert (log + [e])[..|log|] == log;
  }

  lemma LoadKeepsReplay(entries: seq<Entry>, s: State, name: string)
    requires Unambiguous(entries) && s.dirs == Replay(entries, s.log)
    ensures var t := LoadSkill(entries, s, name).0; t.dirs == Replay(entries, t.log)
  {
    ReplayAppend(entries, s.log, SkillLoaded(name));
    FirstMember(entries, name);
    if Loadable(entries, name).Some? {
      assert Loadable(entries, name) == First(entries, name);
    }
  }

  /** The foreign loads are all of the given names. */
  ghost predicate DrawnFrom(ops: seq<Op>, others: iset<string>) {
    forall i :: 0 <= i < |ops| && ops[i].ForeignLoad? ==> ops[i].name in others
  }

  /** Replaying a load of the name changes no stack: the run does not know it or cannot stack it. */
  predicate Ignored(entries: seq<Entry>, name: string) {
    Last(entries, name).None? || Last(entries, name).value.dir == ""
  }

  ghost predicate AllIgnored(entries: seq<Entry>, others: iset<string>) {
    forall n :: n in others ==> Ignored(entries, n)
  }

  lemma {:induction false} StackIsReplay(entries: seq<Entry>, others: iset<string>, ops: seq<Op>)
    requires Unambiguous(entries) && AllIgnored(entries, others) && DrawnFrom(ops, others)
    ensures RunOf(entries, ops).dirs == Replay(entries, RunOf(entries, ops).log)
  {
    hide Unambiguous, First, Last, Pushed;
    if ops != [] {
      var front, last := ops[..|ops| - 1], ops[|ops| - 1];
      StackIsReplay(entries, others, front);
      match last {
        case Load(name) => LoadKeepsReplay(entries, RunOf(entries, front), name);
        case ForeignLoad(name) => IgnoredKeepsReplay(entries, RunOf(entries, front).log, name);
        case LogOther => ReplayAppend(entries, RunOf(entries, front).log, OtherEvent);
        case Resume =>
      }
    }
  }

  lemma IgnoredKeepsReplay(entries: seq<Entry>, log: seq<LogEvent>, name: string)
    requires Ignored(entries, name)
    ensures Replay(entries, log + [SkillLoaded(name)]) == Replay(entries, log)
  {
    hide Last, Replay;
    ReplayAppend(entries, log, SkillLoaded(name));
  }

  /** Over every history of loads, foreign loads and resumes the live stack equals the replay of the log,
      exactly if no loadable name is ambiguous and every name that other runs may load is ignored. */
  lemma StackIsReplayIff(entries: seq<Entry>, others: iset<string>)
    ensures (forall ops | DrawnFrom(ops, others) ::
               RunOf(entries, ops).dirs == Replay(entries, RunOf(entries, ops).log))
            <==> Unambiguous(entries) && AllIgnored(entries, others)
  {
    hide RunOf, Replay, Ignored, Unambiguous;
    if !Unambiguous(entries) {
      var name := AmbiguousName(entries);
      LoadDeceives(entries, name);
      assert DrawnFrom([Load(name)], others);
    } else if n :| n in others && !Ignored(entries, n) {
      ForeignLoadDeceives(entries, n);
      assert DrawnFrom([ForeignLoad(n)], others);
    } else {
      forall ops | DrawnFrom(ops, others) ensures RunOf(entries, ops).dirs == Replay(entries, RunOf(entries, ops).log) {
        StackIsReplay(entries, others, ops);
      }
    }
  }

  /** Another run's load shows in the replay and not on the live stack. */
  lemma ForeignLoadDeceives(entries: seq<Entry>, name: string)
    requires !Ignored(entries, name)
    ensures RunOf(entries, [ForeignLoad(name)]) == State([], [SkillLoaded(name)])
    ensures Replay(entries, [SkillLoaded(name)]) == [Last(entries, name).value]
  {
    hide Last;
    assert [ForeignLoad(name)][..0] == [] && RunOf(entries, []) == State([], []);
    assert [] + [SkillLoaded(name)] == [SkillLoaded(name)];
    ReplayedFirst(entries, name);
  }

  lemma AmbiguousName(entries: seq<Entry>) returns (name: string)
    requires !Unambiguous(entries)
    ensures Loadable(entries, name).Some? && Last(entries, name).Some? && First(entries, name) != Last(entries, name)
    ensures First(entries, name).value.dir != "" || Last(entries, name).value.dir != ""
  {
    name :| Loadable(entries, name).Some? && First(entries, name) != Last(entries, name)
            && !(First(entries, name).value.dir == ""
                 && Last(entries, name).Some? && Last(entries, name).value.dir == "");
    FirstMember(entries, name);
  }

  function OnFresh(e: Entry): seq<Entry> {
    if e.dir == "" then [] else [e]
  }

  lemma PushedOnFresh(e: Entry)
    ensures Pushed([], e) == OnFresh(e)
  {
    assert [] + [e] == [e];
  }

  lemma FreshDiffers(a: Entry, b: Entry)
    requires a != b && (a.dir != "" || b.dir != "")
    ensures OnFresh(a) != OnFresh(b)
  {
    assert a.dir != "" ==> OnFresh(a)[0] == a;
    assert b.dir != "" ==> OnFresh(b)[0] == b;
  }

  /** A first load, live. */
  lemma LoadedFirst(entries: seq<Entry>, name: string)
    requires Loadable(entries, name).Some?
    ensures RunOf(entries, [Load(name)]) == State(OnFresh(First(entries, name).value), [SkillLoaded(name)])
  {
    hide First, Last, Pushed, OnFresh;
    var e := Loadable(entries, name).value;
    assert [Load(name)][..0] == [] && RunOf(entries, []) == State([], []);
    assert entries != [] by { FirstMember(entries, name); }
    PushedOnFresh(e);
    assert [] + [SkillLoaded(name)] == [SkillLoaded(name)];
  }

  /** The same load, replayed from the log. */
  lemma ReplayedFirst(entries: seq<Entry>, name: string)
    requires Last(entries, name).Some?
    ensures Replay(entries, [SkillLoaded(name)]) == OnFresh(Last(entries, name).value)
  {
    hide Last, Pushed, OnFresh;
    assert [SkillLoaded(name)][..0] == [] && Replay(entries, []) == [];
    PushedOnFresh(Last(entries, name).value);
  }

  lemma LoadDeceives(entries: seq<Entry>, name: string)
    requires Loadable(entries, name).Some? && Last(entries, name).Some? && First(entries, name) != Last(entries, name)
    requires First(entries, name).value.dir != "" || Last(entries, name).value.dir != ""
    ensures var s := RunOf(entries, [Load(name)]); s.dirs != Replay(entries, s.log)
  {
    hide First, Last, RunOf, Replay;
    LoadedFirst(entries, name);
    ReplayedFirst(entries, name);
    assert First(entries, name).Some?;
    FreshDiffers(First(entries, name).value, Last(entries, name).value);
  }

  /** The skills an agent is shown, which have unique names, are not ambiguous. */
  lemma {:induction false} UniqueNamesUnambiguous(entries: seq<Entry>, name: string)
    requires UniqueNames(entries)
    ensures First(entries, name) == Last(entries, name)
  {
    if entries != [] {
      var front := entries[..|entries| - 1];
      UniqueNamesUnambiguous(front, name);
      FirstMember(front, name);
    }
  }

  /** What a catalog shows an agent. */
  ghost function Shown(found: seq<Entry>, opts: FilterOptions): seq<Entry> {
    Filtered(Sorting.StableSort(Resolved(found), EntryLe), opts)
  }

  lemma ShownIsUnambiguous(found: seq<Entry>, opts: FilterOptions)
    requires NoneShadowed(found)
    ensures UniqueNames(Shown(found, opts)) && Unambiguous(Shown(found, opts))
    ensures forall name :: First(Shown(found, opts), name) == Last(Shown(found, opts), name)
  {
    hide Filtered, Resolved, UniqueNames;
    FilterSelectsWinners(found, opts);
    forall name ensures First(Shown(found, opts), name) == Last(Shown(found, opts), name) {
      UniqueNamesUnambiguous(Shown(found, opts), name);
    }
  }

  /** For what a catalog shows an agent, the stack always equals the replay of the log, exactly if no skill
      shown that has a directory can be loaded by another run of the session. */
  lemma CatalogStackIsReplayIff(found: seq<Entry>, opts: FilterOptions, others: iset<string>)
    requires NoneShadowed(found)
    ensures var entries := Shown(found, opts);
            (forall ops | DrawnFrom(ops, others) ::
               RunOf(entries, ops).dirs == Replay(entries, RunOf(entries, ops).log))
            <==> forall e :: e in entries && e.Name() in others ==> e.dir == ""
  {
    hide Unambiguous, UniqueNames, RunOf, Replay, First, Last, Shown;
    var entries := Shown(found, opts);
    ShownIsUnambiguous(found, opts);
    StackIsReplayIff(entries, others);
    forall e | e in entries ensures Last(entries, e.Name()) == Some(e) {
      OnlyOfItsName(entries, e);
    }
    forall n | Last(entries, n).Some? ensures Last(entries, n).value in entries && Last(entries, n).value.Name() == n {
      FirstMember(entries, n);
    }
  }

  lemma {:induction false} OnlyOfItsName(entries: seq<Entry>, e: Entry)
    requires UniqueNames(entries) && e in entries
    ensures Last(entries, e.Name()) == Some(e)
  {
    var front, last := entries[..|entries| - 1], entries[|entries| - 1];
    if last != e {
      assert entries == front + [last];
      assert e in front && last.Name() != e.Name();
      OnlyOfItsName(front, e);
    }
  }

  // ----- Nothing loaded is ever lost -----

  lemma {:induction false} ReplayDistinct(entries: seq<Entry>, log: seq<LogEvent>)
    ensures DistinctDirs(Replay(entries, log))
  {
    if log != [] {
      ReplayDistinct(entries, log[..|log| - 1]);
    }
  }

  lemma {:induction false} StackDistinct(entries: seq<Entry>, ops: seq<Op>)
    ensures DistinctDirs(RunOf(entries, ops).dirs)
  {
    if ops != [] {
      StackDistinct(entries, ops[..|ops| - 1]);
      ReplayDistinct(entries, RunOf(entries, ops[..|ops| - 1]).log);
    }
  }

  ghost predicate Included(a: seq<Entry>, b: seq<Entry>) {
    forall e :: e in a ==> e in b
  }

  /** A load of the name can stand in the log without ever having reached the live stack. */
  ghost predicate Unseen(entries: seq<Entry>, others: iset<string>, name: string) {
    && !Ignored(entries, name)
    && (name in others || (Loadable(entries, name).Some? && First(entries, name).value.dir == ""))
  }

  /** What a load stacks is what a replay stacks, and no unseen load puts another skill in its directory. */
  ghost predicate Steady(entries: seq<Entry>, others: iset<string>) {
    && (forall m :: Stackable(entries, m) ==> First(entries, m) == Last(entries, m))
    && forall u, m :: Unseen(entries, others, u) && Stackable(entries, m)
                      && Last(entries, u).value.dir == First(entries, m).value.dir ==>
                      Last(entries, u) == First(entries, m)
  }

  predicate Stackable(entries: seq<Entry>, name: string) {
    Loadable(entries, name).Some? && First(entries, name).value.dir != ""
  }

  /** Everything live is replayed, and what is replayed besides comes from unseen loads. */
  ghost predicate Covered(entries: seq<Entry>, others: iset<string>, dirs: seq<Entry>, replay: seq<Entry>) {
    && Included(dirs, replay)
    && forall e :: e in replay ==> OnStack(dirs, e.dir) || FromUnseen(entries, others, e)
  }

  ghost predicate FromUnseen(entries: seq<Entry>, others: iset<string>, e: Entry) {
    exists u :: Unseen(entries, others, u) && Last(entries, u) == Some(e)
  }

  lemma PushedMembers(dirs: seq<Entry>, e: Entry)
    ensures Included(dirs, Pushed(dirs, e))
    ensures forall x :: x in Pushed(dirs, e) ==> x in dirs || x == e
    ensures forall dir :: OnStack(dirs, dir) ==> OnStack(Pushed(dirs, e), dir)
    ensures e.dir != "" ==> OnStack(Pushed(dirs, e), e.dir)
    ensures if e.dir == "" || OnStack(dirs, e.dir) then Pushed(dirs, e) == dirs else e in Pushed(dirs, e)
  {
    var more := dirs + [e];
    assert forall i :: 0 <= i < |dirs| ==> more[i] == dirs[i];
    assert more[|dirs|] == e;
  }

  /** A load that both the live stack and the replay take. */
  lemma CoveredByBoth(entries: seq<Entry>, others: iset<string>, dirs: seq<Entry>, replay: seq<Entry>, m: string)
    requires Covered(entries, others, dirs, replay) && Steady(entries, others) && Stackable(entries, m)
    ensures var e := First(entries, m).value; Covered(entries, others, Pushed(dirs, e), Pushed(replay, e))
  {
    hide First, Last, Pushed;
    var e := First(entries, m).value;
    PushedMembers(dirs, e);
    PushedMembers(replay, e);
    if !OnStack(dirs, e.dir) && OnStack(replay, e.dir) {
      var i :| 0 <= i < |replay| && replay[i].dir == e.dir;
      assert replay[i] in replay && FromUnseen(entries, others, replay[i]);
      var u :| Unseen(entries, others, u) && Last(entries, u) == Some(replay[i]);
      assert replay[i] == e;
    }
  }

  /** A load that only the replay takes. */
  lemma CoveredByReplay(entries: seq<Entry>, others: iset<string>, dirs: seq<Entry>, replay: seq<Entry>, u: string)
    requires Covered(entries, others, dirs, replay) && Unseen(entries, others, u)
    ensures Covered(entries, others, dirs, Pushed(replay, Last(entries, u).value))
  {
    hide First, Last, Pushed, Loadable;
    PushedMembers(replay, Last(entries, u).value);
  }

  lemma LoadKeepsCovered(entries: seq<Entry>, others: iset<string>, s: State, name: string)
    requires Steady(entries, others) && Covered(entries, others, s.dirs, Replay(entries, s.log))
    ensures var t := LoadSkill(entries, s, name).0; Covered(entries, others, t.dirs, Replay(entries, t.log))
  {
    hide First, Last, Covered, Replay;
    FirstMember(entries, name);
    ReplayAppend(entries, s.log, SkillLoaded(name));
    if Stackable(entries, name) {
      CoveredByBoth(entries, others, s.dirs, Replay(entries, s.log), name);
    } else if Loadable(entries, name).Some? && !Ignored(entries, name) {
      CoveredByReplay(entries, others, s.dirs, Replay(entries, s.log), name);
    }
  }

  lemma ForeignKeepsCovered(
    entries: seq<Entry>, others: iset<string>, dirs: seq<Entry>, log: seq<LogEvent>, name: string)
    requires name in others && Covered(entries, others, dirs, Replay(entries, log))
    ensures Covered(entries, others, dirs, Replay(entries, log + [SkillLoaded(name)]))
  {
    hide First, Last, Covered, Replay;
    if Ignored(entries, name) {
      IgnoredKeepsReplay(entries, log, name);
    } else {
      ReplayAppend(entries, log, SkillLoaded(name));
      CoveredByReplay(entries, others, dirs, Replay(entries, log), name);
    }
  }

  lemma ReplayCoversItself(entries: seq<Entry>, others: iset<string>, dirs: seq<Entry>)
    ensures Covered(entries, others, dirs, dirs)
  {
  }

  lemma {:induction false} StackIsCovered(entries: seq<Entry>, others: iset<string>, ops: seq<Op>)
    requires Steady(entries, others) && DrawnFrom(ops, others)
    ensures Covered(entries, others, RunOf(entries, ops).dirs, Replay(entries, RunOf(entries, ops).log))
  {
    hide Steady, Covered, Replay, LoadSkill;
    if ops == [] {
      assert Replay(entries, []) == [] by { NothingReplayed(entries); }
      ReplayCoversItself(entries, others, []);
    } else {
      var s, last := RunOf(entries, ops[..|ops| - 1]), ops[|ops| - 1];
      StackIsCovered(entries, others, ops[..|ops| - 1]);
      match last {
        case Load(name) => LoadKeepsCovered(entries, others, s, name);
        case ForeignLoad(name) => ForeignKeepsCovered(entries, others, s.dirs, s.log, name);
        case LogOther => ReplayAppend(entries, s.log, OtherEvent);
        case Resume => ReplayCoversItself(entries, others, Replay(entries, s.log));
      }
    }
  }

  lemma NothingReplayed(entries: seq<Entry>)
    ensures Replay(entries, []) == []
  {
  }

  lemma {:induction false} StackGrows(entries: seq<Entry>, others: iset<string>, ops: seq<Op>, more: seq<Op>)
    requires Steady(entries, others) && DrawnFrom(ops + more, others)
    ensures Included(RunOf(entries, ops).dirs, RunOf(entries, ops + more).dirs)
    decreases |more|
  {
    hide Steady, Replay, First, Loadable;
    if more == [] {
      assert ops + more == ops;
    } else {
      var front, last := more[..|more| - 1], more[|more| - 1];
      assert (ops + more)[..|ops + more| - 1] == ops + front;
      StackGrows(entries, others, ops, front);
      var s := RunOf(entries, ops + front);
      StackIsCovered(entries, others, ops + front);
      if last.Load? && Loadable(entries, last.name).Some? {
        PushedMembers(s.dirs, Loadable(entries, last.name).value);
      }
    }
  }

  /** Nothing loaded is ever lost, over loads, foreign loads and resumes, exactly if the skills are steady. */
  lemma StackGrowsIff(entries: seq<Entry>, others: iset<string>)
    ensures (forall ops, more | DrawnFrom(ops + more, others) ::
               Included(RunOf(entries, ops).dirs, RunOf(entries, ops + more).dirs))
            <==> Steady(entries, others)
  {
    hide RunOf, Included, First, Last;
    if Steady(entries, others) {
      forall ops, more | DrawnFrom(ops + more, others)
        ensures Included(RunOf(entries, ops).dirs, RunOf(entries, ops + more).dirs)
      {
        StackGrows(entries, others, ops, more);
      }
    } else if m :| Stackable(entries, m) && First(entries, m) != Last(entries, m) {
      ResumeSwaps(entries, others, m);
    } else {
      var u, m :| Unseen(entries, others, u) && Stackable(entries, m)
                  && Last(entries, u).value.dir == First(entries, m).value.dir
                  && Last(entries, u) != First(entries, m);
      UnseenSwaps(entries, others, u, m);
    }
  }

  /** A resume that puts another skill of the same name in the place of a loaded one. */
  lemma ResumeSwaps(entries: seq<Entry>, others: iset<string>, m: string)
    requires Stackable(entries, m) && First(entries, m) != Last(entries, m)
    ensures DrawnFrom([Load(m)] + [Resume], others)
    ensures !Included(RunOf(entries, [Load(m)]).dirs, RunOf(entries, [Load(m)] + [Resume]).dirs)
  {
    hide First, Last, Replay;
    FirstMember(entries, m);
    LoadedFirst(entries, m);
    ReplayedFirst(entries, m);
    assert ([Load(m)] + [Resume])[..1] == [Load(m)];
    assert First(entries, m).value in RunOf(entries, [Load(m)]).dirs;
  }

  /** A resume that puts an unseen skill of the same directory in the place of a loaded one. */
  lemma UnseenSwaps(entries: seq<Entry>, others: iset<string>, u: string, m: string)
    requires Unseen(entries, others, u) && Stackable(entries, m) && First(entries, m) == Last(entries, m)
    requires Last(entries, u).value.dir == First(entries, m).value.dir && Last(entries, u) != First(entries, m)
    ensures exists ops :: DrawnFrom(ops + [Resume], others)
                       && !Included(RunOf(entries, ops).dirs, RunOf(entries, ops + [Resume]).dirs)
  {
    hide First, Last, Replay, RunOf;
    var first := if u in others then ForeignLoad(u) else Load(u);
    var ops := [first, Load(m)];
    assert RunOf(entries, [first]) == State([], [SkillLoaded(u)]) by {
      if u in others { ForeignLoadDeceives(entries, u); } else { LoadedFirst(entries, u); }
    }
    var a, b := Last(entries, u).value, First(entries, m).value;
    FirstMember(entries, m);
    ReplayedFirst(entries, u);
    ThenLoaded(entries, first, u, m);
    assert [a][0].dir == b.dir && OnStack([a], b.dir);
    assert Replay(entries, [SkillLoaded(u)] + [SkillLoaded(m)]) == [a] by {
      ReplayAppend(entries, [SkillLoaded(u)], SkillLoaded(m));
    }
    ResumeReplays(entries, ops);
    assert b in [b] && b !in [a];
  }

  lemma ThenLoaded(entries: seq<Entry>, first: Op, u: string, m: string)
    requires RunOf(entries, [first]) == State([], [SkillLoaded(u)]) && Stackable(entries, m)
    ensures RunOf(entries, [first, Load(m)]) ==
              State([First(entries, m).value], [SkillLoaded(u)] + [SkillLoaded(m)])
  {
    hide First, Last;
    assert [first, Load(m)][..1] == [first];
    assert entries != [] by { FirstMember(entries, m); }
    PushedOnFresh(First(entries, m).value);
  }

  lemma ResumeReplays(entries: seq<Entry>, ops: seq<Op>)
    ensures RunOf(entries, ops + [Resume]).dirs == Replay(entries, RunOf(entries, ops).log)
  {
    assert (ops + [Resume])[..|ops|] == ops;
  }

  /** It does not grow at its end: what another run loaded first comes before what the run has. */
  lemma ResumeReorders(entries: seq<Entry>, a: string, b: string)
    requires Stackable(entries, a) && First(entries, a) == Last(entries, a) && !Ignored(entries, b)
    requires First(entries, a).value.dir != Last(entries, b).value.dir
    ensures var ops := [ForeignLoad(b), Load(a)];
            && RunOf(entries, ops).dirs == [First(entries, a).value]
            && RunOf(entries, ops + [Resume]).dirs == [Last(entries, b).value, First(entries, a).value]
  {
    hide First, Last, RunOf, Replay;
    ForeignLoadDeceives(entries, b);
    ThenLoaded(entries, ForeignLoad(b), b, a);
    ReplayAppend(entries, [SkillLoaded(b)], SkillLoaded(a));
    ResumeReplays(entries, [ForeignLoad(b), Load(a)]);
    assert [Last(entries, b).value] + [First(entries, a).value] == [Last(entries, b).value, First(entries, a).value];
  }

  /** So, where the skills are steady, the allowed tools only shrink, and Skill itself stays allowed. */
  lemma ToolsOnlyShrink(entries: seq<Entry>, others: iset<string>, ops: seq<Op>, more: seq<Op>, tool: string)
    requires Steady(entries, others) && DrawnFrom(ops + more, others)
    ensures Allows(RunOf(entries, ops + more).dirs, tool) ==> Allows(RunOf(entries, ops).dirs, tool)
    ensures Allows(RunOf(entries, ops).dirs, "Skill")
  {
    hide Steady, RunOf;
    StackGrows(entries, others, ops, more);
  }

  /** The skills found in one directory have one name, since they have one manifest. */
  ghost predicate OneNamePerDir(found: seq<Entry>) {
    forall i, j :: 0 <= i < |found| && 0 <= j < |found| && found[i].dir == found[j].dir ==>
                     found[i].Name() == found[j].Name()
  }

  /** What a catalog shows an agent is steady, whatever other runs load. */
  lemma CatalogIsSteady(found: seq<Entry>, opts: FilterOptions, others: iset<string>)
    requires NoneShadowed(found) && OneNamePerDir(found)
    ensures Steady(Shown(found, opts), others)
  {
    hide First, Last, Shown, UniqueNames;
    var entries := Shown(found, opts);
    ShownIsUnambiguous(found, opts);
    forall u, m | Unseen(entries, others, u) && Stackable(entries, m)
                  && Last(entries, u).value.dir == First(entries, m).value.dir
      ensures Last(entries, u) == First(entries, m)
    {
      FirstMember(entries, u);
      FirstMember(entries, m);
      SameDirSameName(found, opts, Last(entries, u).value, First(entries, m).value);
    }
  }

  lemma SameDirSameName(found: seq<Entry>, opts: FilterOptions, a: Entry, b: Entry)
    requires NoneShadowed(found) && OneNamePerDir(found)
    requires a in Shown(found, opts) && b in Shown(found, opts) && a.dir == b.dir
    ensures a.Name() == b.Name()
  {
    hide Filtered, Resolved, UniqueNames, Wins;
    FilterSelectsWinners(found, opts);
    var i :| 0 <= i < |found| && Wins(found, i) && a == found[i];
    var j :| 0 <= j < |found| && Wins(found, j) && b == found[j];
  }

  // ----- Whole sessions: runs that share one log -----

  /** A run starts or is resumed, or it loads a skill. Tasks, shards and stages are runs of the same session. */
  datatype SessionOp = Start(run: nat) | LoadIn(run: nat, name: string) | LogElse

  /** The stacks of the runs that were started, and the log they share. */
  datatype Session = Session(stacks: map<nat, seq<Entry>>, log: seq<LogEvent>)

  function SessionStep(agents: nat -> seq<Entry>, s: Session, op: SessionOp): Session {
    match op
    case Start(r) => Session(s.stacks[r := Replay(agents(r), s.log)], s.log)
    case LogElse => Session(s.stacks, s.log + [OtherEvent])
    case LoadIn(r, name) =>
      if r !in s.stacks then s
      else
        var t := LoadSkill(agents(r), State(s.stacks[r], s.log), name).0;
        Session(s.stacks[r := t.dirs], t.log)
  }

  function SessionOf(agents: nat -> seq<Entry>, ops: seq<SessionOp>): Session {
    if ops == [] then Session(map[], [])
    else SessionStep(agents, SessionOf(agents, ops[..|ops| - 1]), ops[|ops| - 1])
  }

  /** The session as one of its runs sees it. */
  function Seen(agents: nat -> seq<Entry>, r: nat, ops: seq<SessionOp>): seq<Op> {
    if ops == [] then []
    else
      var front := ops[..|ops| - 1];
      Seen(agents, r, front) + SeenAs(agents, r, SessionOf(agents, front), ops[|ops| - 1])
  }

  function SeenAs(agents: nat -> seq<Entry>, r: nat, s: Session, op: SessionOp): seq<Op> {
    match op
    case Start(q) => if q == r then [Resume] else []
    case LogElse => [LogOther]
    case LoadIn(q, name) =>
      if q !in s.stacks then []
      else if q == r then [Load(name)]
      else if CanLoad(agents, q, name) then [ForeignLoad(name)]
      else []
  }

  /** What the other runs of the session can load. */
  ghost function LoadableElsewhere(agents: nat -> seq<Entry>, r: nat): iset<string> {
    iset n | Elsewhere(agents, r, n)
  }

  ghost predicate Elsewhere(agents: nat -> seq<Entry>, r: nat, name: string) {
    exists q: nat :: q != r && CanLoad(agents, q, name)
  }

  predicate CanLoad(agents: nat -> seq<Entry>, q: nat, name: string) {
    Loadable(agents(q), name).Some?
  }

  lemma RunOfOne(entries: seq<Entry>, ops: seq<Op>, op: Op)
    ensures RunOf(entries, ops + [op]) == StepOf(entries, RunOf(entries, ops), op)
  {
    assert (ops + [op])[..|ops|] == ops;
  }

  lemma LoadLogs(entries: seq<Entry>, s: State, name: string)
    ensures LoadSkill(entries, s, name).0.log ==
              if Loadable(entries, name).Some? then s.log + [SkillLoaded(name)] else s.log
  {
    FirstMember(entries, name);
  }

  /** The stack and the log as a run of the session has them. */
  function View(s: Session, r: nat): State {
    State(if r in s.stacks then s.stacks[r] else [], s.log)
  }

  lemma StepIsSeen(agents: nat -> seq<Entry>, r: nat, s: Session, op: SessionOp)
    ensures var seen := SeenAs(agents, r, s, op);
            && |seen| <= 1 && DrawnFrom(seen, LoadableElsewhere(agents, r))
            && View(SessionStep(agents, s, op), r) ==
                 if seen == [] then View(s, r) else StepOf(agents(r), View(s, r), seen[0])
  {
    hide LoadSkill, Replay, Loadable;
    if op.LoadIn? && op.run in s.stacks {
      LoadLogs(agents(op.run), State(s.stacks[op.run], s.log), op.name);
      assert CanLoad(agents, op.run, op.name) <==> Loadable(agents(op.run), op.name).Some?;
    }
  }

  /** Each run of a session is a run as studied above; the loads of the others are its foreign loads. */
  lemma {:induction false} SessionIsSeen(agents: nat -> seq<Entry>, r: nat, ops: seq<SessionOp>)
    ensures DrawnFrom(Seen(agents, r, ops), LoadableElsewhere(agents, r))
    ensures View(SessionOf(agents, ops), r) == RunOf(agents(r), Seen(agents, r, ops))
  {
    hide SessionStep, StepOf, SeenAs, View, LoadableElsewhere;
    if ops == [] {
      NothingSeen(agents, r);
    } else {
      var front, last := ops[..|ops| - 1], ops[|ops| - 1];
      SessionIsSeen(agents, r, front);
      StepIsSeen(agents, r, SessionOf(agents, front), last);
      var seen, more := Seen(agents, r, front), SeenAs(agents, r, SessionOf(agents, front), last);
      if more == [] {
        assert seen + more == seen;
      } else {
        assert more == [more[0]];
        RunOfOne(agents(r), seen, more[0]);
      }
    }
  }

  lemma NothingSeen(agents: nat -> seq<Entry>, r: nat)
    ensures View(SessionOf(agents, []), r) == RunOf(agents(r), [])
  {
  }

  ghost predicate StacksAreReplays(agents: nat -> seq<Entry>, ops: seq<SessionOp>) {
    var s := SessionOf(agents, ops);
    forall r :: r in s.stacks ==> s.stacks[r] == Replay(agents(r), s.log)
  }

  /** In every session each run's live stack equals what a resume would rebuild from the shared log,
      exactly if no run's names are ambiguous and no run can load what another one can stack. */
  lemma SessionStacksIff(agents: nat -> seq<Entry>)
    ensures (forall ops :: StacksAreReplays(agents, ops)) <==>
            forall r :: Unambiguous(agents(r)) && AllIgnored(agents(r), LoadableElsewhere(agents, r))
  {
    hide Unambiguous, AllIgnored, LoadableElsewhere, SessionOf, Replay, Seen;
    if r :| !(Unambiguous(agents(r)) && AllIgnored(agents(r), LoadableElsewhere(agents, r))) {
      var ops := SomeRunDiffers(agents, r);
    } else {
      forall ops ensures StacksAreReplays(agents, ops) {
        forall r | r in SessionOf(agents, ops).stacks
          ensures SessionOf(agents, ops).stacks[r] == Replay(agents(r), SessionOf(agents, ops).log)
        {
          SessionIsSeen(agents, r, ops);
          StackIsReplay(agents(r), LoadableElsewhere(agents, r), Seen(agents, r, ops));
        }
      }
    }
  }

  lemma SomeRunDiffers(agents: nat -> seq<Entry>, r: nat) returns (ops: seq<SessionOp>)
    requires !(Unambiguous(agents(r)) && AllIgnored(agents(r), LoadableElsewhere(agents, r)))
    ensures !StacksAreReplays(agents, ops)
  {
    hide First, Last, Ignored, LoadSkill, Unambiguous;
    if !Unambiguous(agents(r)) {
      var name := AmbiguousName(agents(r));
      LoadDeceives(agents(r), name);
      RunOfOne(agents(r), [], Load(name));
      assert [] + [Load(name)] == [Load(name)];
      ops := [Start(r), LoadIn(r, name)];
      OneRunLoads(agents, r, name);
    } else {
      var n :| n in LoadableElsewhere(agents, r) && !Ignored(agents(r), n);
      assert Elsewhere(agents, r, n);
      var q: nat :| q != r && CanLoad(agents, q, n);
      ForeignLoadDeceives(agents(r), n);
      ops := [Start(r), Start(q), LoadIn(q, n)];
      OtherRunLoads(agents, r, q, n);
    }
  }

  lemma SessionOfOne(agents: nat -> seq<Entry>, ops: seq<SessionOp>, op: SessionOp)
    ensures SessionOf(agents, ops + [op]) == SessionStep(agents, SessionOf(agents, ops), op)
  {
    hide SessionStep;
    assert (ops + [op])[..|ops|] == ops;
  }

  lemma OneRunStarts(agents: nat -> seq<Entry>, r: nat)
    ensures SessionOf(agents, [Start(r)]) == Session(map[r := []], [])
  {
    assert [] + [Start(r)] == [Start(r)];
    SessionOfOne(agents, [], Start(r));
    assert SessionOf(agents, []) == Session(map[], []) && Replay(agents(r), []) == [];
  }

  lemma OneRunLoads(agents: nat -> seq<Entry>, r: nat, name: string)
    ensures var s := SessionOf(agents, [Start(r), LoadIn(r, name)]);
            var t := LoadSkill(agents(r), State([], []), name).0;
            s == Session(map[r := t.dirs], t.log)
  {
    hide LoadSkill, SessionOf;
    OneRunStarts(agents, r);
    SessionOfOne(agents, [Start(r)], LoadIn(r, name));
    assert [Start(r)] + [LoadIn(r, name)] == [Start(r), LoadIn(r, name)];
    assert forall dirs: seq<Entry> :: map[r := []][r := dirs] == map[r := dirs];
  }

  /** One run loads a skill while another one has an empty stack. */
  lemma OtherRunLoads(agents: nat -> seq<Entry>, r: nat, q: nat, name: string)
    requires q != r && Loadable(agents(q), name).Some?
    ensures var s := SessionOf(agents, [Start(r), Start(q), LoadIn(q, name)]);
            r in s.stacks && s.stacks[r] == [] && s.log == [SkillLoaded(name)]
  {
    hide LoadSkill, Loadable, SessionOf;
    OneRunStarts(agents, r);
    SessionOfOne(agents, [Start(r)], Start(q));
    assert [Start(r)] + [Start(q)] == [Start(r), Start(q)];
    SessionOfOne(agents, [Start(r), Start(q)], LoadIn(q, name));
    assert [Start(r), Start(q)] + [LoadIn(q, name)] == [Start(r), Start(q), LoadIn(q, name)];
    LoadLogs(agents(q), State([], []), name);
    assert Replay(agents(q), []) == [] && [] + [SkillLoaded(name)] == [SkillLoaded(name)];
  }

  /** In every session no run ever loses a skill it loaded, and its tools only shrink, where its skills are
      steady. */
  lemma SessionGrows(agents: nat -> seq<Entry>, r: nat, ops: seq<SessionOp>, more: seq<SessionOp>, tool: string)
    requires Steady(agents(r), LoadableElsewhere(agents, r)) && r in SessionOf(agents, ops).stacks
    ensures r in SessionOf(agents, ops + more).stacks
    ensures Included(SessionOf(agents, ops).stacks[r], SessionOf(agents, ops + more).stacks[r])
    ensures Allows(SessionOf(agents, ops + more).stacks[r], tool) ==> Allows(SessionOf(agents, ops).stacks[r], tool)
  {
    hide Steady, SessionOf, Seen, RunOf, LoadableElsewhere;
    var rest := SeenConcat(agents, r, ops, more);
    RunsStay(agents, r, ops, more);
    SessionIsSeen(agents, r, ops);
    SessionIsSeen(agents, r, ops + more);
    StackGrows(agents(r), LoadableElsewhere(agents, r), Seen(agents, r, ops), rest);
  }

  lemma {:induction false} SeenConcat(agents: nat -> seq<Entry>, r: nat, ops: seq<SessionOp>, more: seq<SessionOp>)
    returns (rest: seq<Op>)
    ensures Seen(agents, r, ops + more) == Seen(agents, r, ops) + rest
    decreases |more|
  {
    hide SessionOf, SeenAs;
    if more == [] {
      rest := [];
      assert ops + more == ops;
    } else {
      var front, last := ops + more[..|more| - 1], more[|more| - 1];
      var before := SeenConcat(agents, r, ops, more[..|more| - 1]);
      assert (ops + more)[..|ops + more| - 1] == front;
      rest := before + SeenAs(agents, r, SessionOf(agents, front), last);
    }
  }

  lemma {:induction false} RunsStay(agents: nat -> seq<Entry>, r: nat, ops: seq<SessionOp>, more: seq<SessionOp>)
    requires r in SessionOf(agents, ops).stacks
    ensures r in SessionOf(agents, ops + more).stacks
    decreases |more|
  {
    hide LoadSkill, Replay;
    if more == [] {
      assert ops + more == ops;
    } else {
      RunsStay(agents, r, ops, more[..|more| - 1]);
      assert (ops + more)[..|ops + more| - 1] == ops + more[..|more| - 1];
    }
  }

  /** A run and its task share a catalog with one skill. If the task loads it, a resume of the run finds it
      on its stack; and if the run has loaded it, the task starts with it. */
  lemma TaskSharesTheLog()
    ensures var lint := Entry(Some(Manifest("lint", ["Read"], 0)), Repo, "skills/lint", false);
            var agents := (r: nat) => [lint];
            var load := SessionOf(agents, [Start(0), Start(1), LoadIn(1, "lint")]);
            && Shown([lint], EVERYTHING) == [lint] && Unambiguous([lint])
            && 0 in load.stacks && load.stacks[0] == []
            && SessionStep(agents, load, Start(0)).stacks[0] == [lint]
            && SessionStep(agents, SessionOf(agents, [Start(0), LoadIn(0, "lint")]), Start(1)).stacks[1] == [lint]
  {
    hide SessionOf, First, Last;
    var lint := Entry(Some(Manifest("lint", ["Read"], 0)), Repo, "skills/lint", false);
    var agents := (r: nat) => [lint];
    OneSkillShown(lint);
    OneSkillLoads(lint);
    OtherRunLoads(agents, 0, 1, "lint");
    OneRunLoads(agents, 0, "lint");
    ReplayedFirst([lint], "lint");
  }

  lemma OneSkillShown(e: Entry)
    requires !e.shadowed
    ensures Shown([e], EVERYTHING) == [e] && Unambiguous([e])
  {
    assert Wins([e], 0);
    assert Resolved([e]) == [e];
    assert Sorting.StableSort([e], EntryLe) == Sorting.Insert(e, [], EntryLe) == [e];
    assert [e][..0] == [] && Filtered([], EVERYTHING) == [] && EVERYTHING.Selects(e);
    assert Filtered([e], EVERYTHING) == [] + [e];
    forall name ensures First([e], name) == Last([e], name) {
      UniqueNamesUnambiguous([e], name);
    }
  }

  lemma OneSkillLoads(e: Entry)
    requires e.manifest.Some? && e.Name() != "" && e.manifest.value.bodyBytes <= MAX_BODY_BYTES
    ensures Loadable([e], e.Name()) == Some(e) == Last([e], e.Name())
  {
    assert [e][..0] == [] && First([], e.Name()) == None;
    assert First([e], e.Name()) == Some(e);
  }
}
