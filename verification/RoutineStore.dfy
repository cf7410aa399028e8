/** Routine manifests in memory (routine/storage.go) and the reload that turns the difference between
    two snapshots into events (routine/storage_watch.go). */
module RoutineStore {
  datatype Scope = Global | Repo

  datatype Ref = Ref(scope: Scope, root: string, id: string)

  datatype Routine = Routine(
    id: string, agent: string, schedule: string, prompt: string, workingDir: string, provider: string,
    model: string, baseUrl: string, maxCost: real, maxIterations: int, vars: map<string, string>,
    enabled: bool, catchup: string)
  {
    function EffectiveCatchup(): string {
      if catchup == "" then "fire-once" else catchup
    }
  }

  datatype Entry = Entry(ref: Ref, routine: Routine)

  // ----- Keys -----

  function ScopeName(s: Scope): string {
    match s
    case Global => "global"
    case Repo => "repo"
  }

  function EntryKey(ref: Ref): string {
    ScopeName(ref.scope) + ['\0'] + ref.root + ['\0'] + ref.id
  }

  /** Keys identify references, because a repository path holds no NUL. */
  lemma EntryKeyInjective(a: Ref, b: Ref)
    requires '\0' !in a.root && '\0' !in b.root
    requires EntryKey(a) == EntryKey(b)
    ensures a == b
  {
    var ka, kb := EntryKey(a), EntryKey(b);
    var na, nb := ScopeName(a.scope), ScopeName(b.scope);
    assert ka[0] == na[0] && kb[0] == nb[0];
    assert a.scope == b.scope;
    var ra, rb := a.root + ['\0'] + a.id, b.root + ['\0'] + b.id;
    assert ka == na + ['\0'] + ra && kb == nb + ['\0'] + rb;
    assert ka[|na| + 1..] == ra && kb[|nb| + 1..] == rb;
    FirstNulSplits(a.root, a.id, b.root, b.id);
  }

  lemma FirstNulSplits(p: string, q: string, r: string, s: string)
    requires '\0' !in p && '\0' !in r && p + ['\0'] + q == r + ['\0'] + s
    ensures p == r && q == s
  {
    var k := p + ['\0'] + q;
    assert k[|p|] == '\0' && k[|r|] == '\0';
    assert forall i :: 0 <= i < |p| ==> k[i] == p[i] && p[i] in p;
    assert forall i :: 0 <= i < |r| ==> k[i] == r[i] && r[i] in r;
    assert k[..|p|] == p && k[..|r|] == r && k[|p| + 1..] == q && k[|r| + 1..] == s;
  }

  // ----- Comparing manifests -----

  /** Reading a missing key of a Go map yields the empty string. */
  function Get(m: map<string, string>, k: string): string {
    if k in m then m[k] else ""
  }

  ghost predicate MapsLookEqual(a: map<string, string>, b: map<string, string>) {
    |a| == |b| && forall k :: k in a ==> Get(b, k) == a[k]
  }

  method StringMapEqual(a: map<string, string>, b: map<string, string>) returns (r: bool)
    ensures r <==> MapsLookEqual(a, b)
  {
    if |a| != |b| {
      return false;
    }
    var rest := a.Keys;
    while rest != {}
      invariant rest <= a.Keys
      invariant forall k :: k in a && k !in rest ==> Get(b, k) == a[k]
    {
      var k :| k in rest;
      if Get(b, k) != a[k] {
        return false;
      }
      rest := rest - {k};
    }
    return true;
  }

  /** The comparison means equality against every map exactly when no value on its left is empty: an
      empty value is also what a missing key reads as. */
  lemma LooksEqualIsEqualityIff(a: map<string, string>)
    ensures (forall b :: MapsLookEqual(a, b) <==> a == b) <==> (forall k :: k in a ==> a[k] != "")
  {
    if forall k :: k in a ==> a[k] != "" {
      forall b ensures MapsLookEqual(a, b) <==> a == b {
        if MapsLookEqual(a, b) {
          NonEmptyValuesDecide(a, b);
        }
      }
    } else {
      var k :| k in a && a[k] == "";
      var b := EmptyValueDeceives(a, k);
      assert MapsLookEqual(a, b) && a != b;
    }
  }

  lemma EmptyValueDeceives(a: map<string, string>, k: string) returns (b: map<string, string>)
    requires k in a && a[k] == ""
    ensures MapsLookEqual(a, b) && a != b
  {
    var unused := FreshKey(a.Keys);
    b := (map j | j in a && j != k :: a[j])[unused := "changed"];
    assert b.Keys == a.Keys - {k} + {unused};
    assert |b.Keys| == |a.Keys|;
    assert unused in b && unused !in a;
  }

  lemma NonEmptyValuesDecide(a: map<string, string>, b: map<string, string>)
    requires MapsLookEqual(a, b) && forall k :: k in a ==> a[k] != ""
    ensures a == b
  {
    assert a.Keys <= b.Keys && |a.Keys| == |b.Keys|;
    assert b.Keys == a.Keys by {
      assert |b.Keys - a.Keys| == |b.Keys| - |a.Keys|;
    }
  }

  lemma {:induction false} FreshKey(keys: set<string>) returns (k: string)
    ensures k !in keys
    ensures forall j :: j in keys ==> |j| < |k|
    decreases keys
  {
    if keys == {} {
      k := "";
    } else {
      var j :| j in keys;
      var other := FreshKey(keys - {j});
      k := other + j + "x";
    }
  }

  /** Whether a field the scheduler cares about differs. */
  method RoutineChanged(a: Routine, b: Routine) returns (changed: bool)
    ensures changed <==> !Unchanged(a, b)
  {
    if a.schedule != b.schedule || a.agent != b.agent || a.enabled != b.enabled {
      return true;
    }
    if a.workingDir != b.workingDir || a.provider != b.provider || a.model != b.model {
      return true;
    }
    if a.prompt != b.prompt || a.maxCost != b.maxCost || a.maxIterations != b.maxIterations {
      return true;
    }
    if a.EffectiveCatchup() != b.EffectiveCatchup() {
      return true;
    }
    var same := StringMapEqual(a.vars, b.vars);
    changed := !same;
  }

  /** The same in every compared field except the variables. */
  ghost predicate Agree(a: Routine, b: Routine) {
    && a.schedule == b.schedule && a.agent == b.agent && a.enabled == b.enabled
    && a.workingDir == b.workingDir && a.provider == b.provider && a.model == b.model
    && a.prompt == b.prompt && a.maxCost == b.maxCost && a.maxIterations == b.maxIterations
    && a.EffectiveCatchup() == b.EffectiveCatchup()
  }

  ghost predicate Unchanged(a: Routine, b: Routine) {
    Agree(a, b) && MapsLookEqual(a.vars, b.vars)
  }

  /** Two edits the comparison cannot see: a new base URL, and a variable renamed while its value
      was empty. Both leave a scheduled job running with what it captured before. */
  lemma UnseenChanges(r: Routine, url: string)
    requires url != r.baseUrl
    ensures r != r.(baseUrl := url) && Unchanged(r, r.(baseUrl := url))
    ensures var a, b := r.(vars := map["x" := ""]), r.(vars := map["y" := "v"]);
            a != b && Unchanged(a, b)
  {
    var a, b: map<string, string> := map["x" := ""], map["y" := "v"];
    assert "x" in a && "x" !in b;
    assert |a| == 1 && |b| == 1;
    assert r.(vars := a).vars != r.(vars := b).vars;
    assert r.baseUrl != r.(baseUrl := url).baseUrl;
  }

  /** The default of the catch-up policy is to fire once. */
  predicate SamePolicy(a: string, b: string) {
    a == b || (a == "" && b == "fire-once") || (a == "fire-once" && b == "")
  }

  /** With no empty value among its variables, a routine counts as unchanged exactly if nothing differs but its
      id, its base URL, and how the default policy is written. */
  lemma UnchangedIff(a: Routine, b: Routine)
    requires forall k :: k in a.vars ==> a.vars[k] != ""
    ensures Unchanged(a, b) <==>
              b == a.(id := b.id, baseUrl := b.baseUrl, catchup := b.catchup) && SamePolicy(a.catchup, b.catchup)
  {
    if MapsLookEqual(a.vars, b.vars) {
      NonEmptyValuesDecide(a.vars, b.vars);
    }
  }

  // ----- Reloading -----

  type Entries = map<string, Entry>

  datatype Event =
    | Added(key: string, entry: Entry)
    | Updated(key: string, entry: Entry)
    | Removed(key: string)

  /** Every entry is stored under its own key. */
  ghost predicate Keyed(entries: Entries) {
    forall k :: k in entries ==> EntryKey(entries[k].ref) == k
  }

  /** The event a reload owes for one key, if any. */
  ghost predicate Owed(before: Entries, after: Entries, e: Event) {
    match e
    case Added(k, entry) => k in after && k !in before && entry == after[k]
    case Updated(k, entry) =>
      k in after && k in before && entry == after[k] && !Unchanged(before[k].routine, after[k].routine)
    case Removed(k) => k in before && k !in after
  }

  /** The events are exactly those owed, each once, in some order. */
  ghost predicate IsDiff(before: Entries, after: Entries, events: seq<Event>) {
    forall e :: multiset(events)[e] == if Owed(before, after, e) then 1 else 0
  }

  /** Of some events in order, those for which the channel had room, and those for which it had none. */
  function Kept(events: seq<Event>, full: nat -> bool): seq<Event> {
    if events == [] then []
    else Kept(events[..|events| - 1], full) + if full(|events| - 1) then [] else [events[|events| - 1]]
  }

  function Lost(events: seq<Event>, full: nat -> bool): seq<Event> {
    if events == [] then []
    else Lost(events[..|events| - 1], full) + if full(|events| - 1) then [events[|events| - 1]] else []
  }

  lemma {:induction false} KeptOrLost(events: seq<Event>, full: nat -> bool)
    ensures |Kept(events, full)| + |Lost(events, full)| == |events|
    ensures multiset(Kept(events, full) + Lost(events, full)) == multiset(events)
  {
    if events != [] {
      KeptOrLost(events[..|events| - 1], full);
      assert events == events[..|events| - 1] + [events[|events| - 1]];
    }
  }

  lemma KeepsOne(events: seq<Event>, full: nat -> bool, e: Event)
    ensures Kept(events + [e], full) == Kept(events, full) + if full(|events|) then [] else [e]
  {
    var more := events + [e];
    assert more[..|more| - 1] == events && more[|more| - 1] == e;
  }

  lemma LosesOne(events: seq<Event>, full: nat -> bool, e: Event)
    ensures Lost(events + [e], full) == Lost(events, full) + if full(|events|) then [e] else []
  {
    var more := events + [e];
    assert more[..|more| - 1] == events && more[|more| - 1] == e;
  }

  /** Sends without blocking. `full` says, by the number of the attempt, whether the channel has no room:
      meanwhile the consumer may drain it. Then the event is dropped. */
  method SendOrDrop(sent: seq<Event>, dropped: seq<Event>, full: nat -> bool, e: Event, ghost all: seq<Event>)
    returns (sent': seq<Event>, dropped': seq<Event>)
    requires sent == Kept(all, full) && dropped == Lost(all, full)
    ensures sent' == Kept(all + [e], full) && dropped' == Lost(all + [e], full)
  {
    hide Kept, Lost;
    KeptOrLost(all, full);
    KeepsOne(all, full, e);
    LosesOne(all, full, e);
    if full(|sent| + |dropped|) {
      sent', dropped' := sent, dropped + [e];
    } else {
      sent', dropped' := sent + [e], dropped;
    }
  }

  /** Compares two snapshots, in whatever order the maps yield their keys. `all` are the events owed, in
      the order in which they were tried. */
  method DiffAndEmit(before: Entries, after: Entries, full: nat -> bool)
    returns (sent: seq<Event>, dropped: seq<Event>, ghost all: seq<Event>)
    ensures IsDiff(before, after, all) && IsDiff(before, after, sent + dropped)
    ensures sent == Kept(all, full) && dropped == Lost(all, full)
  {
    hide Kept, Lost, Owed;
    sent, dropped, all := EmitChanges(before, after, full);
    sent, dropped, all := EmitRemovals(before, after, full, sent, dropped, all);
    KeptOrLost(all, full);
  }

  method EmitChanges(before: Entries, after: Entries, full: nat -> bool)
    returns (sent: seq<Event>, dropped: seq<Event>, ghost all: seq<Event>)
    ensures DiffSoFar(before, after, {}, before.Keys, all)
    ensures sent == Kept(all, full) && dropped == Lost(all, full)
  {
    hide Unchanged, DiffSoFar;
    sent, dropped, all := [], [], [];
    var rest := after.Keys;
    NothingYet(before, after);
    while rest != {}
      invariant rest <= after.Keys
      invariant DiffSoFar(before, after, rest, before.Keys, all)
      invariant sent == Kept(all, full) && dropped == Lost(all, full)
    {
      var k :| k in rest;
      ghost var was, events := rest, all;
      rest := rest - {k};
      if k !in before {
        sent, dropped := SendOrDrop(sent, dropped, full, Added(k, after[k]), all);
        all := all + [Added(k, after[k])];
        DiffGrows(before, after, was, rest, before.Keys, before.Keys, events, Added(k, after[k]));
      } else {
        var changed := RoutineChanged(before[k].routine, after[k].routine);
        if changed {
          sent, dropped := SendOrDrop(sent, dropped, full, Updated(k, after[k]), all);
          all := all + [Updated(k, after[k])];
          DiffGrows(before, after, was, rest, before.Keys, before.Keys, events, Updated(k, after[k]));
        } else {
          NothingOwed(before, after, was, rest, before.Keys, before.Keys, events, k);
        }
      }
    }
  }

  method EmitRemovals(
    before: Entries, after: Entries, full: nat -> bool, sent0: seq<Event>, dropped0: seq<Event>, ghost all0: seq<Event>)
    returns (sent: seq<Event>, dropped: seq<Event>, ghost all: seq<Event>)
    requires DiffSoFar(before, after, {}, before.Keys, all0)
    requires sent0 == Kept(all0, full) && dropped0 == Lost(all0, full)
    ensures IsDiff(before, after, all)
    ensures sent == Kept(all, full) && dropped == Lost(all, full)
  {
    hide DiffSoFar;
    sent, dropped, all := sent0, dropped0, all0;
    var gone := before.Keys;
    while gone != {}
      invariant gone <= before.Keys
      invariant DiffSoFar(before, after, {}, gone, all)
      invariant sent == Kept(all, full) && dropped == Lost(all, full)
    {
      var k :| k in gone;
      ghost var was, events := gone, all;
      gone := gone - {k};
      if k !in after {
        sent, dropped := SendOrDrop(sent, dropped, full, Removed(k), all);
        all := all + [Removed(k)];
        DiffGrows(before, after, {}, {}, was, gone, events, Removed(k));
      } else {
        NothingOwed(before, after, {}, {}, was, gone, events, k);
      }
    }
    NothingLeft(before, after, all);
  }

  /** The diff up to the keys still to be looked at: `rest` for additions and updates, `gone` for
      removals. */
  ghost predicate DiffSoFar(before: Entries, after: Entries, rest: set<string>, gone: set<string>, events: seq<Event>) {
    forall e :: multiset(events)[e] ==
      if Owed(before, after, e) && e.key !in (if e.Removed? then gone else rest) then 1 else 0
  }

  lemma NothingYet(before: Entries, after: Entries)
    ensures DiffSoFar(before, after, after.Keys, before.Keys, [])
  {
  }

  lemma NothingLeft(before: Entries, after: Entries, events: seq<Event>)
    requires DiffSoFar(before, after, {}, {}, events)
    ensures IsDiff(before, after, events)
  {
  }

  /** One more owed event. */
  lemma DiffGrows(
    before: Entries, after: Entries, rest: set<string>, rest': set<string>, gone: set<string>, gone': set<string>,
    events: seq<Event>, e: Event)
    requires DiffSoFar(before, after, rest, gone, events) && Owed(before, after, e)
    requires if e.Removed? then rest' == rest && gone == gone' + {e.key} && e.key !in gone'
             else gone' == gone && rest == rest' + {e.key} && e.key !in rest'
    ensures DiffSoFar(before, after, rest', gone', events + [e])
  {
    assert multiset(events + [e]) == multiset(events) + multiset{e};
  }

  /** A key that needs no event. */
  lemma NothingOwed(
    before: Entries, after: Entries, rest: set<string>, rest': set<string>, gone: set<string>, gone': set<string>,
    events: seq<Event>, k: string)
    requires DiffSoFar(before, after, rest, gone, events) && k in after
    requires (rest' == rest - {k} && gone' == gone
              && !Owed(before, after, Added(k, after[k])) && !Owed(before, after, Updated(k, after[k])))
          || (rest' == rest && gone' == gone - {k} && !Owed(before, after, Removed(k)))
    ensures DiffSoFar(before, after, rest', gone', events)
  {
  }
}
