/** The catalog of discovered skills (skill/catalog.go): which of several skills of one name is active,
    and which ones an agent gets to see. */
module SkillCatalog {
  import opened Selections
  import opened Sorting
  import opened Wrappers

  /** Lower ranks win: a skill of the repository hides a global one, that hides a shared one. */
  datatype Scope = Repo | Global | Shared {
    function Rank(): nat {
      match this
      case Repo => 0
      case Global => 1
      case Shared => 2
    }
  }

  datatype Manifest = Manifest(name: string, allowedTools: seq<string>, bodyBytes: nat)

  datatype Entry = Entry(manifest: Option<Manifest>, scope: Scope, dir: string, shadowed: bool) {
    function Name(): string {
      if manifest.Some? then manifest.value.name else ""
    }
  }

  // ----- Which entry of a name is active -----

  /** Entry i is the one of lowest scope among its namesakes, and the earliest found of those. */
  ghost predicate Wins(found: seq<Entry>, i: nat) {
    && i < |found|
    && forall j {:trigger found[j]} ::
         0 <= j < |found| && j != i && found[j].Name() == found[i].Name() ==> Beats(found, i, j)
  }

  ghost predicate Beats(found: seq<Entry>, i: nat, j: nat)
    requires i < |found| && j < |found|
  {
    Hides(found[i].scope, found[j].scope) || (found[i].scope == found[j].scope && i < j)
  }

  /** A skill of the repository hides a global and a shared one, and a global one hides a shared one. */
  predicate Hides(a: Scope, b: Scope) {
    (a == Repo && b == Global) || (a == Repo && b == Shared) || (a == Global && b == Shared)
  }

  ghost function Resolved(found: seq<Entry>): seq<Entry> {
    seq(|found|, i requires 0 <= i < |found| => found[i].(shadowed := !Wins(found, i)))
  }

  /** The winner of each name in the prefix, by name. */
  ghost predicate Winners(found: seq<Entry>, k: nat, winners: map<string, nat>)
    requires k <= |found|
  {
    && (forall i :: 0 <= i < k ==> found[i].Name() in winners)
    && (forall n :: n in winners ==> winners[n] < k && found[winners[n]].Name() == n && Wins(found[..k], winners[n]))
  }

  lemma WinnersStep(found: seq<Entry>, k: nat, winners: map<string, nat>)
    requires k < |found| && Winners(found, k, winners)
    ensures var n := found[k].Name();
            var beaten := n in winners && !(found[k].scope.Rank() < found[winners[n]].scope.Rank());
            Winners(found, k + 1, if beaten then winners else winners[n := k])
  {
    hide Wins;
    var n := found[k].Name();
    forall m | m in winners && m != n ensures Wins(found[..k + 1], winners[m]) {
      StillWins(found, k, winners[m]);
    }
    if n in winners && !(found[k].scope.Rank() < found[winners[n]].scope.Rank()) {
      StillWins(found, k, winners[n]);
    } else {
      NewWinner(found, k, if n in winners then Some(winners[n]) else None);
    }
  }

  lemma StillWins(found: seq<Entry>, k: nat, w: nat)
    requires k < |found| && w < k && Wins(found[..k], w)
    requires found[k].Name() == found[w].Name() ==> found[w].scope.Rank() <= found[k].scope.Rank()
    ensures Wins(found[..k + 1], w)
  {
    forall j {:trigger found[..k + 1][j]} | 0 <= j < k && j != w && found[..k + 1][j].Name() == found[w].Name()
      ensures Beats(found[..k + 1], w, j)
    {
      assert found[..k][j] == found[j] && Beats(found[..k], w, j);
    }
  }

  lemma NewWinner(found: seq<Entry>, k: nat, beaten: Option<nat>)
    requires k < |found|
    requires match beaten
             case None => forall i :: 0 <= i < k ==> found[i].Name() != found[k].Name()
             case Some(w) => w < k && found[w].Name() == found[k].Name() && Wins(found[..k], w)
                             && found[k].scope.Rank() < found[w].scope.Rank()
    ensures Wins(found[..k + 1], k)
  {
    forall j {:trigger found[..k + 1][j]} | 0 <= j < k && found[..k + 1][j].Name() == found[k].Name()
      ensures Beats(found[..k + 1], k, j)
    {
      assert found[..k][j] == found[j];
      assert beaten.Some? && (j != beaten.value ==> Beats(found[..k], beaten.value, j));
    }
  }

  /** The first k entries are marked as shadowed, but for the winners among them. */
  ghost predicate Marked(found: seq<Entry>, k: nat, winners: map<string, nat>, s: seq<Entry>) {
    && k <= |found| == |s| && Winners(found, k, winners)
    && (forall n :: n in winners ==> winners[n] < k && found[winners[n]].Name() == n)
    && (forall i :: 0 <= i < k ==> found[i].Name() in winners)
    && (forall i :: 0 <= i < k ==> s[i] == found[i].(shadowed := i != winners[found[i].Name()]))
    && (forall i :: k <= i < |found| ==> s[i] == found[i])
  }

  lemma NothingMarked(found: seq<Entry>)
    ensures Marked(found, 0, map[], found)
  {
  }

  lemma MarkedStep(found: seq<Entry>, k: nat, winners: map<string, nat>, s: seq<Entry>)
    requires k < |found| && NoneShadowed(found) && Marked(found, k, winners, s)
    ensures var n := found[k].Name();
            && s[k].Name() == n
            && if n !in winners then Marked(found, k + 1, winners[n := k], s)
               else
                 var prev := winners[n];
                 && prev < k && s[prev].scope == found[prev].scope && s[k].scope == found[k].scope
                 && if s[k].scope.Rank() < s[prev].scope.Rank()
                    then Marked(found, k + 1, winners[n := k], s[prev := s[prev].(shadowed := true)])
                    else Marked(found, k + 1, winners, s[k := s[k].(shadowed := true)])
  {
    hide Winners, Wins;
    WinnersStep(found, k, winners);
    var n := found[k].Name();
    if n !in winners {
      MarkFirst(found, k, winners, s);
    } else if s[k].scope.Rank() < s[winners[n]].scope.Rank() {
      MarkBeaten(found, k, winners, s);
    }
  }

  /** The first entry of a name stays unmarked. */
  lemma MarkFirst(found: seq<Entry>, k: nat, winners: map<string, nat>, s: seq<Entry>)
    requires k < |found| && NoneShadowed(found) && Marked(found, k, winners, s) && found[k].Name() !in winners
    requires Winners(found, k + 1, winners[found[k].Name() := k])
    ensures Marked(found, k + 1, winners[found[k].Name() := k], s)
  {
    hide Winners, Wins;
  }

  /** An entry that beats the winner so far: that one is marked. */
  lemma MarkBeaten(found: seq<Entry>, k: nat, winners: map<string, nat>, s: seq<Entry>)
    requires k < |found| && NoneShadowed(found) && Marked(found, k, winners, s) && found[k].Name() in winners
    requires Winners(found, k + 1, winners[found[k].Name() := k])
    ensures var prev := winners[found[k].Name()];
            Marked(found, k + 1, winners[found[k].Name() := k], s[prev := s[prev].(shadowed := true)])
  {
    hide Winners, Wins;
  }

  /** Every name has exactly one winner. */
  lemma {:induction false} UniqueWinner(found: seq<Entry>, n: string) returns (w: nat)
    requires exists i :: 0 <= i < |found| && found[i].Name() == n
    ensures w < |found| && found[w].Name() == n && Wins(found, w)
    ensures forall i :: 0 <= i < |found| && found[i].Name() == n && Wins(found, i) ==> i == w
  {
    var winners: map<string, nat> := map[];
    for k := 0 to |found|
      invariant Winners(found, k, winners)
    {
      WinnersStep(found, k, winners);
      var name := found[k].Name();
      var beaten := name in winners && !(found[k].scope.Rank() < found[winners[name]].scope.Rank());
      winners := if beaten then winners else winners[name := k];
    }
    assert found[..|found|] == found;
    w := winners[n];
    forall i | 0 <= i < |found| && found[i].Name() == n && Wins(found, i) ensures i == w {
      WinnersAgree(found, i, w);
    }
  }

  lemma WinnersAgree(found: seq<Entry>, i: nat, j: nat)
    requires Wins(found, i) && Wins(found, j) && found[i].Name() == found[j].Name()
    ensures i == j
  {
  }

  // ----- Lists of visible entries -----

  /** The unshadowed entries of one name, in order. */
  function Named(s: seq<Entry>, n: string): seq<Entry> {
    if s == [] then []
    else
      var last := s[|s| - 1];
      Named(s[..|s| - 1], n) + if !last.shadowed && last.Name() == n then [last] else []
  }

  lemma {:induction false} NamedConcat(a: seq<Entry>, b: seq<Entry>, n: string)
    ensures Named(a + b, n) == Named(a, n) + Named(b, n)
  {
    if b == [] {
      assert a + b == a;
    } else {
      assert (a + b)[..|a + b| - 1] == a + b[..|b| - 1];
      NamedConcat(a, b[..|b| - 1], n);
    }
  }

  lemma {:induction false} NamedNone(s: seq<Entry>, n: string)
    requires forall i :: 0 <= i < |s| ==> s[i].shadowed || s[i].Name() != n
    ensures Named(s, n) == []
  {
    if s != [] {
      NamedNone(s[..|s| - 1], n);
    }
  }

  lemma {:induction false} NamedMembers(s: seq<Entry>, n: string)
    ensures forall e :: e in Named(s, n) <==> e in s && !e.shadowed && e.Name() == n
  {
    if s != [] {
      NamedMembers(s[..|s| - 1], n);
      assert s == s[..|s| - 1] + [s[|s| - 1]];
    }
  }

  lemma {:induction false} NamedInserted(x: Entry, s: seq<Entry>, n: string)
    ensures multiset(Named(Insert(x, s, EntryLe), n)) == multiset(Named([x], n)) + multiset(Named(s, n))
  {
    hide Named, EntryLe;
    if s == [] || EntryLe(x, s[0]) {
      NamedConcat([x], s, n);
    } else {
      NamedInserted(x, s[1..], n);
      NamedConcat([s[0]], Insert(x, s[1..], EntryLe), n);
      NamedConcat([s[0]], s[1..], n);
      assert s == [s[0]] + s[1..];
    }
  }

  /** Sorting keeps the visible entries of each name, as often as they occur. */
  lemma {:induction false} NamedSorted(s: seq<Entry>, n: string)
    ensures multiset(Named(StableSort(s, EntryLe), n)) == multiset(Named(s, n))
  {
    hide Named;
    if s != [] {
      NamedSorted(s[1..], n);
      NamedInserted(s[0], StableSort(s[1..], EntryLe), n);
      NamedConcat([s[0]], s[1..], n);
      assert s == [s[0]] + s[1..];
    }
  }

  lemma {:induction false} NamedOnly(s: seq<Entry>, n: string, w: nat)
    requires w < |s| && s[w].Name() == n && !s[w].shadowed
    requires forall i :: 0 <= i < |s| && i != w ==> s[i].shadowed || s[i].Name() != n
    ensures Named(s, n) == [s[w]]
  {
    var front := s[..|s| - 1];
    if w < |s| - 1 {
      NamedOnly(front, n, w);
    } else {
      NamedNone(front, n);
    }
  }

  // ----- The catalog -----

  /** By name, then by scope; the sort is stable, so equal entries stay in the order of discovery. */
  predicate EntryLe(a: Entry, b: Entry) {
    if a.Name() != b.Name() then StringLe(a.Name(), b.Name()) else a.scope.Rank() <= b.scope.Rank()
  }

  /** Entries come in the order of their names, character by character, and those of one name with the hiding
      scope first. */
  lemma EntryOrder(a: Entry, b: Entry)
    ensures EntryLe(a, b) <==>
              if a.Name() == b.Name() then !Hides(b.scope, a.scope)
              else a.Name() <= b.Name() || exists k: nat :: SmallerAt(a.Name(), b.Name(), k)
  {
    hide StringLe;
    StringLeIff(a.Name(), b.Name());
  }

  /** The entries of one name and scope. */
  function Alike(s: seq<Entry>, name: string, scope: Scope): seq<Entry> {
    Keep(s, (e: Entry) => e.Name() == name && e.scope == scope)
  }

  lemma SortKeepsAlike(s: seq<Entry>, name: string, scope: Scope)
    ensures Alike(StableSort(s, EntryLe), name, scope) == Alike(s, name, scope)
  {
    hide Insert;
    Sorting.SortStable(s, EntryLe, (e: Entry) => e.Name() == name && e.scope == scope);
  }

  ghost predicate NoneShadowed(found: seq<Entry>) {
    forall i :: 0 <= i < |found| ==> !found[i].shadowed
  }

  /** Which of the visible entries an agent gets to see. Empty fields restrict nothing; a list of
      allowed names overrides the other two. */
  datatype FilterOptions = FilterOptions(scopes: seq<Scope>, allow: seq<string>, deny: seq<string>) {
    predicate Selects(e: Entry) {
      if allow != [] then e.Name() in allow
      else (scopes == [] || e.scope in scopes) && e.Name() !in deny
    }
  }

  function Filtered(s: seq<Entry>, opts: FilterOptions): seq<Entry> {
    if s == [] then []
    else
      var last := s[|s| - 1];
      Filtered(s[..|s| - 1], opts) + if !last.shadowed && opts.Selects(last) then [last] else []
  }

  function Chosen(opts: FilterOptions): Entry -> Option<Entry> {
    (e: Entry) => if !e.shadowed && opts.Selects(e) then Some(e) else None
  }

  /** The filtered list holds the selected entries that are not shadowed, each as often as the list and in its
      order. */
  lemma {:induction false} FilteredInOrder(s: seq<Entry>, opts: FilterOptions) returns (at: seq<nat>)
    ensures Picks(s, Chosen(opts), Filtered(s, opts), at)
  {
    if s == [] {
      at := [];
      PicksNone(Chosen(opts));
    } else {
      var front, last := s[..|s| - 1], s[|s| - 1];
      at := FilteredInOrder(front, opts);
      at := PicksOneMore(front, Chosen(opts), Filtered(front, opts), at, last);
      assert front + [last] == s;
    }
  }

  const EVERYTHING := FilterOptions([], [], [])

  class Catalog {
    const entries: array<Entry>

    /** Discovery hands over the entries in the order of scopes, roots and directories. */
    constructor (found: seq<Entry>)
      requires NoneShadowed(found)
      ensures fresh(entries)
      ensures entries[..] == StableSort(Resolved(found), EntryLe)
    {
      entries := new Entry[|found|](i requires 0 <= i < |found| => found[i]);
      new;
      assert entries[..] == found;
      ResolveCollisions();
      SortStable();
    }

    method ResolveCollisions()
      requires NoneShadowed(entries[..])
      modifies entries
      ensures entries[..] == Resolved(old(entries[..]))
    {
      hide Winners, Wins;
      ghost var found := entries[..];
      NothingMarked(found);
      var winners: map<string, nat> := map[];
      for k := 0 to entries.Length
        invariant Marked(found, k, winners, entries[..])
      {
        MarkedStep(found, k, winners, entries[..]);
        var name := entries[k].Name();
        if name !in winners {
          winners := winners[name := k];
        } else {
          var prev := winners[name];
          if entries[k].scope.Rank() < entries[prev].scope.Rank() {
            entries[prev] := entries[prev].(shadowed := true);
            winners := winners[name := k];
          } else {
            entries[k] := entries[k].(shadowed := true);
          }
        }
      }
      WinnersDecide(found, winners);
      assert entries[..] == Resolved(found);
    }

    /** The library's stable sort, in place: the entries are in order, and those of one name and scope
        are the same as before in the same order. */
    method SortStable()
      modifies entries
      ensures entries[..] == StableSort(old(entries[..]), EntryLe)
      ensures Sorted(entries[..], EntryLe) && multiset(entries[..]) == multiset(old(entries[..]))
      ensures forall name, scope :: Alike(entries[..], name, scope) == Alike(old(entries[..]), name, scope)
    {
      hide EntryLe, Keep, Insert;
      EntryLeTotal();
      SortCorrect(entries[..], EntryLe);
      ghost var before := entries[..];
      var sorted := StableSort(entries[..], EntryLe);
      forall name, scope ensures Alike(sorted, name, scope) == Alike(before, name, scope) {
        SortKeepsAlike(before, name, scope);
      }
      for k := 0 to entries.Length
        invariant forall i :: 0 <= i < k ==> entries[i] == sorted[i]
      {
        entries[k] := sorted[k];
      }
      assert entries[..] == sorted;
    }

    method Find(name: string) returns (r: Option<Entry>)
      ensures var named := Named(entries[..], name);
              r == if named == [] then None else Some(named[0])
    {
      for k := 0 to entries.Length
        invariant Named(entries[..k], name) == []
      {
        assert entries[..k + 1][..k] == entries[..k] && entries[..k + 1][k] == entries[k];
        if !entries[k].shadowed && entries[k].Name() == name {
          assert entries[..] == entries[..k + 1] + entries[k + 1..];
          NamedConcat(entries[..k + 1], entries[k + 1..], name);
          return Some(entries[k]);
        }
      }
      assert entries[..entries.Length] == entries[..];
      r := None;
    }

    method Filter(opts: FilterOptions) returns (out: seq<Entry>)
      ensures out == Filtered(entries[..], opts)
    {
      out := [];
      for k := 0 to entries.Length
        invariant out == Filtered(entries[..k], opts)
      {
        assert entries[..k + 1][..k] == entries[..k];
        var e := entries[k];
        if e.shadowed {
          continue;
        }
        if |opts.allow| > 0 {
          if e.Name() !in opts.allow {
            continue;
          }
          out := out + [e];
          continue;
        }
        if |opts.scopes| > 0 && e.scope !in opts.scopes {
          continue;
        }
        if e.Name() in opts.deny {
          continue;
        }
        out := out + [e];
      }
      assert entries[..entries.Length] == entries[..];
    }

    method Visible() returns (out: seq<Entry>)
      ensures out == Filtered(entries[..], EVERYTHING)
    {
      out := [];
      for k := 0 to entries.Length
        invariant out == Filtered(entries[..k], EVERYTHING)
      {
        assert entries[..k + 1][..k] == entries[..k];
        if !entries[k].shadowed {
          out := out + [entries[k]];
        }
      }
      assert entries[..entries.Length] == entries[..];
    }
  }

  lemma WinnersDecide(found: seq<Entry>, winners: map<string, nat>)
    requires Winners(found, |found|, winners)
    ensures forall i :: 0 <= i < |found| ==> (Wins(found, i) <==> i == winners[found[i].Name()])
  {
    assert found[..|found|] == found;
    forall i | 0 <= i < |found| && Wins(found, i) ensures i == winners[found[i].Name()] {
      WinnersAgree(found, i, winners[found[i].Name()]);
    }
  }

  lemma EntryLeTotal()
    ensures Total(EntryLe)
  {
    forall a, b ensures EntryLe(a, b) || EntryLe(b, a) {
      StringLeTotalAt(a.Name(), b.Name());
    }
  }

  // ----- What a catalog shows -----

  /** In a catalog each name found has exactly one visible entry: the one of lowest scope and
      earliest discovery. That is the one Find returns. */
  lemma OneVisiblePerName(found: seq<Entry>, n: string)
    requires NoneShadowed(found)
    ensures var named := Named(StableSort(Resolved(found), EntryLe), n);
            if exists i :: 0 <= i < |found| && found[i].Name() == n
            then exists w :: 0 <= w < |found| && found[w].Name() == n && Wins(found, w) && named == [found[w]]
            else named == []
  {
    var marked := Resolved(found);
    NamedSorted(marked, n);
    if exists i :: 0 <= i < |found| && found[i].Name() == n {
      var w := UniqueWinner(found, n);
      NamedOnly(marked, n, w);
      Singleton(Named(StableSort(marked, EntryLe), n), found[w]);
    } else {
      NamedNone(marked, n);
      assert |multiset(Named(StableSort(marked, EntryLe), n))| == |Named(StableSort(marked, EntryLe), n)|;
    }
  }

  lemma Singleton(s: seq<Entry>, e: Entry)
    requires multiset(s) == multiset([e])
    ensures s == [e]
  {
    assert |multiset(s)| == |s|;
    assert s[0] in multiset(s);
  }

  ghost predicate UniqueNames(s: seq<Entry>) {
    forall i, j :: 0 <= i < j < |s| ==> s[i].Name() != s[j].Name()
  }

  lemma {:induction false} FilteredMembers(s: seq<Entry>, opts: FilterOptions)
    ensures forall e :: e in Filtered(s, opts) <==> e in s && !e.shadowed && opts.Selects(e)
  {
    if s != [] {
      FilteredMembers(s[..|s| - 1], opts);
      assert s == s[..|s| - 1] + [s[|s| - 1]];
    }
  }

  lemma {:induction false} FilteredUnique(s: seq<Entry>, opts: FilterOptions)
    requires forall n :: |Named(s, n)| <= 1
    ensures UniqueNames(Filtered(s, opts))
  {
    if s != [] {
      var front, last := s[..|s| - 1], s[|s| - 1];
      forall n ensures |Named(front, n)| <= 1 {
        assert |Named(s, n)| <= 1;
      }
      FilteredUnique(front, opts);
      FilteredMembers(front, opts);
      if !last.shadowed && opts.Selects(last) {
        forall i | 0 <= i < |Filtered(front, opts)| ensures Filtered(front, opts)[i].Name() != last.Name() {
          assert Filtered(front, opts)[i] in Filtered(front, opts);
          NamedMembers(front, last.Name());
          assert |Named(s, last.Name())| <= 1;
        }
      }
    }
  }

  /** What an agent gets to see never holds a shadowed entry or two entries of one name; of the
      winners it holds exactly those the options select. */
  lemma FilterSelectsWinners(found: seq<Entry>, opts: FilterOptions)
    requires NoneShadowed(found)
    ensures var shown := Filtered(StableSort(Resolved(found), EntryLe), opts);
            && UniqueNames(shown)
            && forall e :: e in shown <==>
                 && (if opts.allow != [] then e.Name() in opts.allow
                     else (opts.scopes == [] || e.scope in opts.scopes) && e.Name() !in opts.deny)
                 && exists w :: 0 <= w < |found| && Wins(found, w) && e == found[w]
  {
    var sorted := StableSort(Resolved(found), EntryLe);
    forall n ensures |Named(sorted, n)| <= 1 {
      OneVisiblePerName(found, n);
    }
    FilteredUnique(sorted, opts);
    FilteredMembers(sorted, opts);
    EntryLeTotal();
    SortCorrect(Resolved(found), EntryLe);
    forall e ensures (e in sorted && !e.shadowed) <==> exists w :: 0 <= w < |found| && Wins(found, w) && e == found[w] {
      assert e in sorted <==> e in multiset(sorted);
      assert e in Resolved(found) <==> e in multiset(Resolved(found));
      if e in Resolved(found) && !e.shadowed {
        var w :| 0 <= w < |found| && Resolved(found)[w] == e;
        assert Wins(found, w) && e == found[w];
      }
      if w :| 0 <= w < |found| && Wins(found, w) && e == found[w] {
        assert Resolved(found)[w] == e;
      }
    }
  }

  /** A denied skill is shown exactly if it is allowed by name: a list of allowed names switches the
      list of denied names off. */
  lemma DeniedIsShownIff(found: seq<Entry>, opts: FilterOptions)
    requires NoneShadowed(found)
    ensures var shown := Filtered(StableSort(Resolved(found), EntryLe), opts);
            (exists e :: e in shown && e.Name() in opts.deny) <==>
            opts.allow != [] && exists w :: 0 <= w < |found| && Wins(found, w)
                                         && found[w].Name() in opts.allow && found[w].Name() in opts.deny
  {
    hide Wins, Filtered, StableSort, Resolved, NoneShadowed, UniqueNames;
    FilterSelectsWinners(found, opts);
    var shown := Filtered(StableSort(Resolved(found), EntryLe), opts);
    if w :| 0 <= w < |found| && Wins(found, w) && found[w].Name() in opts.allow && found[w].Name() in opts.deny {
      assert opts.allow != [] ==> found[w] in shown;
    }
  }

  /** A catalog of one skill that is both allowed and denied shows it. */
  lemma AllowedAndDenied()
    ensures var lint := Entry(Some(Manifest("lint", [], 0)), Repo, "skills/lint", false);
            Filtered(StableSort(Resolved([lint]), EntryLe), FilterOptions([], ["lint"], ["lint"])) == [lint]
  {
    var lint := Entry(Some(Manifest("lint", [], 0)), Repo, "skills/lint", false);
    assert Wins([lint], 0);
    assert Resolved([lint]) == [lint];
    assert StableSort([lint], EntryLe) == Insert(lint, [], EntryLe) == [lint];
    assert [lint][..0] == [];
  }
}
