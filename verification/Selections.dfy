/** Lists that hold what some elements of another list yield, in its order. */
module Selections {
  import opened Wrappers

  /** Every element of `s` that `pick` takes is picked exactly once, in order, and nothing else is: `at`
      says where each picked element comes from. */
  ghost predicate Picks<S(!new), T(!new)>(s: seq<S>, pick: S -> Option<T>, picked: seq<T>, at: seq<nat>) {
    && |at| == |picked|
    && (forall j :: 0 <= j < |at| ==> at[j] < |s| && pick(s[at[j]]) == Some(picked[j]))
    && (forall i, j :: 0 <= i < j < |at| ==> at[i] < at[j])
    && (forall i :: 0 <= i < |s| && pick(s[i]).Some? ==> i in at)
  }

  function Yield<T>(y: Option<T>): seq<T> {
    if y.Some? then [y.value] else []
  }

  lemma PicksNone<S(!new), T(!new)>(pick: S -> Option<T>)
    ensures Picks([], pick, [], [])
  {
  }

  lemma PicksOneMore<S(!new), T(!new)>(s: seq<S>, pick: S -> Option<T>, picked: seq<T>, at: seq<nat>, x: S)
    returns (more: seq<nat>)
    requires Picks(s, pick, picked, at)
    ensures Picks(s + [x], pick, picked + Yield(pick(x)), more)
  {
    more := if pick(x).Some? then at + [|s|] else at;
    assert forall j :: 0 <= j < |at| ==> more[j] == at[j] && (s + [x])[at[j]] == s[at[j]];
    forall i | 0 <= i < |s| + 1 && pick((s + [x])[i]).Some? ensures i in more {
      if i == |s| {
        assert more[|at|] == i;
      } else {
        assert pick(s[i]).Some? && i in at;
      }
    }
  }
}
