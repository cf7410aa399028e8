/** Missed fires of a routine while the daemon was down (routine/catchup.go). Times are integers; the
    cron library is a function from a time to the next fire after it, if any. */
module Catchup {
  import opened Wrappers

  type Time = int

  /** `schedule` identifies the cron expression; `lastRun` and `createdAt` may be unset. */
  datatype Entry = Entry(
    schedule: string, enabled: bool, skipsCatchup: bool, stateReadable: bool,
    lastRun: Option<Time>, createdAt: Option<Time>)

  datatype MissedFire = MissedFire(index: nat, last: Option<Time>, missed: Time)

  /** The next fire lies strictly after the given time. */
  ghost predicate Forward(next: (string, Time) -> Option<Time>) {
    forall s, t :: next(s, t).Some? ==> next(s, t).value > t
  }

  /** `fires` holds the fire times of every schedule, and `next` yields the earliest one after a time. */
  ghost predicate NextOf(next: (string, Time) -> Option<Time>, fires: (string, Time) -> bool) {
    && Forward(next)
    && (forall s, t {:trigger next(s, t)} :: next(s, t).Some? ==> fires(s, next(s, t).value))
    && (forall s, t, u :: fires(s, u) && u > t ==> next(s, t).Some? && next(s, t).value <= u)
  }

  /** The fire reached from `anchor` in n steps. */
  function Nth(next: (string, Time) -> Option<Time>, s: string, anchor: Time, n: nat): Option<Time> {
    if n == 0 then Some(anchor)
    else
      var before := Nth(next, s, anchor, n - 1);
      if before.None? then None else next(s, before.value)
  }

  predicate Before(t: Option<Time>, now: Time) {
    t.Some? && t.value < now
  }

  /** A fire after the anchor and before now, with none between it and now. */
  ghost predicate IsLatest(next: (string, Time) -> Option<Time>, s: string, anchor: Time, now: Time, t: Time) {
    && (exists n: nat :: n > 0 && Nth(next, s, anchor, n) == Some(t))
    && t < now && !Before(next(s, t), now)
  }

  function Anchor(e: Entry): Option<Time> {
    if e.lastRun.Some? then e.lastRun else e.createdAt
  }

  /** The entries that have missed at least one fire and want to catch up. */
  predicate Missed(next: (string, Time) -> Option<Time>, e: Entry, now: Time) {
    && e.enabled && !e.skipsCatchup && e.stateReadable
    && Anchor(e).Some? && Before(next(e.schedule, Anchor(e).value), now)
  }

  /** Walks forward from the first missed fire to the last one before now. */
  method LatestBefore(next: (string, Time) -> Option<Time>, s: string, anchor: Time, now: Time) returns (latest: Time)
    requires Forward(next) && Before(next(s, anchor), now)
    ensures IsLatest(next, s, anchor, now, latest)
  {
    latest := next(s, anchor).value;
    ghost var n := 1;
    assert Nth(next, s, anchor, 0) == Some(anchor);
    while true
      invariant n > 0 && Nth(next, s, anchor, n) == Some(latest) && latest < now
      decreases now - latest
    {
      var candidate := next(s, latest);
      if candidate.None? || candidate.value >= now {
        return;
      }
      latest := candidate.value;
      n := n + 1;
    }
  }

  /** A result is about an entry that missed a fire, and carries its latest missed fire. */
  ghost predicate Reports(next: (string, Time) -> Option<Time>, entries: seq<Entry>, now: Time, m: MissedFire) {
    && m.index < |entries| && Missed(next, entries[m.index], now)
    && m.last == entries[m.index].lastRun
    && IsLatest(next, entries[m.index].schedule, Anchor(entries[m.index]).value, now, m.missed)
  }

  /** One result per entry that missed a fire, in order, each with its latest missed fire. */
  method FindMissedFires(next: (string, Time) -> Option<Time>, entries: seq<Entry>, now: Time)
    returns (out: seq<MissedFire>)
    requires Forward(next)
    ensures forall m :: m in out ==> Reports(next, entries, now, m)
    ensures forall i :: 0 <= i < |entries| && Missed(next, entries[i], now) ==> exists m :: m in out && m.index == i
    ensures forall j, k :: 0 <= j < k < |out| ==> out[j].index < out[k].index
  {
    out := [];
    for i := 0 to |entries|
      invariant forall m :: m in out ==> m.index < i && Reports(next, entries, now, m)
      invariant forall j :: 0 <= j < i && Missed(next, entries[j], now) ==> exists m :: m in out && m.index == j
      invariant forall j, k :: 0 <= j < k < |out| ==> out[j].index < out[k].index
    {
      var e := entries[i];
      if Missed(next, e, now) {
        var latest := LatestBefore(next, e.schedule, Anchor(e).value, now);
        ghost var before := out;
        var m := MissedFire(i, e.lastRun, latest);
        forall k | 0 <= k < |out| ensures out[k].index < i {
          assert out[k] in out;
        }
        out := out + [m];
        assert m in out && forall x :: x in before ==> x in out;
      }
    }
  }

  lemma NextIsFire(next: (string, Time) -> Option<Time>, fires: (string, Time) -> bool, s: string, t: Time)
    requires NextOf(next, fires) && next(s, t).Some?
    ensures fires(s, next(s, t).value)
  {
    assert fires(s, next(s, t).value);
  }

  /** For any set of fire times, the latest missed fire is the greatest of them before now, and it is
      after the anchor: catching up fires for the most recent miss. */
  lemma LatestIsMostRecent(
    next: (string, Time) -> Option<Time>, fires: (string, Time) -> bool, s: string, anchor: Time, now: Time, t: Time)
    requires NextOf(next, fires) && IsLatest(next, s, anchor, now, t)
    ensures fires(s, t) && anchor < t < now
    ensures forall u :: fires(s, u) && u < now ==> u <= t
  {
    var n: nat :| n > 0 && Nth(next, s, anchor, n) == Some(t);
    ChainClimbs(next, s, anchor, n);
    NextIsFire(next, fires, s, Nth(next, s, anchor, n - 1).value);
  }

  lemma {:induction false} ChainClimbs(next: (string, Time) -> Option<Time>, s: string, anchor: Time, n: nat)
    requires Forward(next) && n > 0 && Nth(next, s, anchor, n).Some?
    ensures Nth(next, s, anchor, n).value > anchor
  {
    if n > 1 {
      ChainClimbs(next, s, anchor, n - 1);
    }
  }

  /** Nothing was missed exactly when no fire lies between the anchor and now. */
  lemma MissedIff(next: (string, Time) -> Option<Time>, fires: (string, Time) -> bool, e: Entry, now: Time)
    requires NextOf(next, fires)
    ensures Missed(next, e, now) <==>
              && e.enabled && !e.skipsCatchup && e.stateReadable && Anchor(e).Some?
              && exists u :: fires(e.schedule, u) && Anchor(e).value < u < now
  {
    if Anchor(e).Some? {
      var first := next(e.schedule, Anchor(e).value);
      if Before(first, now) {
        NextIsFire(next, fires, e.schedule, Anchor(e).value);
      }
      if u :| fires(e.schedule, u) && Anchor(e).value < u < now {
        assert first.Some? && first.value <= u;
      }
    }
  }
}
