/** The routine scheduler (routine/scheduler.go): store entries against the live jobs of the cron
    library, reconciled in full by Sync and one entry at a time by ApplyEvent. */
module RoutineScheduler {
  import opened Wrappers
  import opened RoutineStore

  // ----- What the scheduler should run -----

  /** The enabled entries by key; of two entries with one key the later wins. */
  function Wanted(entries: seq<Entry>): Entries {
    if entries == [] then map[]
    else
      var front, last := Wanted(entries[..|entries| - 1]), entries[|entries| - 1];
      if last.routine.enabled then front[EntryKey(last.ref) := last] else front
  }

  /** The jobs that should be live: `accepts` tells which schedules the cron library takes. */
  function Target(entries: Entries, accepts: string -> bool): Entries {
    map k | k in entries && entries[k].routine.enabled && accepts(entries[k].routine.schedule) :: entries[k]
  }

  // ----- The live jobs -----

  datatype RemoveError = Gone | NotFound | OtherError

  /** The cron library's job table. Removing a job in `stuck` fails with an error other than
      not-found and leaves the job running. */
  class Cron {
    const accepts: string -> bool
    const stuck: set<nat>
    var live: map<nat, Entry>
    var nextId: nat

    constructor (accepts: string -> bool, stuck: set<nat>)
      ensures this.accepts == accepts && this.stuck == stuck && live == map[] && nextId == 0
    {
      this.accepts, this.stuck := accepts, stuck;
      live, nextId := map[], 0;
    }

    method RemoveJob(id: nat) returns (r: RemoveError)
      modifies this
      ensures nextId == old(nextId)
      ensures live == if id in stuck then old(live) else old(live) - {id}
      ensures r == if id !in old(live) then NotFound else if id in stuck then OtherError else Gone
    {
      if id !in live {
        return NotFound;
      }
      if id in stuck {
        return OtherError;
      }
      live := live - {id};
      r := Gone;
    }

    method NewJob(entry: Entry) returns (id: Option<nat>)
      modifies this
      ensures id.Some? <==> accepts(entry.routine.schedule)
      ensures id.Some? ==> id.value == old(nextId) && live == old(live)[id.value := entry] && nextId == old(nextId) + 1
      ensures id.None? ==> live == old(live) && nextId == old(nextId)
    {
      if !accepts(entry.routine.schedule) {
        return None;
      }
      id := Some(nextId);
      live, nextId := live[nextId := entry], nextId + 1;
    }
  }

  ghost function Ids(jobIDs: map<string, nat>): set<nat> {
    set k | k in jobIDs :: jobIDs[k]
  }

  /** The live jobs are those some key leads to, one key each, and the leaked ones. */
  ghost predicate Owns(live: map<nat, Entry>, nextId: nat, jobIDs: map<string, nat>, leaked: set<nat>) {
    && live.Keys == Ids(jobIDs) + leaked && Ids(jobIDs) !! leaked
    && (forall j, k :: j in jobIDs && k in jobIDs && jobIDs[j] == jobIDs[k] ==> j == k)
    && (forall id :: id in live ==> id < nextId)
  }

  ghost function Jobs(live: map<nat, Entry>, jobIDs: map<string, nat>): Entries {
    map k | k in jobIDs && jobIDs[k] in live :: live[jobIDs[k]]
  }

  /** One key and its job go; a job that would not go is leaked. */
  lemma DropOwns(
    live: map<nat, Entry>, nextId: nat, jobIDs: map<string, nat>, leaked: set<nat>, stuck: set<nat>, key: string)
    requires Owns(live, nextId, jobIDs, leaked) && key in jobIDs
    ensures var id := jobIDs[key];
            var live' := if id in stuck then live else live - {id};
            && Owns(live', nextId, jobIDs - {key}, leaked + ({id} * stuck))
            && Jobs(live', jobIDs - {key}) == Jobs(live, jobIDs) - {key}
            && Ids(jobIDs - {key}) == Ids(jobIDs) - {id}
  {
    var id := jobIDs[key];
    assert id in Ids(jobIDs);
    forall i ensures i in Ids(jobIDs - {key}) <==> i in Ids(jobIDs) - {id} {
      if i in Ids(jobIDs) - {id} {
        var k :| k in jobIDs && jobIDs[k] == i;
        assert k in jobIDs - {key} && (jobIDs - {key})[k] == i;
      }
    }
    assert {id} * stuck == if id in stuck then {id} else {};
  }

  lemma AddIds(jobIDs: map<string, nat>, key: string, id: nat)
    requires key !in jobIDs
    ensures Ids(jobIDs[key := id]) == Ids(jobIDs) + {id}
  {
    forall i ensures i in Ids(jobIDs[key := id]) <==> i in Ids(jobIDs) + {id} {
      if i in Ids(jobIDs) {
        var k :| k in jobIDs && jobIDs[k] == i;
        assert k in jobIDs[key := id] && jobIDs[key := id][k] == i;
      } else if i == id {
        assert key in jobIDs[key := id] && jobIDs[key := id][key] == i;
      }
    }
  }

  lemma AddOwns(
    live: map<nat, Entry>, nextId: nat, jobIDs: map<string, nat>, leaked: set<nat>, key: string, entry: Entry)
    requires Owns(live, nextId, jobIDs, leaked) && key !in jobIDs
    ensures Owns(live[nextId := entry], nextId + 1, jobIDs[key := nextId], leaked)
    ensures Jobs(live[nextId := entry], jobIDs[key := nextId]) == Jobs(live, jobIDs)[key := entry]
  {
    hide Jobs;
    forall k | k in jobIDs ensures jobIDs[k] in live && jobIDs[k] < nextId {
      assert jobIDs[k] in Ids(jobIDs);
    }
    assert nextId !in live;
    AddIds(jobIDs, key, nextId);
    AddJobs(live, nextId, jobIDs, key, entry);
  }

  lemma AddJobs(live: map<nat, Entry>, id: nat, jobIDs: map<string, nat>, key: string, entry: Entry)
    requires key !in jobIDs && forall k :: k in jobIDs ==> jobIDs[k] in live && jobIDs[k] != id
    ensures Jobs(live[id := entry], jobIDs[key := id]) == Jobs(live, jobIDs)[key := entry]
  {
  }

  class Scheduler {
    const cron: Cron
    var jobIDs: map<string, nat>
    // Live jobs whose removal failed, so that no key leads to them any more.
    ghost var leaked: set<nat>

    constructor (cron: Cron)
      requires cron.live == map[]
      ensures this.cron == cron && jobIDs == map[] && leaked == {} && Valid()
    {
      this.cron := cron;
      jobIDs, leaked := map[], {};
    }

    ghost predicate Valid()
      reads this, cron
    {
      Owns(cron.live, cron.nextId, jobIDs, leaked)
    }

    ghost function JobTable(): (t: Entries)
      reads this, cron
      requires Valid()
      ensures t.Keys == jobIDs.Keys
    {
      assert forall k :: k in jobIDs ==> jobIDs[k] in Ids(jobIDs);
      Jobs(cron.live, jobIDs)
    }

    /** Drops a key and removes its job. */
    method Drop(key: string)
      requires Valid() && key in jobIDs
      modifies this, cron
      ensures Valid()
      ensures JobTable() == old(JobTable()) - {key}
      ensures Ids(jobIDs) == old(Ids(jobIDs)) - {old(jobIDs[key])}
      ensures jobIDs == old(jobIDs) - {key}
      ensures leaked == old(leaked) + ({old(jobIDs[key])} * cron.stuck)
    {
      DropOwns(cron.live, cron.nextId, jobIDs, leaked, cron.stuck, key);
      var id := jobIDs[key];
      assert id in Ids(jobIDs);
      var _ := cron.RemoveJob(id);
      jobIDs := jobIDs - {key};
      leaked := leaked + ({id} * cron.stuck);
    }

    /** Adds a job for an entry whose key has none. */
    method Add(key: string, entry: Entry)
      requires Valid() && key !in jobIDs
      modifies this, cron
      ensures Valid() && leaked == old(leaked)
      ensures JobTable() ==
                if cron.accepts(entry.routine.schedule) then old(JobTable())[key := entry] else old(JobTable())
      ensures old(jobIDs).Keys <= jobIDs.Keys <= old(jobIDs).Keys + {key}
      ensures forall k :: k in old(jobIDs) ==> k in jobIDs && jobIDs[k] == old(jobIDs[k])
    {
      AddOwns(cron.live, cron.nextId, jobIDs, leaked, key, entry);
      var id := cron.NewJob(entry);
      if id.Some? {
        jobIDs := jobIDs[key := id.value];
      }
    }

    /** Reconciles everything. Afterwards the keyed jobs are exactly the enabled entries whose
        schedule is accepted, each holding the entry it was given; a job that was live under a key
        before is gone, unless its removal failed, and then it is leaked. */
    method Sync(entries: seq<Entry>)
      requires Valid()
      modifies this, cron
      ensures Valid()
      ensures JobTable() == Target(Wanted(entries), cron.accepts)
      ensures leaked == old(leaked) + (old(Ids(jobIDs)) * cron.stuck)
    {
      var wanted: Entries := map[];
      for i := 0 to |entries|
        invariant wanted == Wanted(entries[..i])
        invariant unchanged(this) && unchanged(cron)
      {
        assert entries[..i + 1][..i] == entries[..i];
        if entries[i].routine.enabled {
          wanted := wanted[EntryKey(entries[i].ref) := entries[i]];
        }
      }
      assert entries[..|entries|] == entries;
      WantedAreEnabled(entries);
      DropUnwanted(wanted.Keys);
      ReplaceWanted(wanted);
    }

    method DropUnwanted(wanted: set<string>)
      requires Valid()
      modifies this, cron
      ensures Valid() && jobIDs.Keys <= wanted
      ensures leaked + (Ids(jobIDs) * cron.stuck) == old(leaked) + (old(Ids(jobIDs)) * cron.stuck)
    {
      var rest := jobIDs.Keys;
      while rest != {}
        invariant Valid() && rest <= jobIDs.Keys <= rest + wanted
        invariant leaked + (Ids(jobIDs) * cron.stuck) == old(leaked) + (old(Ids(jobIDs)) * cron.stuck)
      {
        var key :| key in rest;
        rest := rest - {key};
        if key !in wanted {
          assert jobIDs[key] in Ids(jobIDs);
          Drop(key);
        }
      }
    }

    /** Replaces a key's job: the cron library cannot reschedule one in place. */
    method Replace(key: string, entry: Entry)
      requires Valid()
      modifies this, cron
      ensures Valid()
      ensures JobTable() == var less := old(JobTable()) - {key};
                            if cron.accepts(entry.routine.schedule) then less[key := entry] else less
      ensures leaked == old(leaked) + ((if key in old(jobIDs) then {old(jobIDs)[key]} else {}) * cron.stuck)
      ensures forall k :: k != key ==>
                (k in jobIDs <==> k in old(jobIDs)) && (k in jobIDs ==> jobIDs[k] == old(jobIDs)[k])
    {
      hide Owns, Ids, Jobs;
      if key in jobIDs {
        Drop(key);
      }
      ghost var less := jobIDs;
      assert less == old(jobIDs) - {key};
      Add(key, entry);
      OthersKept(old(jobIDs), less, jobIDs, key);
    }

    method ReplaceWanted(wanted: Entries)
      requires Valid() && jobIDs.Keys <= wanted.Keys
      modifies this, cron
      ensures Valid()
      ensures JobTable() == Accepted(wanted, cron.accepts)
      ensures leaked == old(leaked) + (old(Ids(jobIDs)) * cron.stuck)
    {
      hide Owns, Replaced, IdsOutside, Accepted;
      var rest := wanted.Keys;
      ghost var table := JobTable();
      NoneReplaced(table, jobIDs, wanted, cron.accepts);
      while rest != {}
        invariant Valid() && rest <= wanted.Keys
        invariant JobTable() == Replaced(table, wanted, cron.accepts, rest)
        invariant forall k :: k in rest ==>
                    (k in jobIDs <==> k in old(jobIDs)) && (k in jobIDs ==> jobIDs[k] == old(jobIDs[k]))
        invariant leaked == old(leaked) + (IdsOutside(old(jobIDs), rest) * cron.stuck)
      {
        var key :| key in rest;
        ghost var was := rest;
        rest := rest - {key};
        ReplacedStep(table, wanted, cron.accepts, was, key);
        IdsOutsideStep(old(jobIDs), was, key);
        Replace(key, wanted[key]);
      }
      AllReplaced(table, old(jobIDs), wanted, cron.accepts);
    }

    /** Applies one store event. An addition or an update reconciles everything with what the store
        holds at that moment. Jobs leak exactly when the removal of their job fails. */
    method ApplyEvent(ev: Event, storeEntries: seq<Entry>)
      requires Valid()
      modifies this, cron
      ensures Valid()
      ensures JobTable() == match ev
                case Removed(k) => old(JobTable()) - {k}
                case _ => Target(Wanted(storeEntries), cron.accepts)
      ensures leaked == old(leaked) + match ev
                case Removed(k) => if k in old(jobIDs) then {old(jobIDs)[k]} * cron.stuck else {}
                case _ => old(Ids(jobIDs)) * cron.stuck
    {
      match ev {
        case Removed(k) =>
          if k in jobIDs {
            Drop(k);
          }
        case _ => Sync(storeEntries);
      }
    }
  }

  lemma OthersKept(was: map<string, nat>, less: map<string, nat>, now: map<string, nat>, key: string)
    requires less == was - {key} && less.Keys <= now.Keys <= less.Keys + {key}
    requires forall k :: k in less ==> now[k] == less[k]
    ensures forall k :: k != key ==> (k in now <==> k in was) && (k in now ==> now[k] == was[k])
  {
  }

  /** The target of entries that are all enabled. */
  function Accepted(wanted: Entries, accepts: string -> bool): Entries {
    map k | k in wanted && accepts(wanted[k].routine.schedule) :: wanted[k]
  }

  /** The job table while wanted entries are being replaced: those in `rest` are as they were. */
  ghost function Replaced(table: Entries, wanted: Entries, accepts: string -> bool, rest: set<string>): Entries {
    map k | k in table.Keys + wanted.Keys
            && (if k in rest then k in table else k in wanted && accepts(wanted[k].routine.schedule))
      :: if k in rest then table[k] else wanted[k]
  }

  lemma ReplacedStep(table: Entries, wanted: Entries, accepts: string -> bool, rest: set<string>, key: string)
    requires key in rest && key in wanted
    ensures Replaced(table, wanted, accepts, rest - {key}) ==
              var less := Replaced(table, wanted, accepts, rest) - {key};
              if accepts(wanted[key].routine.schedule) then less[key := wanted[key]] else less
  {
  }

  lemma NoneReplaced(table: Entries, jobIDs: map<string, nat>, wanted: Entries, accepts: string -> bool)
    requires table.Keys <= jobIDs.Keys <= wanted.Keys
    ensures Replaced(table, wanted, accepts, wanted.Keys) == table && IdsOutside(jobIDs, wanted.Keys) == {}
  {
  }

  lemma AllReplaced(table: Entries, jobIDs: map<string, nat>, wanted: Entries, accepts: string -> bool)
    requires table.Keys <= wanted.Keys
    ensures Replaced(table, wanted, accepts, {}) == Accepted(wanted, accepts)
    ensures IdsOutside(jobIDs, {}) == Ids(jobIDs)
  {
  }

  ghost function IdsOutside(jobIDs: map<string, nat>, rest: set<string>): set<nat> {
    set k | k in jobIDs && k !in rest :: jobIDs[k]
  }

  lemma IdsOutsideStep(jobIDs: map<string, nat>, rest: set<string>, key: string)
    requires key in rest
    ensures IdsOutside(jobIDs, rest - {key}) ==
              IdsOutside(jobIDs, rest) + if key in jobIDs then {jobIDs[key]} else {}
  {
  }

  lemma {:induction false} WantedAreEnabled(entries: seq<Entry>)
    ensures forall k :: k in Wanted(entries) ==> Wanted(entries)[k].routine.enabled
  {
    if entries != [] {
      WantedAreEnabled(entries[..|entries| - 1]);
    }
  }
}
