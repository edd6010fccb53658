/** The reclaim pass a worker makes before each poll. */
module Recovery {
  import opened Basics
  import opened Emission
  import opened ReplayContract
  import opened RunStore
  import Stores

  /** Stranded after the runtime started. */
  predicate Stuck(s: Runs, id: string, now: int) {
    Expired(s, id, now) && s.runs[id].status == RunRunning
  }

  /** What a pass makes of one stored run. */
  function Recovered(s: Runs, id: string, now: int): Run
    requires id in s.runs
  {
    if Stuck(s, id, now) then Orphaned(s.runs[id], now) else s.runs[id]
  }

  function AfterPass(s: Runs, now: int): Runs {
    s.(runs := map id | id in s.runs :: Recovered(s, id, now))
  }

  lemma RecoveredRun(s: Runs, id: string, now: int)
    requires StoreInv(s) && id in s.runs
    ensures Recovered(s, id, now).Valid() && Recovered(s, id, now).runId == id
    ensures Advances(s.runs[id], Recovered(s, id, now))
    ensures Stuck(s, id, now) ==> Recovered(s, id, now).status == RunFailed
  {
    if Stuck(s, id, now) {
      OrphanExact(s.runs[id], now);
    }
  }

  /** `FinalizeOrphan`: an invalid record is dropped before the store sees it. */
  method FinalizeOrphan(store: Stores.Store, run: Run, now: int) returns (ok: bool)
    requires store.Valid()
    modifies store`runs
    ensures store.Valid()
    ensures !Orphaned(run, now).Valid() ==> !ok && store.Replays() == old(store.Replays())
    ensures Orphaned(run, now).Valid() && IsTerminal(run.status) ==> ok && store.Replays() == old(store.Replays())
    ensures Orphaned(run, now).Valid() && !IsTerminal(run.status) ==>
              && store.Replays() == Transition(old(store.Replays()), run.status, Orphaned(run, now)).0
              && (ok <==> Transition(old(store.Replays()), run.status, Orphaned(run, now)).1.None?)
  {
    var failed := Orphaned(run, now);
    if !failed.Valid() {
      return false;
    }
    if IsTerminal(run.status) {
      return true;
    }
    var err := store.TransitionRun(run.status, failed);
    return err.None?;
  }

  /** The store part of the way through a pass: the runs in `done` have been
      dealt with, all others are as they were. */
  ghost predicate Partly(s: Runs, now: int, done: set<string>, t: Runs) {
    && t.lease == s.lease && t.runs.Keys == s.runs.Keys
    && forall id | id in s.runs :: t.runs[id] == if id in done then Recovered(s, id, now) else s.runs[id]
  }

  /** Finalizing one stuck run that is still as the pass found it. */
  lemma VisitStuck(s: Runs, now: int, done: set<string>, id: string, t: Runs)
    requires Stuck(s, id, now) && s.runs[id].Valid() && s.runs[id].runId == id
    requires id !in done && Partly(s, now, done, t)
    ensures Transition(t, RunRunning, Orphaned(s.runs[id], now)) ==
            (t.(runs := t.runs[id := Recovered(s, id, now)]), None)
  {
    OrphanExact(s.runs[id], now);
  }

  lemma PartlyNext(s: Runs, now: int, done: set<string>, id: string, t: Runs)
    requires id in s.runs && Partly(s, now, done, t)
    ensures Partly(s, now, done + {id}, t.(runs := t.runs[id := Recovered(s, id, now)]))
    ensures id !in done && Recovered(s, id, now) == s.runs[id] ==> Partly(s, now, done + {id}, t)
  {
  }

  /** One round of the loop. */
  method Visit(store: Stores.Store, run: Run, now: int, ghost s: Runs, ghost done: set<string>) returns (ok: bool)
    requires store.Valid() && StoreInv(s) && Partly(s, now, done, store.Replays())
    requires Expired(s, run.runId, now) && s.runs[run.runId] == run && run.runId !in done
    modifies store`runs
    ensures store.Valid() && Partly(s, now, done + {run.runId}, store.Replays())
    ensures ok <==> Stuck(s, run.runId, now)
  {
    VisitEffect(s, now, done, run, store.Replays());
    ok := FinalizeOrphan(store, run, now);
  }

  /** What finalizing one listed run does to the pass. */
  lemma VisitEffect(s: Runs, now: int, done: set<string>, run: Run, t: Runs)
    requires StoreInv(s) && Partly(s, now, done, t)
    requires Expired(s, run.runId, now) && s.runs[run.runId] == run && run.runId !in done
    ensures !IsTerminal(run.status)
    ensures if Stuck(s, run.runId, now)
            then Orphaned(run, now).Valid() && Transition(t, run.status, Orphaned(run, now)).1.None? &&
                 Partly(s, now, done + {run.runId}, Transition(t, run.status, Orphaned(run, now)).0)
            else !Orphaned(run, now).Valid() && Partly(s, now, done + {run.runId}, t)
  {
    OrphanExact(run, now);
    PartlyNext(s, now, done, run.runId, t);
    if Stuck(s, run.runId, now) {
      VisitStuck(s, now, done, run.runId, t);
    }
  }

  ghost function Visited(expired: seq<Run>, k: nat): set<string>
    requires k <= |expired|
  {
    set j | 0 <= j < k :: expired[j].runId
  }

  lemma VisitedNext(expired: seq<Run>, k: nat)
    requires k < |expired|
    ensures Visited(expired, k + 1) == Visited(expired, k) + {expired[k].runId}
  {
  }

  /** `reclaimOrphans`, undisturbed: every run stuck in RUNNING is failed, and
      nothing else changes. */
  method ReclaimOrphans(store: Stores.Store, now: int) returns (stranded: seq<string>)
    requires store.Valid()
    modifies store`runs
    ensures store.Valid() && store.Replays() == AfterPass(old(store.Replays()), now)
    ensures forall id :: id in stranded <==> Stuck(old(store.Replays()), id, now)
  {
    ghost var s := store.Replays();
    assert StoreInv(s);
    var expired := store.ReclaimExpiredRuns(now);
    stranded := [];
    for k := 0 to |expired|
      invariant store.Valid() && Partly(s, now, Visited(expired, k), store.Replays())
      invariant forall id :: id in stranded <==> id in Visited(expired, k) && Stuck(s, id, now)
    {
      var run := expired[k];
      ExpiredEntry(s, now, expired, k);
      VisitedNext(expired, k);
      var ok := Visit(store, run, now, s, Visited(expired, k));
      if ok {
        stranded := stranded + [run.runId];
      }
    }
    forall id | Stuck(s, id, now) ensures id in Visited(expired, |expired|) {
      StuckListed(s, now, expired, id);
    }
    AllVisited(s, now, Visited(expired, |expired|), store.Replays());
  }

  lemma ExpiredEntry(s: Runs, now: int, expired: seq<Run>, k: nat)
    requires StoreInv(s) && Enumerates(expired, ExpiredRuns(s, now)) && k < |expired|
    ensures Expired(s, expired[k].runId, now) && s.runs[expired[k].runId] == expired[k]
    ensures expired[k].runId !in Visited(expired, k)
  {
    forall j | 0 <= j <= k ensures Expired(s, expired[j].runId, now) && s.runs[expired[j].runId] == expired[j] {
      assert expired[j] in expired;
    }
  }

  lemma StuckListed(s: Runs, now: int, expired: seq<Run>, id: string)
    requires StoreInv(s) && Enumerates(expired, ExpiredRuns(s, now)) && Stuck(s, id, now)
    ensures id in Visited(expired, |expired|)
  {
    assert s.runs[id] in expired;
    var j :| 0 <= j < |expired| && expired[j] == s.runs[id];
    assert expired[j].runId == id;
  }

  lemma AllVisited(s: Runs, now: int, done: set<string>, t: Runs)
    requires Partly(s, now, done, t) && forall id | Stuck(s, id, now) :: id in done
    ensures t == AfterPass(s, now)
  {
    forall id | id in s.runs ensures t.runs[id] == AfterPass(s, now).runs[id] {
      assert !Stuck(s, id, now) ==> Recovered(s, id, now) == s.runs[id];
    }
    assert t.runs == AfterPass(s, now).runs;
  }

  /** One pass recovers every run that had reached RUNNING and whose lease has
      run out: it ends FAILED, with a valid record of the same provenance. Runs
      with a live lease, terminal runs and runs not yet RUNNING are untouched;
      in particular a run stranded in VALIDATING stays there. */
  lemma PassRecovers(s: Runs, now: int, id: string)
    requires StoreInv(s) && id in s.runs
    ensures var r := AfterPass(s, now).runs[id];
            if s.runs[id].status == RunRunning && (id in s.lease ==> s.lease[id] < now)
            then && r.status == RunFailed && r.Valid() && SameProvenance(s.runs[id], r)
                 && r.error.Some? && r.error.value.code == InternalFailure && r.completedAt == Some(now)
                 && r.startedAt == s.runs[id].startedAt && r.runId == id
            else r == s.runs[id]
  {
    RecoveredRun(s, id, now);
  }

  /** After a pass a run is RUNNING only under a live lease. */
  lemma PassLeavesLiveOnly(s: Runs, now: int, id: string)
    requires StoreInv(s) && id in AfterPass(s, now).runs && AfterPass(s, now).runs[id].status == RunRunning
    ensures id in s.lease && s.lease[id] >= now
  {
    RecoveredRun(s, id, now);
  }

  /** The pass keeps the store's invariant and only advances runs. */
  lemma PassEvolves(s: Runs, now: int)
    requires StoreInv(s)
    ensures StoreInv(AfterPass(s, now)) && Evolves(s, AfterPass(s, now))
  {
    var t := AfterPass(s, now);
    forall id | id in t.runs ensures t.runs[id].Valid() && t.runs[id].runId == id && Advances(s.runs[id], t.runs[id]) {
      RecoveredRun(s, id, now);
    }
    forall id | id in t.runs && t.runs[id].runType == WhatIf
      ensures t.runs[id].baselineRunId in t.runs && Admits(t.runs[t.runs[id].baselineRunId], t.runs[id])
    {
      BaselineUntouched(s, now, id);
    }
  }

  /** The baseline of an admitted run is COMPLETED, so no pass touches it. */
  lemma BaselineUntouched(s: Runs, now: int, id: string)
    requires StoreInv(s) && id in s.runs && s.runs[id].runType == WhatIf
    ensures s.runs[id].baselineRunId in s.runs
    ensures Recovered(s, s.runs[id].baselineRunId, now) == s.runs[s.runs[id].baselineRunId]
    ensures Admits(s.runs[s.runs[id].baselineRunId], Recovered(s, id, now))
  {
  }
}
