/** The run half of the store: each method as a function on the stored runs and
    leases, and what every one of them keeps. */
module RunStore {
  import opened Basics
  import opened ReplayContract

  datatype Runs = Runs(runs: map<string, Run>, lease: map<string, int>)

  /** The gate `PutRun` puts before a what-if run. */
  predicate Admits(baseline: Run, run: Run) {
    && baseline.runId == run.baselineRunId && baseline.runType == Baseline && baseline.status == RunCompleted
    && baseline.outcome == Some(Reproduced)
    && baseline.isolation.Some? && baseline.isolation.value.verdict == Pass
    && baseline.capsuleId == run.capsuleId && baseline.capsuleHash == run.capsuleHash && baseline.intervention.None?
  }

  /** The worker's own check of the baseline, `authorizeBaseline`. */
  predicate Eligible(baseline: Run, run: Run) {
    && baseline.runType == Baseline && baseline.status == RunCompleted && baseline.outcome == Some(Reproduced)
    && baseline.isolation.Some? && baseline.isolation.value.verdict == Pass
    && baseline.capsuleHash == run.capsuleHash
  }

  predicate Authorized(s: Runs, run: Run) {
    run.baselineRunId in s.runs && Eligible(s.runs[run.baselineRunId], run)
  }

  function Put(s: Runs, run: Run): (Runs, Option<StoreError>) {
    if !run.Valid() then (s, Some(InternalError))
    else if run.runId in s.runs then (s, Some(Conflict))
    else if run.runType == WhatIf && !(run.baselineRunId in s.runs && Admits(s.runs[run.baselineRunId], run)) then
      (s, Some(InvalidLifecycle))
    else (s.(runs := s.runs[run.runId := run]), None)
  }

  function Claim(s: Runs, id: string, until: int): (Runs, Result<Run, StoreError>) {
    if id !in s.runs then (s, Failure(NotFound))
    else if s.runs[id].status != RunCreated then (s, Failure(InvalidLifecycle))
    else
      var run := s.runs[id].(status := RunValidating);
      (Runs(s.runs[id := run], s.lease[id := until]), Success(run))
  }

  function Renew(s: Runs, id: string, until: int): (Runs, Option<StoreError>) {
    if id !in s.runs then (s, Some(NotFound)) else (s.(lease := s.lease[id := until]), None)
  }

  function Transition(s: Runs, from: RunStatus, run: Run): (Runs, Option<StoreError>) {
    if !CanTransition(from, run.status) || !run.Valid() then (s, Some(InvalidLifecycle))
    else if run.runId !in s.runs then (s, Some(NotFound))
    else if s.runs[run.runId].status != from || !SameProvenance(s.runs[run.runId], run) then (s, Some(InvalidLifecycle))
    else (s.(runs := s.runs[run.runId := run]), None)
  }

  // ----- the two gates, written out -----

  /** A run is created when it is valid and new, and a what-if run only beside a
      completed baseline of the same capsule that reproduced the failure under a
      passing isolation verdict. */
  predicate MayPut(runs: map<string, Run>, run: Run) {
    run.Valid() && run.runId !in runs &&
    (run.runType == WhatIf ==>
       run.baselineRunId in runs &&
       var b := runs[run.baselineRunId];
       && b.runId == run.baselineRunId && b.runType == Baseline && b.status == RunCompleted
       && b.outcome == Some(Reproduced) && b.isolation.Some? && b.isolation.value.verdict == Pass
       && b.capsuleId == run.capsuleId && b.capsuleHash == run.capsuleHash && b.intervention.None?)
  }

  const LEGAL := {
    (RunCreated, RunValidating),
    (RunValidating, RunRunning), (RunValidating, RunBlocked), (RunValidating, RunFailed),
    (RunRunning, RunCompleted), (RunRunning, RunBlocked), (RunRunning, RunFailed)
  }

  /** A run is replaced along a legal transition, from the status it is stored in,
      by a valid record that keeps the seven fields of its provenance. */
  predicate MayTransition(runs: map<string, Run>, from: RunStatus, run: Run) {
    (from, run.status) in LEGAL && run.Valid() && run.runId in runs &&
    var r := runs[run.runId];
    && r.status == from && r.executionId == run.executionId && r.capsuleId == run.capsuleId
    && r.capsuleHash == run.capsuleHash && r.runType == run.runType && r.baselineRunId == run.baselineRunId
    && r.intervention == run.intervention && r.trial == run.trial
  }

  /** The worker's check of the baseline, written out. */
  lemma AuthorizedExactly(s: Runs, run: Run)
    ensures Authorized(s, run) <==>
            run.baselineRunId in s.runs &&
            var b := s.runs[run.baselineRunId];
            && b.runType == Baseline && b.status == RunCompleted && b.outcome == Some(Reproduced)
            && b.isolation.Some? && b.isolation.value.verdict == Pass && b.capsuleHash == run.capsuleHash
  {
  }

  lemma PutExactly(s: Runs, run: Run)
    ensures Put(s, run).1.None? <==> MayPut(s.runs, run)
    ensures Put(s, run).0 == if MayPut(s.runs, run) then Runs(s.runs[run.runId := run], s.lease) else s
    ensures Put(s, run).1 == Some(InternalError) <==> !run.Valid()
    ensures Put(s, run).1 == Some(Conflict) <==> run.Valid() && run.runId in s.runs
  {
  }

  lemma TransitionExactly(s: Runs, from: RunStatus, run: Run)
    ensures Transition(s, from, run).1.None? <==> MayTransition(s.runs, from, run)
    ensures Transition(s, from, run).0 == if MayTransition(s.runs, from, run) then Runs(s.runs[run.runId := run], s.lease) else s
    ensures Transition(s, from, run).1.Some? ==>
              Transition(s, from, run).1.value ==
              if (from, run.status) in LEGAL && run.Valid() && run.runId !in s.runs then NotFound else InvalidLifecycle
  {
  }

  /** `Reset` forgets the runs; the leases stay. */
  function Reset(s: Runs): Runs {
    s.(runs := map[])
  }

  /** Stranded: VALIDATING or RUNNING with a lease that has run out, or none. */
  predicate Expired(s: Runs, id: string, now: int) {
    && id in s.runs && (s.runs[id].status == RunValidating || s.runs[id].status == RunRunning)
    && (id in s.lease ==> s.lease[id] < now)
  }

  /** The runs `ReclaimExpiredRuns` returns. */
  function ExpiredRuns(s: Runs, now: int): set<Run> {
    set id | id in s.runs && Expired(s, id, now) :: s.runs[id]
  }

  /** Written out: VALIDATING or RUNNING, and no lease or one that has run out. */
  lemma ExpiredExactly(s: Runs, now: int, run: Run)
    requires forall id | id in s.runs :: s.runs[id].runId == id
    ensures run in ExpiredRuns(s, now) <==>
            && run.runId in s.runs && s.runs[run.runId] == run
            && (run.status == RunValidating || run.status == RunRunning)
            && (run.runId !in s.lease || s.lease[run.runId] < now)
  {
  }

  /** A renewal changes the lease and nothing else, and up to its end no pass
      lists the run. */
  lemma RenewalProtects(s: Runs, id: string, until: int, now: int)
    requires forall k | k in s.runs :: s.runs[k].runId == k
    ensures Renew(s, id, until).1.None? <==> id in s.runs
    ensures Renew(s, id, until).1.None? ==> Renew(s, id, until).0 == Runs(s.runs, s.lease[id := until])
    ensures Renew(s, id, until).1.Some? ==> Renew(s, id, until) == (s, Some(NotFound))
    ensures Renew(s, id, until).1.None? && now <= until ==>
              forall run | run in ExpiredRuns(Renew(s, id, until).0, now) :: run.runId != id
  {
  }

  /** So does a claim, which moves the run from CREATED to VALIDATING. */
  lemma ClaimProtects(s: Runs, id: string, until: int, now: int)
    requires forall k | k in s.runs :: s.runs[k].runId == k
    ensures var (t, r) := Claim(s, id, until);
            && (r.Success? <==> id in s.runs && s.runs[id].status == RunCreated)
            && (r.Success? ==> r.value == s.runs[id].(status := RunValidating) &&
                               t == Runs(s.runs[id := r.value], s.lease[id := until]))
            && (r.Failure? ==> t == s && r.error == if id in s.runs then InvalidLifecycle else NotFound)
            && (r.Success? && now <= until ==> forall run | run in ExpiredRuns(t, now) :: run.runId != id)
  {
  }

  // ----- what every reachable store satisfies -----

  /** Stored runs are valid and filed under their id, and every what-if has its
      admitted baseline beside it. */
  ghost predicate StoreInv(s: Runs) {
    && (forall id | id in s.runs :: s.runs[id].runId == id && s.runs[id].Valid())
    && (forall id | id in s.runs && s.runs[id].runType == WhatIf ::
          s.runs[id].baselineRunId in s.runs && Admits(s.runs[s.runs[id].baselineRunId], s.runs[id]))
  }

  lemma PutKeepsInv(s: Runs, run: Run)
    requires StoreInv(s)
    ensures StoreInv(Put(s, run).0)
  {
  }

  lemma ClaimKeepsInv(s: Runs, id: string, until: int)
    requires StoreInv(s)
    ensures StoreInv(Claim(s, id, until).0)
  {
    if id in s.runs && s.runs[id].status == RunCreated {
      ClaimKeepsValid(s.runs[id]);
    }
  }

  lemma TransitionKeepsInv(s: Runs, from: RunStatus, run: Run)
    requires StoreInv(s)
    ensures StoreInv(Transition(s, from, run).0)
  {
  }

  predicate Stored(s: Runs, id: string, run: Run, status: RunStatus) {
    id in s.runs && s.runs[id] == run && run.status == status
  }

  /** A valid VALIDATING run can always be started. */
  lemma StartAccepted(s: Runs, run: Run, now: int)
    requires StoreInv(s) && Stored(s, run.runId, run, RunValidating)
    ensures var (t, e) := Transition(s, run.status, Started(run, now));
            e.None? && t == s.(runs := s.runs[run.runId := Started(run, now)])
  {
    StartKeepsValid(run, now);
  }

  /** A later state of the same run: same provenance, no lower rank, unchanged
      once terminal. */
  predicate Advances(a: Run, b: Run) {
    && SameProvenance(a, b) && a.runId == b.runId && Rank(a.status) <= Rank(b.status)
    && (IsTerminal(a.status) ==> a == b)
  }

  /** From one store to a later one: every run stays and advances. */
  ghost predicate Evolves(s: Runs, t: Runs) {
    forall id | id in s.runs :: id in t.runs && Advances(s.runs[id], t.runs[id])
  }

  lemma EvolvesTransitive(s: Runs, t: Runs, u: Runs)
    requires Evolves(s, t) && Evolves(t, u)
    ensures Evolves(s, u)
  {
    forall id | id in s.runs ensures id in u.runs && Advances(s.runs[id], u.runs[id]) {
      assert Advances(s.runs[id], t.runs[id]) && Advances(t.runs[id], u.runs[id]);
    }
  }

  lemma PutEvolves(s: Runs, run: Run)
    ensures Evolves(s, Put(s, run).0)
  {
  }

  lemma ClaimEvolves(s: Runs, id: string, until: int)
    ensures Evolves(s, Claim(s, id, until).0)
  {
  }

  lemma TransitionEvolves(s: Runs, from: RunStatus, run: Run)
    requires run.runId in s.runs ==> s.runs[run.runId].runId == run.runId
    ensures Evolves(s, Transition(s, from, run).0)
  {
    if CanTransition(from, run.status) {
      TransitionRaisesRank(from, run.status);
    }
  }

  /** An admitted what-if run keeps its authorization for as long as the store
      only evolves. */
  lemma AdmittedStaysAuthorized(s: Runs, id: string, t: Runs)
    requires StoreInv(s) && id in s.runs && s.runs[id].runType == WhatIf && Evolves(s, t)
    ensures Authorized(t, s.runs[id])
  {
  }

  /** Failing an orphan that had reached RUNNING always leaves the run terminal:
      either the write succeeds or someone else has finished it first. */
  lemma OrphanEndsTerminal(s: Runs, run: Run, t: Runs, now: int)
    requires StoreInv(s) && StoreInv(t) && Evolves(s, t)
    requires run.runId in s.runs && s.runs[run.runId] == run && run.status == RunRunning
    ensures var u := Transition(t, run.status, Orphaned(run, now)).0;
            run.runId in u.runs && IsTerminal(u.runs[run.runId].status)
  {
    OrphanExact(run, now);
    assert Advances(run, t.runs[run.runId]);
    if t.runs[run.runId].status == RunRunning {
      OrphanWritten(run, t, now);
    }
  }

  lemma OrphanWritten(run: Run, t: Runs, now: int)
    requires Orphaned(run, now).Valid() && run.runId in t.runs && t.runs[run.runId].status == RunRunning
    requires run.status == RunRunning && SameProvenance(run, t.runs[run.runId])
    ensures Transition(t, run.status, Orphaned(run, now)).0.runs == t.runs[run.runId := Orphaned(run, now)]
  {
  }

  /** The reclaim pass never recovers an orphan stranded in VALIDATING: the record
      is refused before any write, whatever the store holds by then. */
  lemma StrandedValidatingStays(s: Runs, run: Run, t: Runs, now: int)
    requires StoreInv(s) && run.runId in s.runs && s.runs[run.runId] == run && run.status == RunValidating
    ensures Transition(t, run.status, Orphaned(run, now)) == (t, Some(InvalidLifecycle))
  {
    OrphanExact(run, now);
  }
}
