/** The replay run record: its contract, its legal transitions and the records
    the replay package builds for each of them. */
module ReplayContract {
  import opened Basics
  import opened Oracle

  datatype RunStatus = RunCreated | RunValidating | RunRunning | RunCompleted | RunFailed | RunBlocked
  datatype RunType = Baseline | WhatIf
  datatype ReplayOutcome = Reproduced | NotReproduced | Mitigated | Unchanged | Inconclusive
  datatype Verdict = Pass | Fail
  datatype ErrorCode =
    | SchemaInvalid | IntegrityMismatch | PackUnavailable | FixtureMissing | SanitizationFailed | IsolationViolation
    | DestinationBlocked | CycleFound | OracleUnavailable | InterventionInvalid | InternalFailure

  /** A payment latency change in milliseconds, the only kind there is. */
  datatype Intervention = Intervention(from: int, to: int) {
    predicate Valid() {
      0 <= from <= 5000 && 0 <= to <= 5000 && from != to
    }
  }

  datatype RunError = RunError(code: ErrorCode, message: string)

  datatype InteractionResult = Simulated | Allowed | Denied

  /** `replayHost` is the outcome of `replayOnlyHost` on the destination. */
  datatype Interaction = Interaction(dependency: string, destination: string, operation: string,
                                     replayHost: bool, result: InteractionResult)
  {
    predicate Valid() {
      dependency != "" && destination != "" && operation != ""
    }
  }

  const REPLAY_DATASTORE := "postgres://replay/"

  /** `policyOk` and `replayOnly` compare the policy version and the credential
      profile with the only values the contract allows. */
  datatype Isolation = Isolation(policyOk: bool, verdict: Verdict, namespace: string, network: Verdict, replayOnly: bool,
                                 datastores: seq<string>, simulator: seq<Interaction>, denied: seq<Interaction>,
                                 teardown: Verdict)
  {
    /** The evidence shows a violation. */
    predicate Violated() {
      || network == Fail || teardown == Fail || |denied| != 0
      || exists d | d in datastores :: !(REPLAY_DATASTORE <= d)
    }

    /** `IsolationEvidence.Validate`. */
    predicate Valid() {
      && policyOk && namespace != "" && replayOnly
      && (forall d | d in datastores :: !Blank(d))
      && (forall i | i in simulator :: i.Valid() && i.result != Denied && i.replayHost)
      && (forall i | i in denied :: i.Valid() && i.result == Denied)
      && (verdict == Fail <==> Violated())
    }

    /** `ValidateIsolation`: default-deny safe. */
    predicate Safe() {
      && policyOk && replayOnly && network != Fail && teardown != Fail && |denied| == 0
      && (forall d | d in datastores :: REPLAY_DATASTORE <= d)
      && (forall i | i in simulator :: i.replayHost)
    }
  }

  predicate SummaryValid(e: EffectSummary) {
    e.paymentAttempts >= 0 && e.ledgerCommits >= 0
  }

  predicate VerdictValid(o: OracleResult) {
    && o.oracleId != "" && o.oracleVersion != "" && (forall id | id in o.evidence :: !Blank(id)) && !Blank(o.explanation)
    && SummaryValid(o.effects)
  }

  predicate IsSha256(h: string) {
    |h| == 64 && forall c | c in h :: '0' <= c <= '9' || 'a' <= c <= 'f'
  }

  predicate IsTerminal(s: RunStatus) {
    s == RunCompleted || s == RunFailed || s == RunBlocked
  }

  /** How far a run has come. */
  function Rank(s: RunStatus): nat {
    match s
    case RunCreated => 0
    case RunValidating => 1
    case RunRunning => 2
    case _ => 3
  }

  /** `CanTransitionReplayRun`. */
  predicate CanTransition(from: RunStatus, to: RunStatus) {
    match from
    case RunCreated => to == RunValidating
    case RunValidating => to == RunRunning || to == RunBlocked || to == RunFailed
    case RunRunning => to == RunCompleted || to == RunBlocked || to == RunFailed
    case _ => false
  }

  datatype Run = Run(
    versionOk: bool,
    runId: string,
    executionId: string,
    capsuleId: string,
    capsuleHash: string,
    runType: RunType,
    baselineRunId: string,
    intervention: Option<Intervention>,
    trial: int,
    status: RunStatus,
    outcome: Option<ReplayOutcome>,
    startedAt: Option<int>,
    completedAt: Option<int>,
    effects: Option<EffectSummary>,
    verdict: Option<OracleResult>,
    isolation: Option<Isolation>,
    error: Option<RunError>)
  {
    predicate IdentityValid() {
      && versionOk && runId != "" && executionId != "" && capsuleId != "" && IsSha256(capsuleHash) && trial >= 1
      && (runType == Baseline ==> baselineRunId == "" && intervention.None?)
      && (runType == WhatIf ==> baselineRunId != "" && intervention.Some?)
      && (intervention.Some? ==> intervention.value.Valid())
    }

    predicate TimesValid() {
      && (status == RunCreated || status == RunValidating ==> startedAt.None?)
      && (status == RunRunning || status == RunCompleted || status == RunFailed ==> startedAt.Some?)
      && (IsTerminal(status) <==> completedAt.Some?)
    }

    /** What a COMPLETED run must carry. */
    predicate ResultValid() {
      && outcome.Some? && effects.Some? && verdict.Some? && isolation.Some? && isolation.value.verdict == Pass
      && error.None?
      && (runType == Baseline ==> outcome.value in [Reproduced, NotReproduced, Inconclusive])
      && (runType == WhatIf ==> outcome.value in [Mitigated, Unchanged, Inconclusive])
      && SummaryValid(effects.value) && VerdictValid(verdict.value) && isolation.value.Valid()
      && (outcome.value in [Reproduced, Unchanged] ==> verdict.value.matched)
      && (outcome.value in [NotReproduced, Mitigated] ==> !verdict.value.matched)
    }

    predicate ErrorValid() {
      && (status == RunFailed || status == RunBlocked <==> error.Some?)
      && (error.Some? ==>
            && (status == RunBlocked && error.value.code in [IsolationViolation, DestinationBlocked] ==> isolation.Some?)
            && !Blank(error.value.message))
    }

    /** `ReplayRun.Validate`. */
    predicate Valid() {
      && IdentityValid() && TimesValid()
      && (isolation.Some? && status != RunCompleted ==> isolation.value.Valid())
      && (if status == RunCompleted then ResultValid() else outcome.None?)
      && ErrorValid()
    }
  }

  /** The run's effect summary is the one of its verdict. */
  predicate EffectsMatch(run: Run) {
    run.verdict.Some? && run.effects == Some(run.verdict.value.effects)
  }

  /** The fields a transition may not change. */
  predicate SameProvenance(a: Run, b: Run) {
    && a.executionId == b.executionId && a.capsuleId == b.capsuleId && a.capsuleHash == b.capsuleHash
    && a.runType == b.runType && a.baselineRunId == b.baselineRunId && a.intervention == b.intervention
    && a.trial == b.trial
  }

  // ----- the records the replay package builds -----

  function Or(value: Option<int>, now: int): Option<int> {
    if value.Some? then value else Some(now)
  }

  /** `NewRun`. */
  function NewRun(runId: string, executionId: string, capsuleId: string, capsuleHash: string, runType: RunType,
                  baselineRunId: string, intervention: Option<Intervention>, trial: int): (r: Option<Run>)
    ensures r.Some? ==>
              && r.value.Valid() && r.value.status == RunCreated && r.value.runId == runId
              && r.value.executionId == executionId && r.value.capsuleId == capsuleId && r.value.capsuleHash == capsuleHash
              && r.value.runType == runType && r.value.baselineRunId == baselineRunId
              && r.value.intervention == intervention && r.value.trial == trial
              && r.value.isolation.None? && r.value.error.None? && r.value.startedAt.None?
  {
    var run := Run(true, runId, executionId, capsuleId, capsuleHash, runType, baselineRunId, intervention, trial,
                   RunCreated, None, None, None, None, None, None, None);
    if run.Valid() then Some(run) else None
  }

  /** What a request must name for a run to be created. */
  lemma NewRunExactly(runId: string, executionId: string, capsuleId: string, capsuleHash: string, runType: RunType,
                      baselineRunId: string, intervention: Option<Intervention>, trial: int)
    ensures NewRun(runId, executionId, capsuleId, capsuleHash, runType, baselineRunId, intervention, trial).Some? <==>
            && runId != "" && executionId != "" && capsuleId != "" && trial >= 1
            && |capsuleHash| == 64 && (forall c | c in capsuleHash :: '0' <= c <= '9' || 'a' <= c <= 'f')
            && (if runType == Baseline then baselineRunId == "" && intervention.None?
                else baselineRunId != "" && intervention.Some? && intervention.value.from != intervention.value.to
                     && 0 <= intervention.value.from <= 5000 && 0 <= intervention.value.to <= 5000)
  {
  }

  /** The record `AdvanceRun` writes when the runtime starts. */
  function Started(run: Run, now: int): Run {
    run.(status := RunRunning, startedAt := Or(run.startedAt, now))
  }

  /** `deriveOutcome`. */
  function DeriveOutcome(runType: RunType, matched: bool): ReplayOutcome {
    if runType == WhatIf then (if matched then Unchanged else Mitigated)
    else if matched then Reproduced else NotReproduced
  }

  /** The COMPLETED record of `FinalizeRun`. */
  function Completion(run: Run, verdict: OracleResult, isolation: Isolation, now: int): Run {
    run.(status := RunCompleted, outcome := Some(DeriveOutcome(run.runType, verdict.matched)),
         effects := Some(verdict.effects), verdict := Some(verdict), isolation := Some(isolation), error := None,
         completedAt := Or(run.completedAt, now), startedAt := Or(run.startedAt, now))
  }

  /** The FAILED or BLOCKED record of the worker's `finalizeTerminal`. */
  function Terminated(run: Run, status: RunStatus, code: ErrorCode, message: string, now: int): Run {
    run.(status := status, outcome := None, error := Some(RunError(code, message)), completedAt := Some(now))
  }

  const WORKER := "replay worker"

  const ORPHAN_MESSAGE := WORKER + ": previous run was orphaned mid-lifecycle; not re-executed"

  /** The FAILED record of `FinalizeOrphan`. */
  function Orphaned(run: Run, now: int): Run {
    run.(status := RunFailed, outcome := None, error := Some(RunError(InternalFailure, ORPHAN_MESSAGE)),
         completedAt := Or(run.completedAt, now))
  }

  /** `IsolationFor`. */
  function IsolationFor(namespace: string, teardownOk: bool): Isolation {
    var verdict := if teardownOk then Pass else Fail;
    Isolation(true, verdict, namespace, Pass, true, [], [], [], verdict)
  }

  // ----- what the records satisfy -----

  /** The two isolation checks agree: on well-formed evidence the default-deny
      check accepts exactly what carries a passing verdict. */
  lemma IsolationChecksAgree(i: Isolation)
    requires i.Valid()
    ensures i.Safe() <==> i.verdict == Pass
  {
    if !i.Violated() {
      forall d | d in i.datastores ensures REPLAY_DATASTORE <= d {
      }
    }
  }

  lemma IsolationForExact(namespace: string, teardownOk: bool)
    ensures IsolationFor(namespace, teardownOk).Valid() <==> namespace != ""
    ensures IsolationFor(namespace, teardownOk).Safe() <==> teardownOk
  {
  }

  /** Claiming writes an unvalidated record; it is valid all the same. */
  lemma ClaimKeepsValid(run: Run)
    requires run.Valid() && run.status == RunCreated
    ensures run.(status := RunValidating).Valid()
  {
  }

  lemma StartKeepsValid(run: Run, now: int)
    requires run.Valid() && run.status == RunValidating
    ensures Started(run, now).Valid() && SameProvenance(run, Started(run, now))
  {
  }

  /** A running run completes with a consistent outcome whenever the oracle
      result is well-formed and the isolation evidence is well-formed and safe. */
  lemma CompletionExact(run: Run, verdict: OracleResult, isolation: Isolation, now: int)
    requires run.Valid() && run.status == RunRunning && isolation.Safe()
    ensures Completion(run, verdict, isolation, now).Valid() <==> VerdictValid(verdict) && isolation.Valid()
  {
    if isolation.Valid() {
      IsolationChecksAgree(isolation);
    }
  }

  lemma OrphanMessage()
    ensures !Blank(ORPHAN_MESSAGE)
  {
    assert WORKER[0] == 'r' && ORPHAN_MESSAGE[0] == 'r' && 'r' in ORPHAN_MESSAGE;
  }

  /** An orphan can be failed exactly when it had reached RUNNING: a run
      stranded in VALIDATING has no start time, which FAILED requires. */
  lemma OrphanExact(run: Run, now: int)
    requires run.Valid() && (run.status == RunValidating || run.status == RunRunning)
    ensures Orphaned(run, now).Valid() <==> run.status == RunRunning
  {
    OrphanMessage();
  }

  /** A worker's BLOCKED or FAILED record for a run without isolation evidence
      is refused exactly when a FAILED run never started, or a BLOCKED one names
      an isolation-related code. */
  lemma TerminatedExact(run: Run, status: RunStatus, code: ErrorCode, message: string, now: int)
    requires run.Valid() && !IsTerminal(run.status) && run.isolation.None? && !Blank(message)
    requires status == RunFailed || status == RunBlocked
    ensures Terminated(run, status, code, message, now).Valid() <==>
            (status == RunFailed ==> run.startedAt.Some?) &&
            (status == RunBlocked ==> code != IsolationViolation && code != DestinationBlocked)
  {
  }

  /** Transitions only ever raise the rank, by one up to RUNNING. */
  lemma TransitionRaisesRank(from: RunStatus, to: RunStatus)
    requires CanTransition(from, to)
    ensures Rank(from) < Rank(to) && !IsTerminal(from)
  {
  }
}
