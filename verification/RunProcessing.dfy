/** Driving one run from claim to result: the worker's `processRun` as a method
    on the store, tied to the step machine of the worker protocol. */
module RunProcessing {
  import opened Basics
  import opened ReplayContract
  import opened RunStore
  import opened WorkerProtocol
  import Stores

  /** How many steps a worker is from idle, at most. */
  function Distance(pc: Pc): nat {
    match pc
    case Idle => 0
    case Reading(_) => 9
    case Claiming(_) => 8
    case Rechecking(_) => 1
    case Authorizing(_) => 7
    case Advancing(_) => 6
    case Renewing(_) => 5
    case Loading(_, _) => 4
    case Executing(_, _) => 3
    case Persisting(_, _) => 2
    case Finishing(_, _) => 1
    case Reclaiming(_) => 0
  }

  /** The store after a worker has taken all its steps undisturbed. */
  function Solo(s: Runs, now: int, k: Worker, env: Env): Runs
    decreases Distance(k.pc)
  {
    if k.pc.Idle? || k.pc.Reclaiming? then s else
    var (t, k', _) := WorkerStep(s, now, k, env);
    StepsDown(s, now, k, env);
    Solo(t, now, k', env)
  }

  lemma StepsDown(s: Runs, now: int, k: Worker, env: Env)
    requires !k.pc.Idle? && !k.pc.Reclaiming?
    ensures Distance(WorkerStep(s, now, k, env).1.pc) < Distance(k.pc)
    ensures !WorkerStep(s, now, k, env).1.pc.Reclaiming?
  {
  }

  function At(pc: Pc): Worker {
    Worker(pc, [])
  }

  // ----- the method, stage by stage from the end -----

  /** `finalizeTerminal`: an invalid record is refused first; for a run that is
      terminal already nothing is written, and that is no error. */
  method FinalizeTerminal(store: Stores.Store, run: Run, status: RunStatus, code: ErrorCode, now: int, env: Env)
    returns (ok: bool)
    requires store.Valid() && IsTerminal(status)
    modifies store`runs
    ensures store.Valid()
    ensures store.Replays() == Solo(old(store.Replays()), now, Finalize(At(Idle), run, (status, code), env.message, now), env)
    ensures var target := Terminated(run, status, code, env.message, now);
            && (ok <==> target.Valid() && (IsTerminal(run.status) || Transition(old(store.Replays()), run.status, target).1.None?))
            && (IsTerminal(run.status) ==> store.Replays() == old(store.Replays()))
  {
    var target := Terminated(run, status, code, env.message, now);
    FinalizeStep(store.Replays(), now, run, status, code, env);
    if !target.Valid() {
      return false;
    }
    if IsTerminal(run.status) {
      FinishedStays(store.Replays(), run, target);
      return true;
    }
    var err := store.TransitionRun(run.status, target);
    return err.None?;
  }

  /** What finalizing amounts to when nobody interferes. */
  lemma FinalizeStep(s: Runs, now: int, run: Run, status: RunStatus, code: ErrorCode, env: Env)
    ensures var target := Terminated(run, status, code, env.message, now);
            Solo(s, now, Finalize(At(Idle), run, (status, code), env.message, now), env) ==
            if target.Valid() then Transition(s, run.status, target).0 else s
  {
    FinishStep(s, now, run, Terminated(run, status, code, env.message, now), env);
  }

  lemma FinishedStays(s: Runs, run: Run, target: Run)
    requires IsTerminal(run.status)
    ensures Transition(s, run.status, target).0 == s
  {
  }

  lemma FinishStep(s: Runs, now: int, run: Run, target: Run, env: Env)
    ensures Solo(s, now, At(Finishing(run, target)), env) == Transition(s, run.status, target).0
  {
    var (t, k', _) := WorkerStep(s, now, At(Finishing(run, target)), env);
    assert k'.pc.Idle?;
  }

  /** From the runner's events on: persist, judge, complete. */
  method PersistAndComplete(store: Stores.Store, run: Run, isolation: Isolation, now: int, env: Env)
    requires store.Valid()
    modifies store`runs
    ensures store.Valid() && store.Replays() == Solo(old(store.Replays()), now, At(Persisting(run, isolation)), env)
  {
    if !env.ingestOk {
      var ok := FinalizeTerminal(store, run, RunFailed, InternalFailure, now, env);
      return;
    }
    if env.verdict.None? {
      var ok := FinalizeTerminal(store, run, RunFailed, OracleUnavailable, now, env);
      return;
    }
    if !isolation.Safe() {
      return;
    }
    var target := Completion(run, env.verdict.value, isolation, now);
    if !target.Valid() {
      return;
    }
    ghost var s := store.Replays();
    var err := store.TransitionRun(run.status, target);
    FinishStep(s, now, run, target, env);
  }

  /** `Execute`, and the mapping of its errors. */
  method ExecuteAndFinish(store: Stores.Store, run: Run, cas: bool, now: int, env: Env)
    requires store.Valid()
    modifies store`runs
    ensures store.Valid() && store.Replays() == Solo(old(store.Replays()), now, At(Executing(run, cas)), env)
  {
    var result := Execute(env.execution);
    if result.Failure? {
      var (status, code) := ErrorRecord(result.error);
      var ok := FinalizeTerminal(store, run, status, code, now, env);
    } else {
      PersistAndComplete(store, run, result.value, now, env);
    }
  }

  /** The capsule checks. */
  method LoadAndExecute(store: Stores.Store, run: Run, cas: bool, now: int, env: Env)
    requires store.Valid()
    modifies store`runs
    ensures store.Valid() && store.Replays() == Solo(old(store.Replays()), now, At(Loading(run, cas)), env)
  {
    match env.capsule {
      case CapsuleMissing => var ok := FinalizeTerminal(store, run, RunFailed, FixtureMissing, now, env);
      case DigestMismatch => var ok := FinalizeTerminal(store, run, RunBlocked, IntegrityMismatch, now, env);
      case InterventionRejected =>
        if run.runType == WhatIf && run.intervention.Some? {
          var ok := FinalizeTerminal(store, run, RunBlocked, InterventionInvalid, now, env);
        } else {
          ExecuteAndFinish(store, run, cas, now, env);
        }
      case CapsuleOk => ExecuteAndFinish(store, run, cas, now, env);
    }
  }

  lemma StartStep(s: Runs, now: int, run: Run, env: Env)
    ensures var next := Started(run, now);
            var (t, err) := Transition(s, run.status, next);
            Solo(s, now, At(Advancing(run)), env) ==
            if err.Some? then t else Solo(Renew(t, next.runId, env.until).0, now, At(Loading(next, true)), env)
  {
    var next := Started(run, now);
    var (t, err) := Transition(s, run.status, next);
    if err.None? {
      assert Solo(s, now, At(Advancing(run)), env) == Solo(t, now, At(Renewing(next)), env);
    }
  }

  /** `AdvanceRun` to RUNNING, then the lease renewal. */
  method StartAndExecute(store: Stores.Store, run: Run, now: int, env: Env)
    requires store.Valid() && run.status == RunValidating
    modifies store`runs, store`leaseUntil
    ensures store.Valid() && store.Replays() == Solo(old(store.Replays()), now, At(Advancing(run)), env)
  {
    var next := Started(run, now);
    StartStep(store.Replays(), now, run, env);
    var err := store.TransitionRun(run.status, next);
    if err.Some? {
      return;
    }
    var refused := store.RenewLease(next.runId, env.until);
    LoadAndExecute(store, next, true, now, env);
  }

  lemma AuthorizeStep(s: Runs, now: int, run: Run, env: Env)
    ensures Solo(s, now, At(Authorizing(run)), env) ==
            if Authorized(s, run) then Solo(s, now, At(Advancing(run)), env)
            else Solo(s, now, Finalize(At(Idle), run, (RunBlocked, InterventionInvalid), env.message, now), env)
  {
  }

  /** A VALIDATING run: the baseline gate for what-if runs, then the start. */
  method AuthorizeAndStart(store: Stores.Store, run: Run, now: int, env: Env)
    requires store.Valid() && run.status == RunValidating
    modifies store`runs, store`leaseUntil
    ensures store.Valid() && store.Replays() == Solo(old(store.Replays()), now, At(Validated(run)), env)
  {
    if run.runType == WhatIf {
      AuthorizeStep(store.Replays(), now, run, env);
      var baseline := store.GetRun(run.baselineRunId);
      if baseline.Failure? || !Eligible(baseline.value, run) {
        var ok := FinalizeTerminal(store, run, RunBlocked, InterventionInvalid, now, env);
        return;
      }
    }
    StartAndExecute(store, run, now, env);
  }

  lemma ReadStep(s: Runs, now: int, id: string, env: Env)
    ensures Solo(s, now, At(Reading(id)), env) ==
            if id !in s.runs || IsTerminal(s.runs[id].status) then s
            else if s.runs[id].status == RunCreated then Solo(s, now, At(Claiming(s.runs[id])), env)
            else if s.runs[id].status == RunValidating then Solo(s, now, At(Validated(s.runs[id])), env)
            else Solo(s, now, At(Loading(s.runs[id], false)), env)
  {
  }

  lemma ClaimedStep(s: Runs, now: int, run: Run, env: Env)
    ensures Solo(s, now, At(Claiming(run)), env) ==
            var (t, r) := Claim(s, run.runId, env.until);
            if r.Success? then Solo(t, now, At(Validated(r.value)), env) else s
  {
    var (t, r) := Claim(s, run.runId, env.until);
    if r.Failure? {
      assert Solo(t, now, At(Rechecking(run)), env) == t;
    }
  }

  /** `processRun`, undisturbed. */
  method ProcessRun(store: Stores.Store, id: string, now: int, env: Env)
    requires store.Valid()
    modifies store`runs, store`leaseUntil
    ensures store.Valid() && store.Replays() == Solo(old(store.Replays()), now, At(Reading(id)), env)
  {
    ReadStep(store.Replays(), now, id, env);
    var read := store.GetRun(id);
    if read.Failure? {
      return;
    }
    var run := read.value;
    if IsTerminal(run.status) {
      return;
    }
    if run.status == RunCreated {
      ClaimedStep(store.Replays(), now, run, env);
      var claimed := store.ClaimRun(run.runId, env.until);
      if claimed.Failure? {
        return;
      }
      run := claimed.value;
    }
    if run.status == RunValidating {
      AuthorizeAndStart(store, run, now, env);
    } else {
      LoadAndExecute(store, run, false, now, env);
    }
  }

  // ----- what an undisturbed worker makes of a fresh run -----

  /** The worker ends without a valid last record: an isolation-related execution
      error, or a result the contract refuses. */
  predicate Stalls(run: Run, env: Env) {
    && (env.capsule.CapsuleOk? || (env.capsule.InterventionRejected? && run.runType == Baseline))
    && match Execute(env.execution)
       case Failure(e) => e == UnsafeReplay || e == TeardownFailed
       case Success(isolation) =>
         env.ingestOk && env.verdict.Some? && !(VerdictValid(env.verdict.value) && isolation.Valid())
  }

  /** Everything goes well. */
  predicate Completes(run: Run, env: Env) {
    && (env.capsule.CapsuleOk? || (env.capsule.InterventionRejected? && run.runType == Baseline))
    && Execute(env.execution).Success? && env.ingestOk && env.verdict.Some?
    && VerdictValid(env.verdict.value) && Execute(env.execution).value.Valid()
  }

  /** `run` as stored, at the stage the worker is about to work on. */
  predicate Holds(s: Runs, run: Run) {
    run.runId in s.runs && s.runs[run.runId] == run && run.Valid()
  }

  lemma WriteOutcome(s: Runs, now: int, run: Run, target: Run, env: Env)
    requires Holds(s, run) && target.Valid() && target.runId == run.runId && SameProvenance(run, target)
    requires CanTransition(run.status, target.status)
    ensures Solo(s, now, At(Finishing(run, target)), env) == s.(runs := s.runs[run.runId := target])
  {
    FinishStep(s, now, run, target, env);
  }

  lemma FinalizeOutcome(s: Runs, now: int, run: Run, status: RunStatus, code: ErrorCode, env: Env)
    requires Holds(s, run) && run.status == RunRunning && run.isolation.None? && !Blank(env.message)
    requires status == RunFailed || status == RunBlocked
    ensures var t := Solo(s, now, Finalize(At(Idle), run, (status, code), env.message, now), env);
            if status == RunBlocked && (code == IsolationViolation || code == DestinationBlocked) then t == s
            else t == s.(runs := s.runs[run.runId := Terminated(run, status, code, env.message, now)])
  {
    TerminatedExact(run, status, code, env.message, now);
    var target := Terminated(run, status, code, env.message, now);
    if target.Valid() {
      WriteOutcome(s, now, run, target, env);
    }
  }

  lemma PersistOutcome(s: Runs, now: int, run: Run, isolation: Isolation, env: Env)
    requires Holds(s, run) && run.status == RunRunning && run.isolation.None? && !Blank(env.message) && isolation.Safe()
    ensures var t := Solo(s, now, At(Persisting(run, isolation)), env);
            if !env.ingestOk then
              t == s.(runs := s.runs[run.runId := Terminated(run, RunFailed, InternalFailure, env.message, now)])
            else if env.verdict.None? then
              t == s.(runs := s.runs[run.runId := Terminated(run, RunFailed, OracleUnavailable, env.message, now)])
            else if VerdictValid(env.verdict.value) && isolation.Valid() then
              t == s.(runs := s.runs[run.runId := Completion(run, env.verdict.value, isolation, now)])
            else t == s
  {
    if !env.ingestOk {
      FinalizeOutcome(s, now, run, RunFailed, InternalFailure, env);
    } else if env.verdict.None? {
      FinalizeOutcome(s, now, run, RunFailed, OracleUnavailable, env);
    } else {
      CompletionExact(run, env.verdict.value, isolation, now);
      var target := Completion(run, env.verdict.value, isolation, now);
      if target.Valid() {
        WriteOutcome(s, now, run, target, env);
      }
    }
  }

  function FailedWith(run: Run, code: ErrorCode, env: Env, now: int): Run {
    run.(status := RunFailed, outcome := None, error := Some(RunError(code, env.message)), completedAt := Some(now))
  }

  function BlockedWith(run: Run, code: ErrorCode, env: Env, now: int): Run {
    run.(status := RunBlocked, outcome := None, error := Some(RunError(code, env.message)), completedAt := Some(now))
  }

  /** What is stored of a RUNNING run in the end, from the environment alone; the
      run as it was when the last record is refused. */
  function LastRecord(run: Run, env: Env, now: int): Run {
    var e := env.execution;
    if env.capsule.CapsuleMissing? then FailedWith(run, FixtureMissing, env, now)
    else if env.capsule.DigestMismatch? then BlockedWith(run, IntegrityMismatch, env, now)
    else if env.capsule.InterventionRejected? && run.runType == WhatIf then BlockedWith(run, InterventionInvalid, env, now)
    else if !e.digestOk then BlockedWith(run, IntegrityMismatch, env, now)
    else if !e.packOk then BlockedWith(run, SanitizationFailed, env, now)
    else if !e.interventionOk then BlockedWith(run, InterventionInvalid, env, now)
    else if !e.planSafe then run
    else if e.runner.RunnerError? then FailedWith(run, InternalFailure, env, now)
    else if e.runner.teardownFailed || !e.runner.isolation.Safe() then run
    else if !e.runner.anyEvents then FailedWith(run, InternalFailure, env, now)
    else if !e.runner.idsOk then BlockedWith(run, IntegrityMismatch, env, now)
    else if !env.ingestOk then FailedWith(run, InternalFailure, env, now)
    else if env.verdict.None? then FailedWith(run, OracleUnavailable, env, now)
    else if VerdictValid(env.verdict.value) && e.runner.isolation.Valid() then
      Completion(run, env.verdict.value, e.runner.isolation, now)
    else run
  }

  /** What becomes of a run from RUNNING on. */
  ghost predicate Outcome(s: Runs, run: Run, env: Env, now: int, t: Runs) {
    run.runId in t.runs && t.runs.Keys == s.runs.Keys && t.runs[run.runId] == LastRecord(run, env, now)
  }

  lemma ExecutingStep(s: Runs, now: int, run: Run, cas: bool, env: Env)
    ensures Solo(s, now, At(Executing(run, cas)), env) == Solo(s, now, AfterExecute(At(Executing(run, cas)), run, env, now), env)
  {
    StepsDown(s, now, At(Executing(run, cas)), env);
  }

  /** Where finalizing starts from makes no difference. */
  lemma FinalizeFrom(s: Runs, now: int, k: Worker, run: Run, record: (RunStatus, ErrorCode), env: Env)
    requires k.queue == []
    ensures Solo(s, now, Finalize(k, run, record, env.message, now), env) ==
            Solo(s, now, Finalize(At(Idle), run, record, env.message, now), env)
  {
  }

  lemma ErrorOutcome(s: Runs, now: int, run: Run, cas: bool, env: Env)
    requires Holds(s, run) && run.status == RunRunning && run.isolation.None? && !Blank(env.message)
    requires env.capsule.CapsuleOk? || (env.capsule.InterventionRejected? && run.runType == Baseline)
    requires Execute(env.execution).Failure?
    ensures Outcome(s, run, env, now, Solo(s, now, At(Executing(run, cas)), env))
  {
    var record := ErrorRecord(Execute(env.execution).error);
    ExecutingStep(s, now, run, cas, env);
    FinalizeFrom(s, now, At(Executing(run, cas)), run, record, env);
    FinalizeOutcome(s, now, run, record.0, record.1, env);
  }

  lemma ResultOutcome(s: Runs, now: int, run: Run, cas: bool, env: Env)
    requires Holds(s, run) && run.status == RunRunning && run.isolation.None? && !Blank(env.message)
    requires env.capsule.CapsuleOk? || (env.capsule.InterventionRejected? && run.runType == Baseline)
    requires Execute(env.execution).Success?
    ensures Outcome(s, run, env, now, Solo(s, now, At(Executing(run, cas)), env))
  {
    ExecutingStep(s, now, run, cas, env);
    PersistOutcome(s, now, run, Execute(env.execution).value, env);
  }

  lemma ExecuteOutcome(s: Runs, now: int, run: Run, cas: bool, env: Env)
    requires Holds(s, run) && run.status == RunRunning && run.isolation.None? && !Blank(env.message)
    requires env.capsule.CapsuleOk? || (env.capsule.InterventionRejected? && run.runType == Baseline)
    ensures Outcome(s, run, env, now, Solo(s, now, At(Executing(run, cas)), env))
  {
    if Execute(env.execution).Failure? {
      ErrorOutcome(s, now, run, cas, env);
    } else {
      ResultOutcome(s, now, run, cas, env);
    }
  }

  lemma LoadingStep(s: Runs, now: int, run: Run, cas: bool, env: Env)
    ensures Solo(s, now, At(Loading(run, cas)), env) == Solo(s, now, AfterLoad(At(Loading(run, cas)), run, cas, env, now), env)
  {
    StepsDown(s, now, At(Loading(run, cas)), env);
  }

  /** The capsule checks end the run. */
  lemma RefusedOutcome(s: Runs, now: int, run: Run, cas: bool, env: Env, status: RunStatus, code: ErrorCode)
    requires Holds(s, run) && run.status == RunRunning && run.isolation.None? && !Blank(env.message)
    requires !env.capsule.CapsuleOk? && (env.capsule.InterventionRejected? ==> run.runType == WhatIf)
    requires status == RunFailed || (status == RunBlocked && code != IsolationViolation && code != DestinationBlocked)
    requires AfterLoad(At(Loading(run, cas)), run, cas, env, now) ==
             Finalize(At(Loading(run, cas)), run, (status, code), env.message, now)
    ensures Outcome(s, run, env, now, Solo(s, now, At(Loading(run, cas)), env))
  {
    LoadingStep(s, now, run, cas, env);
    FinalizeFrom(s, now, At(Loading(run, cas)), run, (status, code), env);
    FinalizeOutcome(s, now, run, status, code, env);
  }

  lemma LoadOutcome(s: Runs, now: int, run: Run, cas: bool, env: Env)
    requires Holds(s, run) && run.status == RunRunning && run.isolation.None? && !Blank(env.message)
    ensures Outcome(s, run, env, now, Solo(s, now, At(Loading(run, cas)), env))
  {
    match env.capsule
    case CapsuleMissing => RefusedOutcome(s, now, run, cas, env, RunFailed, FixtureMissing);
    case DigestMismatch => RefusedOutcome(s, now, run, cas, env, RunBlocked, IntegrityMismatch);
    case InterventionRejected =>
      if run.runType == WhatIf {
        RefusedOutcome(s, now, run, cas, env, RunBlocked, InterventionInvalid);
      } else {
        LoadingStep(s, now, run, cas, env);
        ExecuteOutcome(s, now, run, cas, env);
      }
    case CapsuleOk =>
      LoadingStep(s, now, run, cas, env);
      ExecuteOutcome(s, now, run, cas, env);
  }

  /** A valid VALIDATING run always starts. */
  lemma StartOutcome(s: Runs, now: int, run: Run, env: Env)
    requires Holds(s, run) && run.status == RunValidating && run.isolation.None? && !Blank(env.message)
    ensures var t := Solo(s, now, At(Advancing(run)), env); Outcome(s, Started(run, now), env, now, t)
  {
    var next := Started(run, now);
    StartKeepsValid(run, now);
    StartStep(s, now, run, env);
    var u := Renew(Transition(s, run.status, next).0, next.runId, env.until).0;
    assert Holds(u, next) && u.runs.Keys == s.runs.Keys;
    LoadOutcome(u, now, next, true, env);
  }

  /** A what-if run whose baseline does not pass the check is never started: it
      ends BLOCKED with INTERVENTION_INVALID. */
  lemma GateBlocks(s: Runs, now: int, run: Run, env: Env)
    requires Holds(s, run) && run.status == RunValidating && run.runType == WhatIf && run.isolation.None?
    requires !Blank(env.message) && !Authorized(s, run)
    ensures var t := Solo(s, now, At(Validated(run)), env);
            t == s.(runs := s.runs[run.runId := BlockedWith(run, InterventionInvalid, env, now)])
  {
    AuthorizeStep(s, now, run, env);
    TerminatedExact(run, RunBlocked, InterventionInvalid, env.message, now);
    WriteOutcome(s, now, run, Terminated(run, RunBlocked, InterventionInvalid, env.message, now), env);
  }

  /** An admitted run passes the worker's baseline gate. */
  lemma GateStep(s: Runs, now: int, run: Run, env: Env)
    requires run.runType == WhatIf ==> Authorized(s, run)
    ensures Solo(s, now, At(Validated(run)), env) == Solo(s, now, At(Advancing(run)), env)
  {
    AuthorizeStep(s, now, run, env);
  }

  lemma ClaimStep(s: Runs, now: int, id: string, env: Env)
    requires id in s.runs && s.runs[id].runId == id && s.runs[id].status == RunCreated
    ensures var claimed := s.runs[id].(status := RunValidating);
            Solo(s, now, At(Reading(id)), env) == Solo(Claim(s, id, env.until).0, now, At(Validated(claimed)), env)
  {
    ReadStep(s, now, id, env);
    ClaimedStep(s, now, s.runs[id], env);
  }

  lemma ClaimedAuthorized(s: Runs, id: string, until: int)
    requires StoreInv(s) && id in s.runs && s.runs[id].status == RunCreated
    ensures s.runs[id].runType == WhatIf ==> Authorized(Claim(s, id, until).0, s.runs[id].(status := RunValidating))
  {
  }

  /** The capsule checks let the run through. */
  predicate Loaded(run: Run, env: Env) {
    env.capsule.CapsuleOk? || (env.capsule.InterventionRejected? && run.runType == Baseline)
  }

  /** The runner is reached. */
  predicate Reached(run: Run, env: Env) {
    var e := env.execution;
    Loaded(run, env) && e.digestOk && e.packOk && e.interventionOk && e.planSafe
  }

  /** It returns, with isolation evidence that is safe after a clean teardown. */
  predicate Isolated(run: Run, env: Env) {
    var e := env.execution;
    Reached(run, env) && e.runner.RunnerResult? && !e.runner.teardownFailed && e.runner.isolation.Safe()
  }

  /** With events that carry the run's id. */
  predicate Observed(run: Run, env: Env) {
    Isolated(run, env) && env.execution.runner.anyEvents && env.execution.runner.idsOk
  }

  predicate Ended(run: Run, status: RunStatus, code: ErrorCode, env: Env) {
    run.status == status && run.error == Some(RunError(code, env.message))
  }

  /** How a run ends for each of the environment's answers. */
  lemma EndsExactly(run: Run, env: Env, now: int)
    requires run.status == RunRunning
    ensures var e, end := env.execution, LastRecord(run, env, now);
            && (Ended(end, RunFailed, FixtureMissing, env) <==> env.capsule.CapsuleMissing?)
            && (Ended(end, RunFailed, InternalFailure, env) <==>
                  || (Reached(run, env) && e.runner.RunnerError?)
                  || (Isolated(run, env) && !e.runner.anyEvents)
                  || (Observed(run, env) && !env.ingestOk))
            && (Ended(end, RunFailed, OracleUnavailable, env) <==> Observed(run, env) && env.ingestOk && env.verdict.None?)
            && (Ended(end, RunBlocked, IntegrityMismatch, env) <==>
                  || env.capsule.DigestMismatch? || (Loaded(run, env) && !e.digestOk)
                  || (Isolated(run, env) && e.runner.anyEvents && !e.runner.idsOk))
            && (Ended(end, RunBlocked, SanitizationFailed, env) <==> Loaded(run, env) && e.digestOk && !e.packOk)
            && (Ended(end, RunBlocked, InterventionInvalid, env) <==>
                  || (env.capsule.InterventionRejected? && run.runType == WhatIf)
                  || (Loaded(run, env) && e.digestOk && e.packOk && !e.interventionOk))
    ensures var end := LastRecord(run, env, now);
            && (end.status == RunFailed ==>
                  end.error.Some? && end.error.value.code in [FixtureMissing, InternalFailure, OracleUnavailable])
            && (end.status == RunBlocked ==>
                  end.error.Some? && end.error.value.code in [IntegrityMismatch, SanitizationFailed, InterventionInvalid])
            && (end.status == RunFailed || end.status == RunBlocked ==>
                  end.error.value.message == env.message && end.completedAt == Some(now))
            && (end.status == RunCompleted || end.startedAt == run.startedAt)
  {
  }

  /** What a completed run carries. */
  lemma CompletedExactly(run: Run, env: Env, now: int)
    requires run.Valid() && run.status == RunRunning
    ensures var end := LastRecord(run, env, now);
            (end.status == RunCompleted <==>
               Observed(run, env) && env.ingestOk && env.verdict.Some? && VerdictValid(env.verdict.value)
               && env.execution.runner.isolation.Valid())
    ensures var end := LastRecord(run, env, now);
            end.status == RunCompleted ==>
              && end.verdict == env.verdict && end.effects == Some(env.verdict.value.effects)
              && end.isolation == Some(env.execution.runner.isolation)
              && end.startedAt == run.startedAt && end.completedAt == Some(now) && end.error.None?
              && end.outcome == Some(if run.runType == Baseline
                                     then (if env.verdict.value.matched then Reproduced else NotReproduced)
                                     else (if env.verdict.value.matched then Unchanged else Mitigated))
  {
  }

  /** An undisturbed worker starts a fresh run and, unless it stalls, finishes
      it: the run ends COMPLETED with the outcome the verdict implies exactly
      when everything went well, stays RUNNING exactly when the last record was
      refused, and otherwise ends with the status and code that the environment's
      answers determine. */
  lemma FreshRunOutcome(s: Runs, now: int, id: string, env: Env)
    requires StoreInv(s) && id in s.runs && s.runs[id].status == RunCreated && s.runs[id].isolation.None?
    requires !Blank(env.message)
    ensures var run, t := s.runs[id], Solo(s, now, At(Reading(id)), env);
            && id in t.runs
            && t.runs[id] == LastRecord(run.(status := RunRunning, startedAt := Some(now)), env, now)
            && (t.runs[id].status == RunRunning <==> Stalls(run, env))
            && (t.runs[id].status == RunCompleted <==> Completes(run, env))
            && (Completes(run, env) ==> t.runs[id].outcome == Some(DeriveOutcome(run.runType, env.verdict.value.matched)))
            && (IsTerminal(t.runs[id].status) <==> !Stalls(run, env))
  {
    FreshClaimed(s, now, id, env);
    FreshStarted(s.runs[id], now);
    EndStatus(s.runs[id].(status := RunRunning, startedAt := Some(now)), env, now);
    SameVerdict(s.runs[id], s.runs[id].(status := RunRunning, startedAt := Some(now)), env);
  }

  lemma FreshStarted(run: Run, now: int)
    requires run.Valid() && run.status == RunCreated
    ensures Started(run.(status := RunValidating), now) == run.(status := RunRunning, startedAt := Some(now))
    ensures run.(status := RunRunning, startedAt := Some(now)).Valid()
  {
  }

  lemma EndStatus(run: Run, env: Env, now: int)
    requires run.Valid() && run.status == RunRunning
    ensures var end := LastRecord(run, env, now);
            && (end.status == RunRunning <==> Stalls(run, env))
            && (end.status == RunCompleted <==> Completes(run, env))
            && (Completes(run, env) ==> end.outcome == Some(DeriveOutcome(run.runType, env.verdict.value.matched)))
            && (IsTerminal(end.status) <==> !Stalls(run, env))
  {
  }

  /** From the first read to the end. */
  lemma FreshClaimed(s: Runs, now: int, id: string, env: Env)
    requires StoreInv(s) && id in s.runs && s.runs[id].status == RunCreated && s.runs[id].isolation.None?
    requires !Blank(env.message)
    ensures var started := Started(s.runs[id].(status := RunValidating), now);
            && started.runId == id && started.status == RunRunning
            && exists u :: Outcome(u, started, env, now, Solo(s, now, At(Reading(id)), env))
  {
    var run, claimed := s.runs[id], s.runs[id].(status := RunValidating);
    ClaimKeepsValid(run);
    var u := Claim(s, id, env.until).0;
    ClaimStep(s, now, id, env);
    ClaimedAuthorized(s, id, env.until);
    GateStep(u, now, claimed, env);
    StartOutcome(u, now, claimed, env);
  }

  lemma SameVerdict(a: Run, b: Run, env: Env)
    requires a.runType == b.runType
    ensures Stalls(a, env) <==> Stalls(b, env)
    ensures Completes(a, env) <==> Completes(b, env)
    ensures !(Stalls(a, env) && Completes(a, env))
  {
  }
}
