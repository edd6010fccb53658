/** Replay workers, reclaimers and the API sharing one store. Each store call is
    one atomic step, workers keep stale copies of runs between calls and may
    crash anywhere. A history is a list of actions; every list is allowed, and an
    action that is not enabled does nothing. */
module WorkerProtocol {
  import opened Basics
  import opened Oracle
  import opened ReplayContract
  import opened RunStore

  // ----- what the environment decides -----

  datatype ExecError =
    | InvalidDigest | PackValidation | UnsafeReplay | InvalidIntervention | ReplayRunIdMissing | TeardownFailed | OtherFailure

  datatype CapsuleCheck = CapsuleMissing | DigestMismatch | InterventionRejected | CapsuleOk

  datatype RunnerResult =
    | RunnerError
    | RunnerResult(teardownFailed: bool, isolation: Isolation, anyEvents: bool, idsOk: bool)

  /** What `Execute` finds out about the capsule, and what the runner returns. */
  datatype Execution = Execution(digestOk: bool, packOk: bool, interventionOk: bool, planSafe: bool, runner: RunnerResult)

  datatype Env = Env(until: int, capsule: CapsuleCheck, execution: Execution, ingestOk: bool,
                     verdict: Option<OracleResult>, message: string)

  /** The runner is reached: the replay's side effects happen. */
  predicate ReachesRunner(e: Execution) {
    e.digestOk && e.packOk && e.interventionOk && e.planSafe
  }

  /** `Execute`, check by check. */
  function Execute(e: Execution): Result<Isolation, ExecError> {
    if !e.digestOk then Failure(InvalidDigest)
    else if !e.packOk then Failure(PackValidation)
    else if !e.interventionOk then Failure(InvalidIntervention)
    else if !e.planSafe then Failure(UnsafeReplay)
    else if e.runner.RunnerError? then Failure(OtherFailure)
    else if e.runner.teardownFailed then Failure(TeardownFailed)
    else if !e.runner.isolation.Safe() then Failure(UnsafeReplay)
    else if !e.runner.anyEvents then Failure(OtherFailure)
    else if !e.runner.idsOk then Failure(ReplayRunIdMissing)
    else Success(e.runner.isolation)
  }

  /** When each error is returned: the first check that fails decides. */
  lemma ExecuteExactly(e: Execution)
    ensures Execute(e) == Failure(InvalidDigest) <==> !e.digestOk
    ensures Execute(e) == Failure(PackValidation) <==> e.digestOk && !e.packOk
    ensures Execute(e) == Failure(InvalidIntervention) <==> e.digestOk && e.packOk && !e.interventionOk
    ensures var ready := e.digestOk && e.packOk && e.interventionOk && e.planSafe;
            var ran := ready && e.runner.RunnerResult?;
            var safe := ran && !e.runner.teardownFailed && e.runner.isolation.Safe();
            && (ReachesRunner(e) <==> ready)
            && (Execute(e) == Failure(TeardownFailed) <==> ran && e.runner.teardownFailed)
            && (Execute(e) == Failure(UnsafeReplay) <==>
                  || (e.digestOk && e.packOk && e.interventionOk && !e.planSafe)
                  || (ran && !e.runner.teardownFailed && !e.runner.isolation.Safe()))
            && (Execute(e) == Failure(OtherFailure) <==> (ready && e.runner.RunnerError?) || (safe && !e.runner.anyEvents))
            && (Execute(e) == Failure(ReplayRunIdMissing) <==> safe && e.runner.anyEvents && !e.runner.idsOk)
            && (Execute(e).Success? <==> safe && e.runner.anyEvents && e.runner.idsOk)
            && (Execute(e).Success? ==> Execute(e).value == e.runner.isolation)
  {
  }

  /** `finalizeExecuteError`: the status and code an execution error maps to. */
  function ErrorRecord(e: ExecError): (RunStatus, ErrorCode) {
    match e
    case InvalidDigest => (RunBlocked, IntegrityMismatch)
    case PackValidation => (RunBlocked, SanitizationFailed)
    case UnsafeReplay => (RunBlocked, DestinationBlocked)
    case InvalidIntervention => (RunBlocked, InterventionInvalid)
    case TeardownFailed => (RunBlocked, IsolationViolation)
    case ReplayRunIdMissing => (RunBlocked, IntegrityMismatch)
    case OtherFailure => (RunFailed, InternalFailure)
  }

  // ----- workers -----

  /** The store call a worker stands at, with its local copy of the run. `cas`
      says that this worker moved the run from VALIDATING to RUNNING itself. */
  datatype Pc =
    | Idle
    | Reading(id: string)
    | Claiming(run: Run)
    | Rechecking(run: Run)
    | Authorizing(run: Run)
    | Advancing(run: Run)
    | Renewing(run: Run)
    | Loading(run: Run, cas: bool)
    | Executing(run: Run, cas: bool)
    | Persisting(run: Run, isolation: Isolation)
    | Finishing(run: Run, target: Run)
    | Reclaiming(orphans: seq<Run>)

  /** `queue` is what is left of the poll loop's list of CREATED runs. */
  datatype Worker = Worker(pc: Pc, queue: seq<string>)

  /** What happens to a run, counted over the whole history. */
  datatype Entry =
    | WasPut(id: string)
    | WasClaimed(id: string)
    | WasStarted(id: string)
    | WasFinished(id: string)
    | WasReadRunning(id: string)
    | WasExecuted(id: string, cas: bool)
    | WasReset

  const NOBODY := Worker(Idle, [])

  /** `processRun` returned without error: the poll loop starts over. */
  function Succeed(k: Worker): Worker {
    k.(pc := Idle, queue := [])
  }

  /** `processRun` returned an error: the poll loop tries the next run. */
  function GiveUp(k: Worker): Worker {
    k.(pc := Idle)
  }

  function Go(k: Worker, pc: Pc): Worker {
    k.(pc := pc)
  }

  /** After a claim, or on finding the run VALIDATING. */
  function Validated(run: Run): Pc {
    if run.runType == WhatIf then Authorizing(run) else Advancing(run)
  }

  /** `finalizeTerminal` up to its store call: an invalid record is refused. */
  function Finalize(k: Worker, run: Run, record: (RunStatus, ErrorCode), message: string, now: int): Worker {
    var target := Terminated(run, record.0, record.1, message, now);
    if target.Valid() then Go(k, Finishing(run, target)) else GiveUp(k)
  }

  function AfterRead(k: Worker, run: Run): Worker {
    if IsTerminal(run.status) then Succeed(k)
    else if run.status == RunCreated then Go(k, Claiming(run))
    else if run.status == RunValidating then Go(k, Validated(run))
    else Go(k, Loading(run, false))
  }

  function AfterLoad(k: Worker, run: Run, cas: bool, env: Env, now: int): Worker {
    match env.capsule
    case CapsuleMissing => Finalize(k, run, (RunFailed, FixtureMissing), env.message, now)
    case DigestMismatch => Finalize(k, run, (RunBlocked, IntegrityMismatch), env.message, now)
    case InterventionRejected =>
      if run.runType == WhatIf && run.intervention.Some? then
        Finalize(k, run, (RunBlocked, InterventionInvalid), env.message, now)
      else Go(k, Executing(run, cas))
    case CapsuleOk => Go(k, Executing(run, cas))
  }

  function AfterExecute(k: Worker, run: Run, env: Env, now: int): Worker {
    match Execute(env.execution)
    case Failure(e) => Finalize(k, run, ErrorRecord(e), env.message, now)
    case Success(isolation) => Go(k, Persisting(run, isolation))
  }

  function AfterPersist(k: Worker, run: Run, isolation: Isolation, env: Env, now: int): Worker {
    if !env.ingestOk then Finalize(k, run, (RunFailed, InternalFailure), env.message, now)
    else if env.verdict.None? then Finalize(k, run, (RunFailed, OracleUnavailable), env.message, now)
    else
      var target := Completion(run, env.verdict.value, isolation, now);
      if isolation.Safe() && target.Valid() then Go(k, Finishing(run, target)) else GiveUp(k)
  }

  /** A worker's next step: the new store, the worker, and what to log. */
  function WorkerStep(s: Runs, now: int, k: Worker, env: Env): (Runs, Worker, multiset<Entry>) {
    match k.pc
    case Idle => (s, k, multiset{})
    case Reading(id) =>
      if id !in s.runs then (s, GiveUp(k), multiset{})
      else (s, AfterRead(k, s.runs[id]),
            if s.runs[id].status == RunRunning then multiset{WasReadRunning(s.runs[id].runId)} else multiset{})
    case Claiming(run) =>
      var (t, r) := Claim(s, run.runId, env.until);
      if r.Success? then (t, Go(k, Validated(r.value)), multiset{WasClaimed(run.runId)})
      else (t, Go(k, Rechecking(run)), multiset{})
    case Rechecking(run) =>
      (s, if run.runId in s.runs && s.runs[run.runId].status != RunCreated then Succeed(k) else GiveUp(k), multiset{})
    case Authorizing(run) =>
      (s, if Authorized(s, run) then Go(k, Advancing(run))
          else Finalize(k, run, (RunBlocked, InterventionInvalid), env.message, now), multiset{})
    case Advancing(run) =>
      var next := Started(run, now);
      var (t, e) := Transition(s, run.status, next);
      if e.None? then (t, Go(k, Renewing(next)), multiset{WasStarted(run.runId)}) else (t, GiveUp(k), multiset{})
    case Renewing(run) => (Renew(s, run.runId, env.until).0, Go(k, Loading(run, true)), multiset{})
    case Loading(run, cas) => (s, AfterLoad(k, run, cas, env, now), multiset{})
    case Executing(run, cas) =>
      (s, AfterExecute(k, run, env, now),
       if ReachesRunner(env.execution) then multiset{WasExecuted(run.runId, cas)} else multiset{})
    case Persisting(run, isolation) => (s, AfterPersist(k, run, isolation, env, now), multiset{})
    case Finishing(run, target) =>
      var (t, e) := Transition(s, run.status, target);
      if e.None? then (t, Succeed(k), multiset{WasFinished(target.runId)}) else (t, GiveUp(k), multiset{})
    case Reclaiming(orphans) =>
      if |orphans| == 0 then (s, GiveUp(k), multiset{})
      else
        var target := Orphaned(orphans[0], now);
        var (t, e) := Transition(s, orphans[0].status, target);
        if target.Valid() && e.None? then (t, Go(k, Reclaiming(orphans[1..])), multiset{WasFinished(target.runId)})
        else (s, Go(k, Reclaiming(orphans[1..])), multiset{})
  }

  // ----- the whole system -----

  datatype State = State(store: Runs, now: int, workers: map<nat, Worker>, log: multiset<Entry>)

  datatype Action =
    | Tick(elapsed: nat)
    | Create(run: Run)
    | ResetAll
    | Crash(w: nat)
    | OneShot(w: nat, id: string)
    | Poll(w: nat, queue: seq<string>)
    | Next(w: nat)
    | ScanOrphans(w: nat, orphans: seq<Run>)
    | Act(w: nat, env: Env)

  function Initial(): State {
    State(Runs(map[], map[]), 0, map[], multiset{})
  }

  function At(s: State, w: nat): Worker {
    if w in s.workers then s.workers[w] else NOBODY
  }

  function Set(s: State, w: nat, k: Worker): State {
    s.(workers := s.workers[w := k])
  }

  /** The state after a worker's step. */
  function Stepped(s: State, w: nat, r: (Runs, Worker, multiset<Entry>)): State {
    Set(s, w, r.1).(store := r.0, log := s.log + r.2)
  }

  /** `queue` is what `ListRuns(CREATED)` returns: each CREATED id once, in
      order. */
  predicate ListsCreated(s: Runs, queue: seq<string>) {
    && (forall i, j | 0 <= i < j < |queue| :: queue[i] != queue[j] && !StrLess(queue[j], queue[i]))
    && (forall id | id in queue :: id in s.runs && s.runs[id].status == RunCreated)
    && (forall id | id in s.runs && s.runs[id].status == RunCreated :: id in queue)
  }

  /** `orphans` is what `ReclaimExpiredRuns` returns, in some order of the map. */
  predicate ListsExpired(s: Runs, now: int, orphans: seq<Run>) {
    && (forall i, j | 0 <= i < j < |orphans| :: orphans[i] != orphans[j])
    && (forall run | run in orphans :: Expired(s, run.runId, now) && s.runs[run.runId] == run)
    && (forall id | id in s.runs && Expired(s, id, now) :: s.runs[id] in orphans)
  }

  function Apply(s: State, a: Action): State {
    match a
    case Tick(elapsed) => s.(now := s.now + elapsed)
    case Create(run) =>
      var (t, e) := Put(s.store, run);
      if run.status == RunCreated && e.None? then s.(store := t, log := s.log + multiset{WasPut(run.runId)}) else s
    case ResetAll => s.(store := Reset(s.store), log := s.log + multiset{WasReset})
    case Crash(w) => Set(s, w, NOBODY)
    case OneShot(w, id) => if At(s, w) == NOBODY then Set(s, w, Worker(Reading(id), [])) else s
    case Poll(w, queue) =>
      if At(s, w) == NOBODY && ListsCreated(s.store, queue) then Set(s, w, Worker(Idle, queue)) else s
    case Next(w) =>
      var k := At(s, w);
      if k.pc.Idle? && |k.queue| > 0 then Set(s, w, Worker(Reading(k.queue[0]), k.queue[1..])) else s
    case ScanOrphans(w, orphans) =>
      if At(s, w) == NOBODY && ListsExpired(s.store, s.now, orphans) then Set(s, w, Worker(Reclaiming(orphans), [])) else s
    case Act(w, env) =>
      Stepped(s, w, WorkerStep(s.store, s.now, At(s, w), env))
  }

  /** The state after a history of actions. */
  function Run(actions: seq<Action>): State {
    if |actions| == 0 then Initial() else Apply(Run(actions[..|actions| - 1]), actions[|actions| - 1])
  }

  // ----- the store -----

  ghost predicate Sound(s: Runs, t: Runs) {
    StoreInv(t) && Evolves(s, t)
  }

  lemma TransitionSound(s: Runs, from: RunStatus, run: Run)
    requires StoreInv(s)
    ensures Sound(s, Transition(s, from, run).0)
  {
    TransitionKeepsInv(s, from, run);
    TransitionEvolves(s, from, run);
  }

  lemma ClaimSound(s: Runs, id: string, until: int)
    requires StoreInv(s)
    ensures Sound(s, Claim(s, id, until).0)
  {
    ClaimKeepsInv(s, id, until);
    ClaimEvolves(s, id, until);
  }

  lemma RenewSound(s: Runs, id: string, until: int)
    requires StoreInv(s)
    ensures Sound(s, Renew(s, id, until).0)
  {
    UntouchedSound(s, Renew(s, id, until).0);
  }

  lemma UntouchedSound(s: Runs, t: Runs)
    requires StoreInv(s) && t.runs == s.runs
    ensures Sound(s, t)
  {
  }

  lemma WorkerKeepsStore(s: Runs, now: int, k: Worker, env: Env)
    requires StoreInv(s)
    ensures Sound(s, WorkerStep(s, now, k, env).0)
  {
    UntouchedSound(s, s);
    match k.pc
    case Renewing(run) => RenewSound(s, run.runId, env.until);
    case Claiming(run) => ClaimSound(s, run.runId, env.until);
    case Advancing(run) => WriteSound(s, now, k, env);
    case Finishing(run, target) => WriteSound(s, now, k, env);
    case Reclaiming(orphans) => ReclaimSound(s, now, k, env);
    case _ =>
  }

  lemma WriteSound(s: Runs, now: int, k: Worker, env: Env)
    requires StoreInv(s) && (k.pc.Advancing? || k.pc.Finishing?)
    ensures Sound(s, WorkerStep(s, now, k, env).0)
  {
    TransitionSound(s, k.pc.run.status, if k.pc.Advancing? then Started(k.pc.run, now) else k.pc.target);
  }

  lemma ReclaimSound(s: Runs, now: int, k: Worker, env: Env)
    requires StoreInv(s) && k.pc.Reclaiming?
    ensures Sound(s, WorkerStep(s, now, k, env).0)
  {
    UntouchedSound(s, s);
    if |k.pc.orphans| > 0 {
      TransitionSound(s, k.pc.orphans[0].status, Orphaned(k.pc.orphans[0], now));
    }
  }

  /** Every action keeps the store invariant, and every action but a reset only
      lets the store evolve. */
  lemma ActionKeepsStore(s: State, a: Action)
    requires StoreInv(s.store)
    ensures StoreInv(Apply(s, a).store)
    ensures !a.ResetAll? ==> Evolves(s.store, Apply(s, a).store)
  {
    UntouchedSound(s.store, s.store);
    match a
    case Create(run) =>
      PutKeepsInv(s.store, run);
      PutEvolves(s.store, run);
    case Act(w, env) => WorkerKeepsStore(s.store, s.now, At(s, w), env);
    case _ =>
  }

  /** Reachable stores satisfy the invariant, whatever workers, reclaimers, the
      API, crashes and resets did. */
  lemma {:induction false} ReachableStore(actions: seq<Action>)
    ensures StoreInv(Run(actions).store)
    decreases |actions|
  {
    if |actions| > 0 {
      ReachableStore(actions[..|actions| - 1]);
      ActionKeepsStore(Run(actions[..|actions| - 1]), actions[|actions| - 1]);
    }
  }

  ghost predicate NoReset(actions: seq<Action>) {
    forall a | a in actions :: !a.ResetAll?
  }

  lemma RunSnoc(actions: seq<Action>, a: Action)
    ensures Run(actions + [a]) == Apply(Run(actions), a)
  {
    assert (actions + [a])[..|actions|] == actions;
  }

  lemma Joined(past: seq<Action>, a: seq<Action>, b: seq<Action>)
    ensures past + (a + b) == past + a + b
  {
  }

  /** Over any stretch of history without a reset the store evolves. */
  lemma {:induction false} HistoryEvolves(past: seq<Action>, more: seq<Action>)
    requires NoReset(more)
    ensures Evolves(Run(past).store, Run(past + more).store)
    decreases |more|
  {
    if |more| == 0 {
      assert past + more == past;
      ReachableStore(past);
    } else {
      var init, last := more[..|more| - 1], more[|more| - 1];
      assert more == init + [last];
      HistoryEvolves(past, init);
      assert past + more == (past + init) + [last];
      RunSnoc(past + init, last);
      LastEvolves(past + init, last);
      EvolvesTransitive(Run(past).store, Run(past + init).store, Run(past + more).store);
    }
  }

  lemma LastEvolves(actions: seq<Action>, a: Action)
    requires !a.ResetAll?
    ensures Evolves(Run(actions).store, Apply(Run(actions), a).store)
  {
    ReachableStore(actions);
    ActionKeepsStore(Run(actions), a);
  }

  /** A what-if run that is in the store stays authorized by its baseline at
      every later point before a reset: the worker's own check cannot fail. */
  lemma AuthorizationHolds(past: seq<Action>, more: seq<Action>, id: string)
    requires NoReset(more) && id in Run(past).store.runs && Run(past).store.runs[id].runType == WhatIf
    ensures Authorized(Run(past + more).store, Run(past).store.runs[id])
  {
    ReachableStore(past);
    HistoryEvolves(past, more);
    AdmittedStaysAuthorized(Run(past).store, id, Run(past + more).store);
  }

  // ----- counting claims, starts and finishes -----

  /** 1 while the stored run has come no further than the rank. */
  function Below(s: Runs, id: string, rank: nat): nat {
    if id in s.runs && Rank(s.runs[id].status) <= rank then 1 else 0
  }

  /** Records a worker is about to write as the last word on a run are terminal. */
  ghost predicate PcOk(pc: Pc) {
    match pc
    case Finishing(run, target) => IsTerminal(target.status) && target.runId == run.runId
    case _ => true
  }

  ghost predicate WorkersOk(s: State) {
    forall w | w in s.workers :: PcOk(s.workers[w].pc)
  }

  lemma WorkerStaysOk(s: Runs, now: int, k: Worker, env: Env)
    requires PcOk(k.pc)
    ensures PcOk(WorkerStep(s, now, k, env).1.pc)
  {
  }

  /** What each logged claim, start or finish costs: the run leaves the ranks
      below it, and no other step brings it back. */
  ghost predicate Spends(s: Runs, entries: multiset<Entry>, t: Runs, id: string) {
    && entries[WasClaimed(id)] + Below(t, id, 0) <= Below(s, id, 0)
    && entries[WasStarted(id)] + Below(t, id, 1) <= Below(s, id, 1)
    && entries[WasFinished(id)] + Below(t, id, 2) <= Below(s, id, 2)
    && entries[WasPut(id)] == 0 && entries[WasReset] == 0
    && (id in s.runs <==> id in t.runs)
  }

  lemma ClaimSpends(s: Runs, run: Run, until: int, id: string)
    ensures var (t, r) := Claim(s, run.runId, until);
            Spends(s, if r.Success? then multiset{WasClaimed(run.runId)} else multiset{}, t, id)
  {
  }

  lemma StartSpends(s: Runs, run: Run, now: int, id: string)
    ensures var (t, e) := Transition(s, run.status, Started(run, now));
            Spends(s, if e.None? then multiset{WasStarted(run.runId)} else multiset{}, t, id)
  {
  }

  lemma FinishSpends(s: Runs, from: RunStatus, target: Run, id: string)
    requires IsTerminal(target.status)
    ensures var (t, e) := Transition(s, from, target);
            Spends(s, if e.None? then multiset{WasFinished(target.runId)} else multiset{}, t, id)
  {
  }

  lemma WorkerSpends(s: Runs, now: int, k: Worker, env: Env, id: string)
    requires PcOk(k.pc)
    ensures var (t, _, entries) := WorkerStep(s, now, k, env); Spends(s, entries, t, id)
  {
    match k.pc
    case Claiming(run) => ClaimSpends(s, run, env.until, id);
    case Advancing(run) => StartSpends(s, run, now, id);
    case Finishing(run, target) => FinishSpends(s, run.status, target, id);
    case Reclaiming(orphans) =>
      if |orphans| > 0 {
        FinishSpends(s, orphans[0].status, Orphaned(orphans[0], now), id);
      }
    case _ =>
  }

  ghost predicate Accounted(s: State, id: string) {
    && s.log[WasClaimed(id)] + Below(s.store, id, 0) <= s.log[WasPut(id)]
    && s.log[WasStarted(id)] + Below(s.store, id, 1) <= s.log[WasPut(id)]
    && s.log[WasFinished(id)] + Below(s.store, id, 2) <= s.log[WasPut(id)]
    && s.log[WasPut(id)] <= s.log[WasReset] + (if id in s.store.runs then 1 else 0)
  }

  lemma AccountedStep(s: State, a: Action, id: string)
    requires WorkersOk(s) && Accounted(s, id)
    ensures Accounted(Apply(s, a), id)
  {
    if a.Act? {
      WorkerSpends(s.store, s.now, At(s, a.w), a.env, id);
      SteppedAccounted(s, a.w, WorkerStep(s.store, s.now, At(s, a.w), a.env), id);
    } else {
      OtherAccounted(s, a, id);
    }
  }

  lemma SteppedAccounted(s: State, w: nat, r: (Runs, Worker, multiset<Entry>), id: string)
    requires Accounted(s, id) && Spends(s.store, r.2, r.0, id)
    ensures Accounted(Stepped(s, w, r), id)
  {
  }

  lemma OtherAccounted(s: State, a: Action, id: string)
    requires Accounted(s, id) && !a.Act?
    ensures Accounted(Apply(s, a), id)
  {
  }

  lemma WorkersOkStep(s: State, a: Action)
    requires WorkersOk(s)
    ensures WorkersOk(Apply(s, a))
  {
    match a
    case Act(w, env) => WorkerStaysOk(s.store, s.now, At(s, w), env);
    case _ =>
  }

  lemma {:induction false} RunAccounted(actions: seq<Action>, id: string)
    ensures WorkersOk(Run(actions)) && Accounted(Run(actions), id)
    decreases |actions|
  {
    if |actions| > 0 {
      var s, a := Run(actions[..|actions| - 1]), actions[|actions| - 1];
      RunAccounted(actions[..|actions| - 1], id);
      AccountedStep(s, a, id);
      WorkersOkStep(s, a);
    }
  }

  /** For any number of workers and reclaimers: per creation of a run there is at
      most one successful claim, one start and one terminal write, so a late
      finisher and a reclaimer never both win. Without a reset a run is created
      at most once. */
  lemma AtMostOnce(actions: seq<Action>, id: string)
    ensures var log := Run(actions).log;
            && log[WasClaimed(id)] <= log[WasPut(id)] && log[WasStarted(id)] <= log[WasPut(id)]
            && log[WasFinished(id)] <= log[WasPut(id)] && log[WasPut(id)] <= log[WasReset] + 1
  {
    RunAccounted(actions, id);
  }

  // ----- counting executions -----

  /** The worker is between reaching RUNNING and running the replay. */
  predicate Poised(pc: Pc, id: string, cas: bool) {
    match pc
    case Renewing(run) => cas && run.runId == id
    case Loading(run, c) => c == cas && run.runId == id
    case Executing(run, c) => c == cas && run.runId == id
    case _ => false
  }

  /** What entitles a worker to execute: its own start, or having read RUNNING. */
  function Entitlement(id: string, cas: bool): Entry {
    if cas then WasStarted(id) else WasReadRunning(id)
  }

  lemma FinalizeUnpoised(k: Worker, run: Run, record: (RunStatus, ErrorCode), message: string, now: int, id: string, cas: bool)
    ensures !Poised(Finalize(k, run, record, message, now).pc, id, cas)
  {
  }

  lemma AfterUnpoised(k: Worker, run: Run, isolation: Isolation, env: Env, now: int, id: string, cas: bool)
    ensures !Poised(AfterExecute(k, run, env, now).pc, id, cas)
    ensures !Poised(AfterPersist(k, run, isolation, env, now).pc, id, cas)
  {
  }

  lemma AfterLoadPoised(k: Worker, run: Run, c: bool, env: Env, now: int, id: string, cas: bool)
    ensures Poised(AfterLoad(k, run, c, env, now).pc, id, cas) ==> c == cas && run.runId == id
  {
  }

  lemma WorkerPoise(s: Runs, now: int, k: Worker, env: Env, id: string, cas: bool)
    ensures var (_, k', entries) := WorkerStep(s, now, k, env);
            entries[WasExecuted(id, cas)] + Number(Poised(k'.pc, id, cas)) <=
            Number(Poised(k.pc, id, cas)) + entries[Entitlement(id, cas)]
  {
    match k.pc
    case Authorizing(run) => FinalizeUnpoised(k, run, (RunBlocked, InterventionInvalid), env.message, now, id, cas);
    case Loading(run, c) => AfterLoadPoised(k, run, c, env, now, id, cas);
    case Executing(run, _) => AfterUnpoised(k, run, IsolationFor("", true), env, now, id, cas);
    case Persisting(run, isolation) => AfterUnpoised(k, run, isolation, env, now, id, cas);
    case _ =>
  }

  ghost function PoisedSet(workers: map<nat, Worker>, id: string, cas: bool): set<nat> {
    set w | w in workers && Poised(workers[w].pc, id, cas)
  }

  lemma PoisedAfter(s: State, w: nat, k: Worker, id: string, cas: bool)
    ensures |PoisedSet(Set(s, w, k).workers, id, cas)| + Number(Poised(At(s, w).pc, id, cas)) ==
            |PoisedSet(s.workers, id, cas)| + Number(Poised(k.pc, id, cas))
  {
    var before, after := PoisedSet(s.workers, id, cas), PoisedSet(Set(s, w, k).workers, id, cas);
    forall x ensures x in after <==> x in Included(before - {w}, w, Poised(k.pc, id, cas)) {
    }
    forall x ensures x in before <==> x in Included(before - {w}, w, Poised(At(s, w).pc, id, cas)) {
    }
    IncludedSize(before - {w}, w, Poised(k.pc, id, cas), after);
    IncludedSize(before - {w}, w, Poised(At(s, w).pc, id, cas), before);
  }

  ghost function Included(others: set<nat>, w: nat, b: bool): set<nat> {
    if b then others + {w} else others
  }

  lemma IncludedSize(others: set<nat>, w: nat, b: bool, all: set<nat>)
    requires w !in others && forall x :: x in all <==> x in Included(others, w, b)
    ensures |all| == |others| + Number(b)
  {
    assert all == Included(others, w, b);
  }

  /** Entitlements neither used nor still with a worker. */
  ghost function Spare(s: State, id: string, cas: bool): int {
    s.log[Entitlement(id, cas)] - s.log[WasExecuted(id, cas)] - |PoisedSet(s.workers, id, cas)|
  }

  /** No action uses an entitlement that was not there. */
  lemma SpareStep(s: State, a: Action, id: string, cas: bool)
    ensures Spare(s, id, cas) <= Spare(Apply(s, a), id, cas)
  {
    match a
    case Crash(w) => PoisedAfter(s, w, NOBODY, id, cas);
    case OneShot(w, x) => PoisedAfter(s, w, Worker(Reading(x), []), id, cas);
    case Poll(w, queue) => PoisedAfter(s, w, Worker(Idle, queue), id, cas);
    case Next(w) =>
      var k := At(s, w);
      if |k.queue| > 0 {
        PoisedAfter(s, w, Worker(Reading(k.queue[0]), k.queue[1..]), id, cas);
      }
    case ScanOrphans(w, orphans) => PoisedAfter(s, w, Worker(Reclaiming(orphans), []), id, cas);
    case Act(w, env) =>
      WorkerPoise(s.store, s.now, At(s, w), env, id, cas);
      PoisedAfter(s, w, WorkerStep(s.store, s.now, At(s, w), env).1, id, cas);
    case _ =>
  }

  lemma {:induction false} RunSpare(actions: seq<Action>, id: string, cas: bool)
    ensures Spare(Run(actions), id, cas) >= 0
    decreases |actions|
  {
    if |actions| > 0 {
      RunSpare(actions[..|actions| - 1], id, cas);
      SpareStep(Run(actions[..|actions| - 1]), actions[|actions| - 1], id, cas);
    }
  }

  /** Per creation of a run, at most one execution comes from the workers that
      moved it to RUNNING; any other execution belongs to a worker whose first
      read already found it RUNNING. */
  lemma ExecutionsAccounted(actions: seq<Action>, id: string)
    ensures var log := Run(actions).log;
            && log[WasExecuted(id, true)] <= log[WasPut(id)]
            && log[WasExecuted(id, false)] <= log[WasReadRunning(id)]
  {
    RunSpare(actions, id, true);
    RunSpare(actions, id, false);
    AtMostOnce(actions, id);
  }

  // ----- one polling worker process at a time -----

  /** Only one worker process exists at a time, it takes its runs from the poll
      loop, and it may crash and restart at any step. */
  ghost predicate SinglePoller(actions: seq<Action>) {
    forall a | a in actions :: FromPoller(a)
  }

  predicate FromPoller(a: Action) {
    match a
    case Crash(w) => w == 0
    case OneShot(_, _) => false
    case Poll(w, _) => w == 0
    case Next(w) => w == 0
    case ScanOrphans(w, _) => w == 0
    case Act(w, _) => w == 0
    case _ => true
  }

  /** The run a worker is busy with. */
  function Busy(pc: Pc): Option<string> {
    match pc
    case Idle => None
    case Reading(id) => Some(id)
    case Claiming(run) => Some(run.runId)
    case Rechecking(run) => Some(run.runId)
    case Authorizing(run) => Some(run.runId)
    case Advancing(run) => Some(run.runId)
    case Renewing(run) => Some(run.runId)
    case Loading(run, _) => Some(run.runId)
    case Executing(run, _) => Some(run.runId)
    case Persisting(run, _) => Some(run.runId)
    case Finishing(run, _) => Some(run.runId)
    case Reclaiming(_) => None
  }

  /** Nobody has moved the run on since it was created. */
  predicate Fresh(s: Runs, id: string) {
    id in s.runs ==> s.runs[id].status == RunCreated
  }

  /** The poller's queue holds distinct fresh runs other than the one it is busy
      with, and what it is about to read is fresh. */
  ghost predicate PollerInv(s: Runs, k: Worker) {
    && (forall id | id in k.queue :: Fresh(s, id) && Busy(k.pc) != Some(id))
    && (forall i, j | 0 <= i < j < |k.queue| :: k.queue[i] != k.queue[j])
    && (k.pc.Reading? ==> Fresh(s, k.pc.id))
    && (k.pc.Reclaiming? ==> k.queue == [])
    && PcOk(k.pc)
  }

  /** A worker step leaves every run alone that it is not busy with. */
  lemma StepTouchesBusy(s: Runs, now: int, k: Worker, env: Env, id: string)
    requires PcOk(k.pc) && !k.pc.Reclaiming? && Busy(k.pc) != Some(id)
    ensures var t := WorkerStep(s, now, k, env).0;
            (id in t.runs <==> id in s.runs) && (id in s.runs ==> t.runs[id] == s.runs[id])
  {
  }

  /** A worker never takes on another run in the middle of one, and its queue is
      either kept or dropped. */
  /** What a step may do to queue and busyness. */
  ghost predicate StaysBusy(k': Worker, k: Worker) {
    && (k'.queue == k.queue || k'.queue == [])
    && (Busy(k'.pc).Some? ==> Busy(k'.pc) == Busy(k.pc)) && !k'.pc.Reading?
    && (k'.pc.Reclaiming? ==> k.pc.Reclaiming?)
  }

  lemma StepKeepsBusy(s: Runs, now: int, k: Worker, env: Env)
    requires StoreInv(s)
    ensures StaysBusy(WorkerStep(s, now, k, env).1, k)
  {
    match k.pc
    case Reading(id) =>
      if id in s.runs {
        AfterReadBusy(k, s.runs[id]);
      }
    case Authorizing(run) => FinalizeBusy(k, run, (RunBlocked, InterventionInvalid), env.message, now);
    case Loading(run, c) => AfterLoadBusy(k, run, c, env, now);
    case Executing(run, _) => AfterExecuteBusy(k, run, env, now);
    case Persisting(run, isolation) => AfterPersistBusy(k, run, isolation, env, now);
    case _ => OtherBusy(s, now, k, env);
  }

  lemma OtherBusy(s: Runs, now: int, k: Worker, env: Env)
    requires StoreInv(s) && !k.pc.Reading? && !k.pc.Authorizing? && !k.pc.Loading? && !k.pc.Executing? && !k.pc.Persisting?
    ensures StaysBusy(WorkerStep(s, now, k, env).1, k)
  {
  }

  ghost predicate StaysWith(k': Worker, k: Worker, run: Run) {
    && k'.queue == k.queue && !k'.pc.Reading? && !k'.pc.Reclaiming?
    && (Busy(k'.pc).Some? ==> Busy(k'.pc) == Some(run.runId))
  }

  lemma AfterReadBusy(k: Worker, run: Run)
    ensures var k' := AfterRead(k, run);
            && (k'.queue == k.queue || k'.queue == []) && !k'.pc.Reading? && !k'.pc.Reclaiming?
            && (Busy(k'.pc).Some? ==> Busy(k'.pc) == Some(run.runId))
  {
  }

  lemma FinalizeBusy(k: Worker, run: Run, record: (RunStatus, ErrorCode), message: string, now: int)
    ensures StaysWith(Finalize(k, run, record, message, now), k, run)
  {
  }

  lemma AfterLoadBusy(k: Worker, run: Run, c: bool, env: Env, now: int)
    ensures StaysWith(AfterLoad(k, run, c, env, now), k, run)
  {
  }

  lemma AfterExecuteBusy(k: Worker, run: Run, env: Env, now: int)
    ensures StaysWith(AfterExecute(k, run, env, now), k, run)
  {
  }

  lemma AfterPersistBusy(k: Worker, run: Run, isolation: Isolation, env: Env, now: int)
    ensures StaysWith(AfterPersist(k, run, isolation, env, now), k, run)
  {
  }

  lemma PollerStep(s: Runs, now: int, k: Worker, env: Env)
    requires StoreInv(s) && PollerInv(s, k)
    ensures var (t, k', entries) := WorkerStep(s, now, k, env);
            PollerInv(t, k') && forall id :: entries[WasReadRunning(id)] == 0
  {
    StepKeepsBusy(s, now, k, env);
    WorkerStaysOk(s, now, k, env);
    if !k.pc.Reclaiming? {
      forall id | id in k.queue
        ensures var t := WorkerStep(s, now, k, env).0;
                (id in t.runs <==> id in s.runs) && (id in s.runs ==> t.runs[id] == s.runs[id])
      {
        StepTouchesBusy(s, now, k, env, id);
      }
    }
  }

  ghost predicate SingleInv(s: State) {
    && StoreInv(s.store) && s.workers.Keys <= {0} && PollerInv(s.store, At(s, 0))
    && forall id :: s.log[WasReadRunning(id)] == 0
  }

  lemma CreateKeepsPoller(s: Runs, run: ReplayContract.Run, k: Worker)
    requires PollerInv(s, k)
    ensures PollerInv(Put(s, run).0, k) || run.status != RunCreated || Put(s, run).1.Some?
  {
  }

  lemma ResetKeepsPoller(s: Runs, k: Worker)
    requires PollerInv(s, k)
    ensures PollerInv(Reset(s), k)
  {
  }

  lemma SingleStep(s: State, a: Action)
    requires SingleInv(s) && FromPoller(a)
    ensures SingleInv(Apply(s, a))
  {
    ActionKeepsStore(s, a);
    match a
    case Create(run) => CreateKeepsPoller(s.store, run, At(s, 0));
    case ResetAll => ResetKeepsPoller(s.store, At(s, 0));
    case Next(w) =>
      var k := At(s, 0);
      if |k.queue| > 0 {
        assert k.queue[0] in k.queue && forall id | id in k.queue[1..] :: id in k.queue && id != k.queue[0];
      }
    case Act(w, env) => PollerStep(s.store, s.now, At(s, 0), env);
    case _ =>
  }

  lemma {:induction false} SinglePollerInv(actions: seq<Action>)
    requires SinglePoller(actions)
    ensures SingleInv(Run(actions))
    decreases |actions|
  {
    if |actions| > 0 {
      var init, last := actions[..|actions| - 1], actions[|actions| - 1];
      assert last in actions && forall a | a in init :: a in actions;
      SinglePollerInv(init);
      SingleStep(Run(init), last);
    }
  }

  /** With one polling worker process at a time, crashing and restarting as it
      may, every created run is executed at most once over the whole history. */
  lemma PollerExecutesOnce(actions: seq<Action>, id: string)
    requires SinglePoller(actions)
    ensures var log := Run(actions).log;
            log[WasExecuted(id, true)] + log[WasExecuted(id, false)] <= log[WasPut(id)] <= log[WasReset] + 1
  {
    SinglePollerInv(actions);
    ExecutionsAccounted(actions, id);
    AtMostOnce(actions, id);
  }

  // ----- recovery -----

  /** An execution error reaches the store exactly when it is not one of the two
      isolation-related ones; those leave the run RUNNING until it is reclaimed. */
  lemma ExecuteErrorExact(k: Worker, run: Run, env: Env, now: int)
    requires run.Valid() && run.status == RunRunning && run.isolation.None? && !Blank(env.message)
    requires Execute(env.execution).Failure?
    ensures AfterExecute(k, run, env, now).pc.Finishing? <==>
            Execute(env.execution).error != UnsafeReplay && Execute(env.execution).error != TeardownFailed
    ensures !AfterExecute(k, run, env, now).pc.Finishing? ==> AfterExecute(k, run, env, now).pc.Idle?
  {
    var (status, code) := ErrorRecord(Execute(env.execution).error);
    TerminatedExact(run, status, code, env.message, now);
  }

  /** Once a scan has listed a RUNNING run, the reclaimer's step on it leaves the
      run terminal, however long it took and whoever interfered, short of a
      reset. */
  lemma ReclaimerRecovers(past: seq<Action>, more: seq<Action>, w: nat, run: Run, env: Env)
    requires NoReset(more)
    requires run.runId in Run(past).store.runs && Run(past).store.runs[run.runId] == run && run.status == RunRunning
    requires var pc := At(Run(past + more), w).pc; pc.Reclaiming? && |pc.orphans| > 0 && pc.orphans[0] == run
    ensures var t := Run(past + more + [Act(w, env)]).store;
            run.runId in t.runs && IsTerminal(t.runs[run.runId].status)
  {
    ReachableStore(past);
    ReachableStore(past + more);
    HistoryEvolves(past, more);
    RunSnoc(past + more, Act(w, env));
    OrphanExact(run, Run(past + more).now);
    ReclaimStep(Run(past + more), w, run, env);
    OrphanEndsTerminal(Run(past).store, run, Run(past + more).store, Run(past + more).now);
  }

  lemma ReclaimStep(s: State, w: nat, run: Run, env: Env)
    requires At(s, w).pc.Reclaiming? && |At(s, w).pc.orphans| > 0 && At(s, w).pc.orphans[0] == run
    requires Orphaned(run, s.now).Valid()
    ensures Apply(s, Act(w, env)).store == Transition(s.store, run.status, Orphaned(run, s.now)).0
  {
    assert WorkerStep(s.store, s.now, At(s, w), env).0 == Transition(s.store, run.status, Orphaned(run, s.now)).0;
  }

  // ----- what completed runs carry -----

  predicate Matched(run: ReplayContract.Run) {
    run.status == RunCompleted ==> EffectsMatch(run)
  }

  predicate AboutToMatch(pc: Pc) {
    pc.Finishing? ==> Matched(pc.target)
  }

  ghost predicate AllMatched(s: State) {
    && (forall id | id in s.store.runs :: Matched(s.store.runs[id]))
    && (forall w | w in s.workers :: AboutToMatch(s.workers[w].pc))
  }

  lemma TargetMatches(s: Runs, now: int, k: Worker, env: Env)
    requires AboutToMatch(k.pc)
    ensures AboutToMatch(WorkerStep(s, now, k, env).1.pc)
  {
  }

  lemma TransitionMatches(s: Runs, from: RunStatus, run: ReplayContract.Run, id: string)
    requires (id in s.runs ==> Matched(s.runs[id])) && Matched(run)
    ensures var t := Transition(s, from, run).0; id in t.runs ==> Matched(t.runs[id])
  {
  }

  lemma StoredMatches(s: Runs, now: int, k: Worker, env: Env, id: string)
    requires AboutToMatch(k.pc) && (id in s.runs ==> Matched(s.runs[id]))
    ensures var t := WorkerStep(s, now, k, env).0; id in t.runs ==> Matched(t.runs[id])
  {
    match k.pc
    case Advancing(run) => TransitionMatches(s, run.status, Started(run, now), id);
    case Finishing(run, target) => TransitionMatches(s, run.status, target, id);
    case Reclaiming(orphans) =>
      if |orphans| > 0 {
        TransitionMatches(s, orphans[0].status, Orphaned(orphans[0], now), id);
      }
    case _ =>
  }

  lemma MatchedStep(s: State, a: Action)
    requires AllMatched(s)
    ensures AllMatched(Apply(s, a))
  {
    if a.Act? {
      MatchedAct(s, a.w, a.env);
    }
  }

  lemma MatchedAct(s: State, w: nat, env: Env)
    requires AllMatched(s)
    ensures AllMatched(Apply(s, Act(w, env)))
  {
    TargetMatches(s.store, s.now, At(s, w), env);
    var t := Apply(s, Act(w, env));
    forall id | id in t.store.runs ensures Matched(t.store.runs[id]) {
      StoredMatches(s.store, s.now, At(s, w), env, id);
    }
  }

  lemma {:induction false} RunMatched(actions: seq<Action>)
    ensures AllMatched(Run(actions))
    decreases |actions|
  {
    if |actions| > 0 {
      RunMatched(actions[..|actions| - 1]);
      MatchedStep(Run(actions[..|actions| - 1]), actions[|actions| - 1]);
    }
  }

  /** In every reachable store a COMPLETED run's effect summary is the one of its
      verdict. */
  lemma ReachableMatches(actions: seq<Action>, id: string)
    requires id in Run(actions).store.runs && Run(actions).store.runs[id].status == RunCompleted
    ensures EffectsMatch(Run(actions).store.runs[id])
  {
    RunMatched(actions);
    assert Matched(Run(actions).store.runs[id]);
  }
}
