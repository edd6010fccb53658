/** When a replay is executed, and when it is executed again. */
module Executions {
  import opened Basics
  import opened ReplayContract
  import opened RunStore
  import opened Workers = WorkerProtocol
  import RunProcessing

  // ----- one worker, undisturbed -----

  /** What a worker logs when it takes all its steps undisturbed. */
  function SoloLog(s: Runs, now: int, k: Worker, env: Env): multiset<Entry>
    decreases RunProcessing.Distance(k.pc)
  {
    if k.pc.Idle? || k.pc.Reclaiming? then multiset{} else
    var (t, k', entries) := WorkerStep(s, now, k, env);
    RunProcessing.StepsDown(s, now, k, env);
    entries + SoloLog(t, now, k', env)
  }

  /** The capsule checks let the run through. */
  predicate GatePasses(run: Run, env: Env) {
    env.capsule.CapsuleOk? || (env.capsule.InterventionRejected? && !(run.runType == WhatIf && run.intervention.Some?))
  }

  predicate Through(run: Run, env: Env) {
    var e := env.execution;
    GatePasses(run, env) && e.digestOk && e.packOk && e.interventionOk && e.planSafe
  }

  /** Executions of the run, of both kinds. */
  function Executed(log: multiset<Entry>, id: string): nat {
    log[WasExecuted(id, true)] + log[WasExecuted(id, false)]
  }

  lemma AfterwardsSilent(s: Runs, now: int, k: Worker, env: Env, id: string)
    requires k.pc.Idle? || k.pc.Reclaiming? || k.pc.Rechecking? || k.pc.Persisting? || k.pc.Finishing?
    ensures Executed(SoloLog(s, now, k, env), id) == 0
    decreases RunProcessing.Distance(k.pc)
  {
    if !k.pc.Idle? && !k.pc.Reclaiming? {
      RunProcessing.StepsDown(s, now, k, env);
      var (t, k', entries) := WorkerStep(s, now, k, env);
      assert k'.pc.Idle? || k'.pc.Finishing?;
      AfterwardsSilent(t, now, k', env, id);
    }
  }

  lemma ExecutingLog(s: Runs, now: int, k: Worker, run: Run, cas: bool, env: Env, c: bool)
    requires k.pc == Executing(run, cas)
    ensures SoloLog(s, now, k, env)[WasExecuted(run.runId, c)] == Number(ReachesRunner(env.execution) && c == cas)
  {
    var (t, k', entries) := WorkerStep(s, now, k, env);
    assert k'.pc.Idle? || k'.pc.Finishing? || k'.pc.Persisting?;
    AfterwardsSilent(t, now, k', env, run.runId);
  }

  lemma LoadingLog(s: Runs, now: int, k: Worker, run: Run, cas: bool, env: Env, c: bool)
    requires k.pc == Loading(run, cas)
    ensures SoloLog(s, now, k, env)[WasExecuted(run.runId, c)] == Number(Through(run, env) && c == cas)
  {
    var (t, k', entries) := WorkerStep(s, now, k, env);
    if GatePasses(run, env) {
      ExecutingLog(t, now, k', run, cas, env, c);
    } else {
      assert k'.pc.Idle? || k'.pc.Finishing?;
      AfterwardsSilent(t, now, k', env, run.runId);
    }
  }

  lemma RenewingLog(s: Runs, now: int, k: Worker, run: Run, env: Env, c: bool)
    requires k.pc == Renewing(run)
    ensures SoloLog(s, now, k, env)[WasExecuted(run.runId, c)] == Number(Through(run, env) && c)
  {
    var (t, k', entries) := WorkerStep(s, now, k, env);
    LoadingLog(t, now, k', run, true, env, c);
  }

  lemma AdvancingLog(s: Runs, now: int, k: Worker, run: Run, env: Env, c: bool)
    requires StoreInv(s) && run.runId in s.runs && s.runs[run.runId] == run && run.status == RunValidating
    requires k.pc == Advancing(run)
    ensures SoloLog(s, now, k, env)[WasExecuted(run.runId, c)] == Number(Through(run, env) && c)
  {
    StartKeepsValid(run, now);
    var (t, k', entries) := WorkerStep(s, now, k, env);
    assert k'.pc == Renewing(Started(run, now));
    RenewingLog(t, now, k', Started(run, now), env, c);
  }

  lemma ValidatedLog(s: Runs, now: int, k: Worker, run: Run, env: Env, c: bool)
    requires StoreInv(s) && run.runId in s.runs && s.runs[run.runId] == run && run.status == RunValidating
    requires k.pc == Validated(run)
    ensures SoloLog(s, now, k, env)[WasExecuted(run.runId, c)] == Number(Through(run, env) && c)
  {
    if run.runType == WhatIf {
      assert Authorized(s, run);
      var (t, k', entries) := WorkerStep(s, now, k, env);
      AdvancingLog(s, now, k', run, env, c);
    } else {
      AdvancingLog(s, now, k, run, env, c);
    }
  }

  lemma ClaimingLog(s: Runs, now: int, k: Worker, run: Run, env: Env, c: bool)
    requires StoreInv(s) && run.runId in s.runs && s.runs[run.runId] == run && run.status == RunCreated
    requires k.pc == Claiming(run)
    ensures SoloLog(s, now, k, env)[WasExecuted(run.runId, c)] == Number(Through(run, env) && c)
  {
    ClaimKeepsInv(s, run.runId, env.until);
    var (t, k', entries) := WorkerStep(s, now, k, env);
    ValidatedLog(t, now, k', run.(status := RunValidating), env, c);
  }

  /** A worker sent to a run and left alone executes it exactly when the run is
      stored and not terminal, the capsule checks let it through, and the runner
      is reached; as one that started the run itself unless it found it RUNNING.
      No what-if run fails the baseline check. */
  lemma ExecutesExactly(s: Runs, now: int, k: Worker, id: string, env: Env, c: bool)
    requires StoreInv(s) && k.pc == Reading(id)
    ensures SoloLog(s, now, k, env)[WasExecuted(id, c)] ==
            Number(id in s.runs && !IsTerminal(s.runs[id].status) && Through(s.runs[id], env)
                   && (c <==> s.runs[id].status != RunRunning))
  {
    var (t, k', entries) := WorkerStep(s, now, k, env);
    if id !in s.runs || IsTerminal(s.runs[id].status) {
      AfterwardsSilent(t, now, k', env, id);
    } else if s.runs[id].status == RunCreated {
      ClaimingLog(s, now, k', s.runs[id], env, c);
    } else if s.runs[id].status == RunValidating {
      ValidatedLog(s, now, k', s.runs[id], env, c);
    } else {
      LoadingLog(s, now, k', s.runs[id], false, env, c);
    }
  }

  // ----- in a history -----

  predicate Open(s: Runs, id: string) {
    id in s.runs && !IsTerminal(s.runs[id].status)
  }

  /** Left alone, the worker will execute the run. */
  predicate Bound(s: Runs, k: Worker, id: string, env: Env) {
    match k.pc
    case Reading(x) => x == id && Open(s, id) && Through(s.runs[id], env)
    case Claiming(run) => Stored(s, id, run, RunCreated) && Through(run, env)
    case Authorizing(run) => Stored(s, id, run, RunValidating) && run.runType == WhatIf && Through(run, env)
    case Advancing(run) => Stored(s, id, run, RunValidating) && Through(run, env)
    case Renewing(run) => run.runId == id && Through(run, env)
    case Loading(run, _) => run.runId == id && Through(run, env)
    case Executing(run, _) => run.runId == id && ReachesRunner(env.execution)
    case _ => false
  }

  /** The step brings the worker nearer to executing, and it stays bound. */
  ghost predicate Nearer(s: Runs, now: int, k: Worker, id: string, env: Env) {
    var (t, k', entries) := WorkerStep(s, now, k, env);
    && Bound(t, k', id, env) && Executed(entries, id) == 0 && (Open(s, id) ==> Open(t, id))
    && RunProcessing.Distance(k'.pc) < RunProcessing.Distance(k.pc)
  }

  lemma ReadingBound(s: Runs, now: int, k: Worker, id: string, env: Env)
    requires StoreInv(s) && k.pc.Reading? && Bound(s, k, id, env)
    ensures Nearer(s, now, k, id, env)
  {
  }

  lemma ClaimingBound(s: Runs, now: int, k: Worker, id: string, env: Env)
    requires StoreInv(s) && k.pc.Claiming? && Bound(s, k, id, env)
    ensures Nearer(s, now, k, id, env)
  {
    ClaimKeepsInv(s, id, env.until);
  }

  lemma AuthorizingBound(s: Runs, now: int, k: Worker, id: string, env: Env)
    requires StoreInv(s) && k.pc.Authorizing? && Bound(s, k, id, env)
    ensures Nearer(s, now, k, id, env)
  {
    assert Authorized(s, k.pc.run);
  }

  lemma PoisedBound(s: Runs, now: int, k: Worker, id: string, env: Env)
    requires (k.pc.Renewing? || k.pc.Loading?) && Bound(s, k, id, env)
    ensures Nearer(s, now, k, id, env)
  {
  }

  lemma AdvancingBound(s: Runs, now: int, k: Worker, id: string, env: Env)
    requires StoreInv(s) && k.pc.Advancing? && Bound(s, k, id, env)
    ensures Nearer(s, now, k, id, env)
  {
    StartAccepted(s, k.pc.run, now);
  }

  lemma BoundStep(s: Runs, now: int, k: Worker, id: string, env: Env)
    requires StoreInv(s) && Bound(s, k, id, env) && !k.pc.Executing?
    ensures Nearer(s, now, k, id, env)
  {
    match k.pc
    case Reading(_) => ReadingBound(s, now, k, id, env);
    case Claiming(_) => ClaimingBound(s, now, k, id, env);
    case Authorizing(_) => AuthorizingBound(s, now, k, id, env);
    case Advancing(_) => AdvancingBound(s, now, k, id, env);
    case _ => PoisedBound(s, now, k, id, env);
  }

  /** The same inside a state. */
  ghost predicate Approaches(s: State, w: nat, id: string, env: Env, t: State) {
    && Bound(t.store, At(t, w), id, env) && Executed(t.log, id) == Executed(s.log, id)
    && (Open(s.store, id) ==> Open(t.store, id))
    && RunProcessing.Distance(At(t, w).pc) < RunProcessing.Distance(At(s, w).pc)
    && forall v: nat | v != w :: At(t, v) == At(s, v)
  }

  lemma BoundAct(s: State, w: nat, id: string, env: Env)
    requires Nearer(s.store, s.now, At(s, w), id, env)
    ensures Approaches(s, w, id, env, Apply(s, Act(w, env)))
  {
  }

  /** The execution. */
  ghost predicate ExecutesNow(s: State, w: nat, id: string, t: State) {
    && Executed(t.log, id) == Executed(s.log, id) + 1 && (Open(s.store, id) ==> Open(t.store, id))
    && forall v: nat | v != w :: At(t, v) == At(s, v)
  }

  lemma ExecutingAct(s: State, w: nat, id: string, env: Env)
    requires At(s, w).pc.Executing? && Bound(s.store, At(s, w), id, env)
    ensures ExecutesNow(s, w, id, Apply(s, Act(w, env)))
  {
  }

  /** The worker's steps up to the execution. */
  lemma {:induction false} Executes(past: seq<Action>, w: nat, id: string, env: Env) returns (more: seq<Action>)
    requires Bound(Workers.Run(past).store, At(Workers.Run(past), w), id, env)
    ensures forall a | a in more :: a == Act(w, env)
    ensures ExecutesNow(Workers.Run(past), w, id, Workers.Run(past + more))
    decreases RunProcessing.Distance(At(Workers.Run(past), w).pc)
  {
    RunSnoc(past, Act(w, env));
    if At(Workers.Run(past), w).pc.Executing? {
      more := [Act(w, env)];
      ExecutingAct(Workers.Run(past), w, id, env);
    } else {
      ReachableStore(past);
      BoundStep(Workers.Run(past).store, Workers.Run(past).now, At(Workers.Run(past), w), id, env);
      BoundAct(Workers.Run(past), w, id, env);
      var rest := Executes(past + [Act(w, env)], w, id, env);
      more := [Act(w, env)] + rest;
      Prepended(past, Act(w, env), rest);
    }
  }

  /** The worker process is started again with the run's id. */
  lemma Sent(past: seq<Action>, w: nat, id: string)
    ensures var again := past + [Crash(w), OneShot(w, id)];
            At(Workers.Run(again), w) == Worker(Reading(id), []) && Workers.Run(again).store == Workers.Run(past).store && Workers.Run(again).log == Workers.Run(past).log
  {
    RunSnoc(past, Crash(w));
    RunSnoc(past + [Crash(w)], OneShot(w, id));
    assert past + [Crash(w), OneShot(w, id)] == past + [Crash(w)] + [OneShot(w, id)];
  }

  /** What a single worker process for one run does, crashing and restarting. */
  predicate Restarting(a: Action, w: nat, id: string) {
    a == Crash(w) || a == OneShot(w, id) || (a.Act? && a.w == w)
  }

  lemma RestartedOnce(past: seq<Action>, w: nat, id: string, env: Env) returns (more: seq<Action>)
    requires Open(Workers.Run(past).store, id) && env.capsule.CapsuleOk? && ReachesRunner(env.execution)
    ensures forall a | a in more :: Restarting(a, w, id)
    ensures Executed(Workers.Run(past + more).log, id) == Executed(Workers.Run(past).log, id) + 1 && Open(Workers.Run(past + more).store, id)
  {
    Sent(past, w, id);
    var again := past + [Crash(w), OneShot(w, id)];
    var rest := Executes(again, w, id, env);
    more := [Crash(w), OneShot(w, id)] + rest;
    Joined(past, [Crash(w), OneShot(w, id)], rest);
  }

  /** From any reachable state with a stored run that is not terminal, baseline or
      what-if, one worker process that crashes and is restarted with the run's id
      executes it any number of times. */
  lemma {:induction false} Restarted(past: seq<Action>, w: nat, id: string, env: Env, n: nat) returns (more: seq<Action>)
    requires Open(Workers.Run(past).store, id) && env.capsule.CapsuleOk? && ReachesRunner(env.execution)
    ensures forall a | a in more :: Restarting(a, w, id)
    ensures Executed(Workers.Run(past + more).log, id) == Executed(Workers.Run(past).log, id) + n && Open(Workers.Run(past + more).store, id)
  {
    if n == 0 {
      more := [];
      assert past + more == past;
    } else {
      var init := Restarted(past, w, id, env, n - 1);
      var last := RestartedOnce(past + init, w, id, env);
      more := init + last;
      Joined(past, init, last);
    }
  }

  predicate Polling(a: Action) {
    a.Poll? || a.Next? || a.Act?
  }

  /** Two pollers that have both listed the run while it was CREATED execute it
      twice, without a crash: the second works off a stale list. */
  lemma TwoPollers(past: seq<Action>, id: string, env: Env) returns (more: seq<Action>)
    requires ListsCreated(Workers.Run(past).store, [id]) && At(Workers.Run(past), 0) == NOBODY && At(Workers.Run(past), 1) == NOBODY
    requires env.capsule.CapsuleOk? && ReachesRunner(env.execution)
    ensures forall a | a in more :: Polling(a)
    ensures Executed(Workers.Run(past + more).log, id) == Executed(Workers.Run(past).log, id) + 2
  {
    var polled := PollBoth(past, id);
    var rest := BothExecute(past + polled, id, env);
    more := polled + rest;
    Joined(past, polled, rest);
  }

  lemma BothExecute(past: seq<Action>, id: string, env: Env) returns (more: seq<Action>)
    requires At(Workers.Run(past), 0) == Worker(Reading(id), []) && At(Workers.Run(past), 1) == Worker(Idle, [id])
    requires Open(Workers.Run(past).store, id) && env.capsule.CapsuleOk? && ReachesRunner(env.execution)
    ensures forall a | a in more :: Polling(a)
    ensures Executed(Workers.Run(past + more).log, id) == Executed(Workers.Run(past).log, id) + 2
  {
    var first := PollerExecutes(past, 0, id, env);
    var second := StalePoller(past + first, id, env);
    more := first + second;
    Joined(past, first, second);
  }

  lemma PollerExecutes(past: seq<Action>, w: nat, id: string, env: Env) returns (more: seq<Action>)
    requires At(Workers.Run(past), w).pc == Reading(id) && Open(Workers.Run(past).store, id)
    requires env.capsule.CapsuleOk? && ReachesRunner(env.execution)
    ensures forall a | a in more :: Polling(a)
    ensures Executed(Workers.Run(past + more).log, id) == Executed(Workers.Run(past).log, id) + 1
    ensures Open(Workers.Run(past + more).store, id)
    ensures forall v: nat | v != w :: At(Workers.Run(past + more), v) == At(Workers.Run(past), v)
  {
    more := Executes(past, w, id, env);
  }

  lemma StalePoller(past: seq<Action>, id: string, env: Env) returns (more: seq<Action>)
    requires At(Workers.Run(past), 1) == Worker(Idle, [id]) && Open(Workers.Run(past).store, id)
    requires env.capsule.CapsuleOk? && ReachesRunner(env.execution)
    ensures forall a | a in more :: Polling(a)
    ensures Executed(Workers.Run(past + more).log, id) == Executed(Workers.Run(past).log, id) + 1
  {
    RunSnoc(past, Next(1));
    assert [id][1..] == [];
    var rest := PollerExecutes(past + [Next(1)], 1, id, env);
    more := [Next(1)] + rest;
    Joined(past, [Next(1)], rest);
  }

  /** Both have listed the run, and the first has taken it up. */
  lemma PollBoth(past: seq<Action>, id: string) returns (more: seq<Action>)
    requires ListsCreated(Workers.Run(past).store, [id]) && At(Workers.Run(past), 0) == NOBODY && At(Workers.Run(past), 1) == NOBODY
    ensures forall a | a in more :: Polling(a)
    ensures Open(Workers.Run(past).store, id)
    ensures var s := Workers.Run(past + more);
            && s.store == Workers.Run(past).store && s.log == Workers.Run(past).log
            && At(s, 0) == Worker(Reading(id), []) && At(s, 1) == Worker(Idle, [id])
  {
    assert id in [id];
    var h := past + [Poll(0, [id])];
    var h' := h + [Poll(1, [id])];
    RunSnoc(past, Poll(0, [id]));
    RunSnoc(h, Poll(1, [id]));
    RunSnoc(h', Next(0));
    PolledState(Workers.Run(past), id);
    more := [Poll(0, [id]), Poll(1, [id]), Next(0)];
    assert past + more == h' + [Next(0)];
  }

  lemma PolledState(s: State, id: string)
    requires ListsCreated(s.store, [id]) && At(s, 0) == NOBODY && At(s, 1) == NOBODY
    ensures var t := Apply(Apply(Apply(s, Poll(0, [id])), Poll(1, [id])), Next(0));
            && t.store == s.store && t.log == s.log
            && At(t, 0) == Worker(Reading(id), []) && At(t, 1) == Worker(Idle, [id])
  {
    assert [id][1..] == [];
  }

  // ----- exactly when a run can still be executed -----

  /** Some worker has started the run, or read it RUNNING, and not yet executed
      it. */
  ghost predicate Held(s: State, id: string) {
    exists w: nat :: Poised(At(s, w).pc, id, true) || Poised(At(s, w).pc, id, false)
  }

  /** The run can still be executed in some continuation without a reset. */
  ghost predicate CanExecute(past: seq<Action>, id: string) {
    exists more :: NoReset(more) && Executed(Workers.Run(past + more).log, id) > Executed(Workers.Run(past).log, id)
  }

  ghost function PoisedCount(s: State, id: string): nat {
    |PoisedSet(s.workers, id, true)| + |PoisedSet(s.workers, id, false)|
  }

  /** On a terminal run no worker gets entitled any more. */
  lemma TerminalStep(s: State, a: Action, id: string, cas: bool)
    requires StoreInv(s.store) && id in s.store.runs && IsTerminal(s.store.runs[id].status) && !a.ResetAll?
    ensures Apply(s, a).log[Entitlement(id, cas)] == s.log[Entitlement(id, cas)]
  {
    if a.Act? {
      TerminalEntries(s.store, s.now, At(s, a.w), a.env, id);
      ActLog(s, a.w, a.env);
    } else {
      OtherLog(s, a, id, cas);
    }
  }

  lemma ActLog(s: State, w: nat, env: Env)
    ensures Apply(s, Act(w, env)).log == s.log + WorkerStep(s.store, s.now, At(s, w), env).2
  {
  }

  lemma OtherLog(s: State, a: Action, id: string, cas: bool)
    requires !a.Act?
    ensures Apply(s, a).log[Entitlement(id, cas)] == s.log[Entitlement(id, cas)]
  {
  }

  lemma TerminalEntries(s: Runs, now: int, k: Worker, env: Env, id: string)
    requires StoreInv(s) && id in s.runs && IsTerminal(s.runs[id].status)
    ensures var entries := WorkerStep(s, now, k, env).2; entries[WasStarted(id)] == 0 && entries[WasReadRunning(id)] == 0
  {
    if k.pc.Advancing? {
      AdvancingEntries(s, now, k, env, id);
    } else if k.pc.Reading? {
      ReadingEntries(s, now, k, env, id);
    } else {
      OtherEntries(s, now, k, env, id);
    }
  }

  lemma AdvancingEntries(s: Runs, now: int, k: Worker, env: Env, id: string)
    requires id in s.runs && IsTerminal(s.runs[id].status) && k.pc.Advancing?
    ensures var entries := WorkerStep(s, now, k, env).2; entries[WasStarted(id)] == 0 && entries[WasReadRunning(id)] == 0
  {
    StartRefused(s, k.pc.run, now, id);
  }

  lemma ReadingEntries(s: Runs, now: int, k: Worker, env: Env, id: string)
    requires StoreInv(s) && id in s.runs && IsTerminal(s.runs[id].status) && k.pc.Reading?
    ensures var entries := WorkerStep(s, now, k, env).2; entries[WasStarted(id)] == 0 && entries[WasReadRunning(id)] == 0
  {
  }

  /** Only a first read and a start entitle to execute. */
  lemma OtherEntries(s: Runs, now: int, k: Worker, env: Env, id: string)
    requires !k.pc.Advancing? && !k.pc.Reading?
    ensures var entries := WorkerStep(s, now, k, env).2; entries[WasStarted(id)] == 0 && entries[WasReadRunning(id)] == 0
  {
  }

  lemma StartRefused(s: Runs, run: Run, now: int, id: string)
    requires id in s.runs && IsTerminal(s.runs[id].status)
    ensures Transition(s, run.status, Started(run, now)).1.None? ==> run.runId != id
  {
    if CanTransition(run.status, RunRunning) {
      TransitionRaisesRank(run.status, RunRunning);
    }
  }

  /** Once a run is terminal, it is executed at most once more by every worker
      that had started it, or read it RUNNING, and not yet executed it, and by no
      other. */
  lemma {:induction false} AfterTerminal(past: seq<Action>, more: seq<Action>, id: string)
    requires NoReset(more) && id in Workers.Run(past).store.runs && IsTerminal(Workers.Run(past).store.runs[id].status)
    ensures Executed(Workers.Run(past + more).log, id) + PoisedCount(Workers.Run(past + more), id) <=
            Executed(Workers.Run(past).log, id) + PoisedCount(Workers.Run(past), id)
    decreases |more|
  {
    if |more| == 0 {
      assert past + more == past;
    } else {
      var init, last := more[..|more| - 1], more[|more| - 1];
      assert more == init + [last] && past + more == (past + init) + [last];
      AfterTerminal(past, init, id);
      HistoryEvolves(past, init);
      ReachableStore(past + init);
      RunSnoc(past + init, last);
      forall cas ensures Apply(Workers.Run(past + init), last).log[WasExecuted(id, cas)] +
                         |PoisedSet(Apply(Workers.Run(past + init), last).workers, id, cas)| <=
                         Workers.Run(past + init).log[WasExecuted(id, cas)] + |PoisedSet(Workers.Run(past + init).workers, id, cas)|
      {
        TerminalStep(Workers.Run(past + init), last, id, cas);
        SpareStep(Workers.Run(past + init), last, id, cas);
      }
    }
  }

  lemma NoneHeld(s: State, id: string)
    requires !Held(s, id)
    ensures PoisedCount(s, id) == 0
  {
    forall w | w in s.workers ensures !Poised(s.workers[w].pc, id, true) && !Poised(s.workers[w].pc, id, false) {
      assert At(s, w) == s.workers[w];
    }
  }

  lemma HeldExecutes(past: seq<Action>, id: string)
    requires Held(Workers.Run(past), id)
    ensures CanExecute(past, id)
  {
    var w: nat :| Poised(At(Workers.Run(past), w).pc, id, true) || Poised(At(Workers.Run(past), w).pc, id, false);
    var more := Executes(past, w, id, ALLGOOD);
    assert NoReset(more);
  }

  lemma OpenExecutes(past: seq<Action>, id: string)
    requires Open(Workers.Run(past).store, id)
    ensures CanExecute(past, id)
  {
    var more := RestartedOnce(past, 0, id, ALLGOOD);
    assert NoReset(more);
  }

  /** An environment in which nothing goes wrong before the runner. */
  const ALLGOOD := Env(0, CapsuleOk, Execution(true, true, true, true, RunnerError), true, None, "failed")

  /** A stored run can be executed again, however often it has been, exactly when
      it is not terminal, or some worker has started it, or read it RUNNING, and
      not yet executed it. */
  lemma ExecutedAgainExactly(past: seq<Action>, id: string)
    requires id in Workers.Run(past).store.runs
    ensures CanExecute(past, id) <==> Open(Workers.Run(past).store, id) || Held(Workers.Run(past), id)
  {
    if Open(Workers.Run(past).store, id) {
      OpenExecutes(past, id);
    } else if Held(Workers.Run(past), id) {
      HeldExecutes(past, id);
    } else {
      NoneHeld(Workers.Run(past), id);
      forall more | NoReset(more) ensures Executed(Workers.Run(past + more).log, id) <= Executed(Workers.Run(past).log, id) {
        AfterTerminal(past, more, id);
      }
    }
  }

  // ----- from the beginning -----

  lemma Created(past: seq<Action>, run: Run)
    requires run.status == RunCreated && Put(Workers.Run(past).store, run).1.None?
    ensures var s := Workers.Run(past + [Create(run)]);
            && s.store == Put(Workers.Run(past).store, run).0 && s.workers == Workers.Run(past).workers
            && s.log == Workers.Run(past).log + multiset{WasPut(run.runId)}
  {
    RunSnoc(past, Create(run));
  }

  /** A baseline run created once, and executed any number of times by a single
      restarted worker process. */
  lemma ManyExecutions(run: Run, env: Env, n: nat) returns (actions: seq<Action>)
    requires run.Valid() && run.status == RunCreated && run.runType == Baseline
    requires env.capsule.CapsuleOk? && ReachesRunner(env.execution)
    ensures |actions| > 0 && actions[0] == Create(run) && forall a | a in actions[1..] :: Restarting(a, 0, run.runId)
    ensures Executed(Workers.Run(actions).log, run.runId) == n
  {
    var none: seq<Action> := [];
    Created(none, run);
    assert none + [Create(run)] == [Create(run)];
    var more := Restarted([Create(run)], 0, run.runId, env, n);
    actions := [Create(run)] + more;
    assert actions[1..] == more;
  }

  lemma SoloStep(s: State, w: nat, env: Env)
    requires !At(s, w).pc.Idle? && !At(s, w).pc.Reclaiming?
    ensures var t := Apply(s, Act(w, env));
            && RunProcessing.Distance(At(t, w).pc) < RunProcessing.Distance(At(s, w).pc) && !At(t, w).pc.Reclaiming?
            && RunProcessing.Solo(s.store, s.now, At(s, w), env) == RunProcessing.Solo(t.store, t.now, At(t, w), env)
            && s.log + SoloLog(s.store, s.now, At(s, w), env) == t.log + SoloLog(t.store, t.now, At(t, w), env)
            && t.now == s.now
  {
    RunProcessing.StepsDown(s.store, s.now, At(s, w), env);
  }

  /** From `s` to `t` the worker has taken all its steps. */
  ghost predicate AllSteps(s: State, w: nat, env: Env, t: State) {
    && t.store == RunProcessing.Solo(s.store, s.now, At(s, w), env) && t.now == s.now
    && t.log == s.log + SoloLog(s.store, s.now, At(s, w), env)
  }

  lemma NoSteps(s: State, w: nat, env: Env)
    requires At(s, w).pc.Idle?
    ensures AllSteps(s, w, env, s)
  {
  }

  lemma OneStepMore(s: State, w: nat, env: Env, t: State)
    requires !At(s, w).pc.Idle? && !At(s, w).pc.Reclaiming? && AllSteps(Apply(s, Act(w, env)), w, env, t)
    ensures AllSteps(s, w, env, t)
  {
    SoloStep(s, w, env);
  }

  lemma StepDown(s: State, w: nat, env: Env)
    requires !At(s, w).pc.Idle? && !At(s, w).pc.Reclaiming?
    ensures var t := Apply(s, Act(w, env));
            RunProcessing.Distance(At(t, w).pc) < RunProcessing.Distance(At(s, w).pc) && !At(t, w).pc.Reclaiming?
  {
    RunProcessing.StepsDown(s.store, s.now, At(s, w), env);
  }

  lemma Prepended(past: seq<Action>, a: Action, rest: seq<Action>)
    requires forall b | b in rest :: b == a
    ensures past + ([a] + rest) == past + [a] + rest && forall b | b in [a] + rest :: b == a
  {
  }

  /** The worker's remaining steps, undisturbed. */
  lemma {:induction false} Finishes(past: seq<Action>, w: nat, env: Env) returns (more: seq<Action>)
    requires !At(Workers.Run(past), w).pc.Reclaiming?
    ensures forall a | a in more :: a == Act(w, env)
    ensures AllSteps(Workers.Run(past), w, env, Workers.Run(past + more))
    decreases RunProcessing.Distance(At(Workers.Run(past), w).pc)
  {
    if At(Workers.Run(past), w).pc.Idle? {
      more := [];
      assert past + more == past;
      NoSteps(Workers.Run(past), w, env);
    } else {
      RunSnoc(past, Act(w, env));
      StepDown(Workers.Run(past), w, env);
      var rest := Finishes(past + [Act(w, env)], w, env);
      more := [Act(w, env)] + rest;
      Prepended(past, Act(w, env), rest);
      OneStepMore(Workers.Run(past), w, env, Workers.Run(past + more));
    }
  }

  ghost predicate Fresh(s: Runs, id: string, env: Env) {
    && StoreInv(s) && id in s.runs && s.runs[id].status == RunCreated && s.runs[id].isolation.None?
    && !Blank(env.message) && RunProcessing.Completes(s.runs[id], env)
  }

  ghost predicate CompletedBeside(s: Runs, id: string, env: Env, t: Runs) {
    && t.runs.Keys == s.runs.Keys && id in s.runs && t.runs[id].status == RunCompleted && env.verdict.Some?
    && t.runs[id].outcome == Some(DeriveOutcome(s.runs[id].runType, env.verdict.value.matched))
  }

  /** Worker 0 is sent to a fresh run and does all it has to do. */
  lemma SentAndDone(past: seq<Action>, id: string, env: Env) returns (more: seq<Action>)
    requires Fresh(Workers.Run(past).store, id, env)
    ensures NoReset(more) && CompletedBeside(Workers.Run(past).store, id, env, Workers.Run(past + more).store)
  {
    var again := [Crash(0), OneShot(0, id)];
    Sent(past, 0, id);
    var rest := Finishes(past + again, 0, env);
    more := again + rest;
    Joined(past, again, rest);
    SentNoReset(0, id, rest, env);
    SentAlone(Workers.Run(past + again), id, env, Workers.Run(past + more));
  }

  lemma SentNoReset(w: nat, id: string, rest: seq<Action>, env: Env)
    requires forall a | a in rest :: a == Act(w, env)
    ensures NoReset([Crash(w), OneShot(w, id)] + rest)
  {
  }

  lemma SentAlone(s: State, id: string, env: Env, t: State)
    requires Fresh(s.store, id, env) && At(s, 0) == Worker(Reading(id), []) && AllSteps(s, 0, env, t)
    ensures CompletedBeside(s.store, id, env, t.store)
  {
    RunProcessing.FreshRunOutcome(s.store, s.now, id, env);
    SoloKeys(s.store, s.now, At(s, 0), env);
  }

  /** Workers neither create nor delete runs. */
  lemma {:induction false} SoloKeys(s: Runs, now: int, k: Worker, env: Env)
    ensures RunProcessing.Solo(s, now, k, env).runs.Keys == s.runs.Keys
    decreases RunProcessing.Distance(k.pc)
  {
    if !k.pc.Idle? && !k.pc.Reclaiming? {
      RunProcessing.StepsDown(s, now, k, env);
      var (t, k', _) := WorkerStep(s, now, k, env);
      StepKeys(s, now, k, env);
      SoloKeys(t, now, k', env);
    }
  }

  lemma StepKeys(s: Runs, now: int, k: Worker, env: Env)
    ensures WorkerStep(s, now, k, env).0.runs.Keys == s.runs.Keys
  {
  }

  /** A what-if run comes to be stored: its baseline is created, completed by a
      worker, and then the what-if run is created. */
  lemma WhatIfCreated(baseline: Run, run: Run, env: Env) returns (past: seq<Action>)
    requires baseline.Valid() && baseline.status == RunCreated && baseline.runType == Baseline && baseline.isolation.None?
    requires run.Valid() && run.status == RunCreated && run.runType == WhatIf && run.baselineRunId == baseline.runId
    requires run.runId != baseline.runId && run.capsuleId == baseline.capsuleId && run.capsuleHash == baseline.capsuleHash
    requires RunProcessing.Completes(baseline, env) && env.verdict.value.matched && !Blank(env.message)
    ensures Stored(Workers.Run(past).store, run.runId, run, RunCreated)
  {
    var none: seq<Action>, created := [], [Create(baseline)];
    Created(none, baseline);
    assert none + created == created;
    ReachableStore(created);
    var more := SentAndDone(created, baseline.runId, env);
    HistoryEvolves(created, more);
    ReachableStore(created + more);
    CompletedAdmits(baseline, Workers.Run(created + more).store.runs[baseline.runId], run);
    past := created + more + [Create(run)];
    Created(created + more, run);
  }

  lemma CompletedAdmits(baseline: Run, done: Run, run: Run)
    requires baseline.Valid() && baseline.runType == Baseline && SameProvenance(baseline, done) && done.runId == baseline.runId
    requires done.Valid() && done.status == RunCompleted && done.outcome == Some(Reproduced)
    requires run.baselineRunId == baseline.runId && run.capsuleId == baseline.capsuleId
    requires run.capsuleHash == baseline.capsuleHash
    ensures Admits(done, run)
  {
  }

  /** So a what-if run is executed any number of times, too. */
  lemma ManyWhatIfExecutions(baseline: Run, run: Run, env: Env, n: nat) returns (past: seq<Action>, more: seq<Action>)
    requires baseline.Valid() && baseline.status == RunCreated && baseline.runType == Baseline && baseline.isolation.None?
    requires run.Valid() && run.status == RunCreated && run.runType == WhatIf && run.baselineRunId == baseline.runId
    requires run.runId != baseline.runId && run.capsuleId == baseline.capsuleId && run.capsuleHash == baseline.capsuleHash
    requires RunProcessing.Completes(baseline, env) && env.verdict.value.matched && !Blank(env.message)
    requires env.capsule.CapsuleOk?
    ensures Stored(Workers.Run(past).store, run.runId, run, RunCreated)
    ensures forall a | a in more :: Restarting(a, 1, run.runId)
    ensures Executed(Workers.Run(past + more).log, run.runId) == Executed(Workers.Run(past).log, run.runId) + n
  {
    past := WhatIfCreated(baseline, run, env);
    ExecuteReaches(env.execution);
    more := Restarted(past, 1, run.runId, env, n);
  }

  lemma ExecuteReaches(e: Execution)
    ensures Execute(e).Success? ==> ReachesRunner(e)
  {
  }
}
