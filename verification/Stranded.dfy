/** Runs that a worker left behind: which of them are recovered, and by whom. */
module Stranded {
  import opened Basics
  import opened ReplayContract
  import opened RunStore
  import opened Workers = WorkerProtocol
  import opened Executions

  // ----- stranded in VALIDATING -----

  /** No worker works on the run, and none has listed it. */
  ghost predicate Unheld(s: State, id: string) {
    forall w | w in s.workers :: Busy(s.workers[w].pc) != Some(id) && id !in s.workers[w].queue
  }

  /** What reclaimers hold is what a scan returns. */
  ghost predicate CopyOk(pc: Pc) {
    pc.Reclaiming? ==> forall run | run in pc.orphans :: run.Valid() && (run.status == RunValidating || run.status == RunRunning)
  }

  ghost predicate CopiesOk(s: State) {
    forall w | w in s.workers :: CopyOk(s.workers[w].pc)
  }

  lemma CopiesStep(s: State, a: Action)
    requires StoreInv(s.store) && CopiesOk(s)
    ensures CopiesOk(Apply(s, a))
  {
    if a.Act? {
      StepKeepsBusy(s.store, s.now, At(s, a.w), a.env);
      OrphansShrink(s.store, s.now, At(s, a.w), a.env);
    }
  }

  lemma OrphansShrink(s: Runs, now: int, k: Worker, env: Env)
    requires CopyOk(k.pc) && (WorkerStep(s, now, k, env).1.pc.Reclaiming? ==> k.pc.Reclaiming?)
    ensures CopyOk(WorkerStep(s, now, k, env).1.pc)
  {
    if k.pc.Reclaiming? && |k.pc.orphans| > 0 {
      assert forall run | run in k.pc.orphans[1..] :: run in k.pc.orphans;
    }
  }

  lemma {:induction false} RunCopies(actions: seq<Action>)
    ensures CopiesOk(Workers.Run(actions))
    decreases |actions|
  {
    if |actions| > 0 {
      ReachableStore(actions[..|actions| - 1]);
      RunCopies(actions[..|actions| - 1]);
      CopiesStep(Workers.Run(actions[..|actions| - 1]), actions[|actions| - 1]);
    }
  }

  /** A worker that is not busy with a VALIDATING run leaves it alone, also when
      it is reclaiming. */
  lemma WorkerLeaves(s: Runs, now: int, k: Worker, env: Env, id: string)
    requires PcOk(k.pc) && CopyOk(k.pc) && Busy(k.pc) != Some(id)
    requires id in s.runs && s.runs[id].status == RunValidating
    ensures var t := WorkerStep(s, now, k, env).0; id in t.runs && t.runs[id] == s.runs[id]
  {
    if !k.pc.Reclaiming? {
      StepTouchesBusy(s, now, k, env, id);
    } else if |k.pc.orphans| > 0 {
      var run := k.pc.orphans[0];
      assert run in k.pc.orphans;
      OrphanExact(run, now);
    }
  }

  lemma StrandedAct(s: State, w: nat, env: Env, id: string)
    requires StoreInv(s.store) && WorkersOk(s) && CopiesOk(s) && Unheld(s, id)
    requires id in s.store.runs && s.store.runs[id].status == RunValidating
    ensures Unheld(Apply(s, Act(w, env)), id)
    ensures var t := Apply(s, Act(w, env)).store; id in t.runs && t.runs[id] == s.store.runs[id]
  {
    WorkerAt(s, w, id);
    StepKeepsBusy(s.store, s.now, At(s, w), env);
    WorkerLeaves(s.store, s.now, At(s, w), env, id);
    SteppedUnheld(s, w, WorkerStep(s.store, s.now, At(s, w), env), id);
  }

  lemma WorkerAt(s: State, w: nat, id: string)
    requires WorkersOk(s) && CopiesOk(s) && Unheld(s, id)
    ensures PcOk(At(s, w).pc) && CopyOk(At(s, w).pc) && Busy(At(s, w).pc) != Some(id) && id !in At(s, w).queue
  {
  }

  lemma SteppedUnheld(s: State, w: nat, r: (Runs, Worker, multiset<Entry>), id: string)
    requires Unheld(s, id) && Busy(r.1.pc) != Some(id) && id !in r.1.queue
    ensures Unheld(Stepped(s, w, r), id)
  {
  }

  lemma SetUnheld(s: State, w: nat, k: Worker, id: string)
    requires Unheld(s, id) && Busy(k.pc) != Some(id) && id !in k.queue
    ensures Unheld(Set(s, w, k), id)
  {
  }

  lemma StrandedStep(s: State, a: Action, id: string)
    requires StoreInv(s.store) && WorkersOk(s) && CopiesOk(s) && Unheld(s, id)
    requires id in s.store.runs && s.store.runs[id].status == RunValidating
    requires !a.ResetAll? && !(a.OneShot? && a.id == id)
    ensures Unheld(Apply(s, a), id)
    ensures id in Apply(s, a).store.runs && Apply(s, a).store.runs[id] == s.store.runs[id]
  {
    if a.Act? {
      StrandedAct(s, a.w, a.env, id);
    } else {
      StrandedOther(s, a, id);
    }
  }

  lemma StrandedOther(s: State, a: Action, id: string)
    requires Unheld(s, id) && id in s.store.runs && s.store.runs[id].status == RunValidating
    requires !a.Act? && !a.ResetAll? && !(a.OneShot? && a.id == id)
    ensures Unheld(Apply(s, a), id)
    ensures id in Apply(s, a).store.runs && Apply(s, a).store.runs[id] == s.store.runs[id]
  {
    match a
    case Next(w) => StrandedNext(s, w, id);
    case Poll(w, queue) => StrandedPoll(s, w, queue, id);
    case Crash(w) => SetUnheld(s, w, NOBODY, id);
    case OneShot(w, x) => SetUnheld(s, w, Worker(Reading(x), []), id);
    case ScanOrphans(w, orphans) => SetUnheld(s, w, Worker(Reclaiming(orphans), []), id);
    case _ => StrandedStore(s, a, id);
  }

  /** Pollers list only CREATED runs. */
  lemma StrandedPoll(s: State, w: nat, queue: seq<string>, id: string)
    requires Unheld(s, id) && id in s.store.runs && s.store.runs[id].status == RunValidating
    ensures Unheld(Apply(s, Poll(w, queue)), id) && Apply(s, Poll(w, queue)).store == s.store
  {
    if ListsCreated(s.store, queue) {
      SetUnheld(s, w, Worker(Idle, queue), id);
    }
  }

  lemma StrandedStore(s: State, a: Action, id: string)
    requires (a.Tick? || a.Create?) && Unheld(s, id) && id in s.store.runs
    ensures Unheld(Apply(s, a), id)
    ensures id in Apply(s, a).store.runs && Apply(s, a).store.runs[id] == s.store.runs[id]
  {
  }

  lemma StrandedNext(s: State, w: nat, id: string)
    requires Unheld(s, id)
    ensures Unheld(Apply(s, Next(w)), id) && Apply(s, Next(w)).store == s.store
  {
    var k := At(s, w);
    if k.pc.Idle? && |k.queue| > 0 {
      assert k.queue[0] in k.queue && forall x | x in k.queue[1..] :: x in k.queue;
      SetUnheld(s, w, Worker(Reading(k.queue[0]), k.queue[1..]), id);
    }
  }

  ghost predicate NotSent(more: seq<Action>, id: string) {
    forall a | a in more :: !(a.OneShot? && a.id == id)
  }

  /** A run left in VALIDATING that no worker holds or has listed stays there, over
      every continuation in which no worker process is started for it: pollers
      list only CREATED runs, and reclaimers cannot fail it. */
  lemma {:induction false} StrandedStays(past: seq<Action>, more: seq<Action>, id: string)
    requires NoReset(more) && NotSent(more, id) && Unheld(Workers.Run(past), id)
    requires id in Workers.Run(past).store.runs && Workers.Run(past).store.runs[id].status == RunValidating
    ensures Unheld(Workers.Run(past + more), id)
    ensures id in Workers.Run(past + more).store.runs
    ensures Workers.Run(past + more).store.runs[id] == Workers.Run(past).store.runs[id]
    decreases |more|
  {
    if |more| == 0 {
      assert past + more == past;
    } else {
      var init, last := more[..|more| - 1], more[|more| - 1];
      assert more == init + [last] && past + more == (past + init) + [last];
      StrandedStays(past, init, id);
      RunSnoc(past + init, last);
      ReachableStore(past + init);
      RunAccounted(past + init, id);
      RunCopies(past + init);
      StrandedStep(Workers.Run(past + init), last, id);
    }
  }

  lemma ActStore(s: State, w: nat, env: Env)
    ensures Apply(s, Act(w, env)).store == WorkerStep(s.store, s.now, At(s, w), env).0
  {
  }

  lemma StartedStep(s: State, w: nat, run: Run, env: Env)
    requires StoreInv(s.store) && At(s, w).pc == Advancing(run) && Stored(s.store, run.runId, run, RunValidating)
    ensures var t := Apply(s, Act(w, env));
            run.runId in t.store.runs && t.store.runs[run.runId] == Started(run, s.now)
  {
    ActStore(s, w, env);
    AdvancingStep(s.store, s.now, At(s, w), run, env);
  }

  lemma AdvancingStep(s: Runs, now: int, k: Worker, run: Run, env: Env)
    requires StoreInv(s) && k.pc == Advancing(run) && Stored(s, run.runId, run, RunValidating)
    ensures WorkerStep(s, now, k, env).0 == s.(runs := s.runs[run.runId := Started(run, now)])
  {
    StartAccepted(s, run, now);
  }

  lemma ReadingStep(s: Runs, now: int, k: Worker, id: string, env: Env)
    requires k.pc == Reading(id) && id in s.runs && s.runs[id].status == RunValidating
    ensures WorkerStep(s, now, k, env).0 == s && WorkerStep(s, now, k, env).1.pc == Validated(s.runs[id])
  {
  }

  lemma ReadValidating(past: seq<Action>, w: nat, id: string, env: Env)
    requires At(Workers.Run(past), w).pc == Reading(id)
    requires id in Workers.Run(past).store.runs && Workers.Run(past).store.runs[id].status == RunValidating
    ensures var s, run := Workers.Run(past + [Act(w, env)]), Workers.Run(past).store.runs[id];
            run.runId == id && At(s, w).pc == Validated(run) && Stored(s.store, id, run, RunValidating)
  {
    ReachableStore(past);
    RunSnoc(past, Act(w, env));
    ReadingAct(Workers.Run(past), w, id, env);
  }

  lemma ReadingAct(s: State, w: nat, id: string, env: Env)
    requires At(s, w).pc == Reading(id) && id in s.store.runs && s.store.runs[id].status == RunValidating
    ensures var t := Apply(s, Act(w, env)); t.store == s.store && At(t, w).pc == Validated(s.store.runs[id])
  {
    ReadingStep(s.store, s.now, At(s, w), id, env);
  }

  /** A worker that reads it does start it, left alone for two or three steps. */
  lemma StrandedStarted(past: seq<Action>, w: nat, id: string, env: Env) returns (more: seq<Action>)
    requires At(Workers.Run(past), w).pc == Reading(id)
    requires id in Workers.Run(past).store.runs && Workers.Run(past).store.runs[id].status == RunValidating
    ensures more == [Act(w, env), Act(w, env)] || more == [Act(w, env), Act(w, env), Act(w, env)]
    ensures id in Workers.Run(past + more).store.runs && Workers.Run(past + more).store.runs[id].status == RunRunning
  {
    var run := Workers.Run(past).store.runs[id];
    ReadValidating(past, w, id, env);
    var rest;
    if run.runType == WhatIf {
      rest := AuthorizingStarts(past + [Act(w, env)], w, run, env);
    } else {
      rest := AdvancingStarts(past + [Act(w, env)], w, run, env);
    }
    more := [Act(w, env)] + rest;
    Joined(past, [Act(w, env)], rest);
  }

  lemma AuthorizingStarts(past: seq<Action>, w: nat, run: Run, env: Env) returns (more: seq<Action>)
    requires At(Workers.Run(past), w).pc == Authorizing(run) && run.runType == WhatIf
    requires Stored(Workers.Run(past).store, run.runId, run, RunValidating)
    ensures more == [Act(w, env), Act(w, env)]
    ensures var t := Workers.Run(past + more).store; run.runId in t.runs && t.runs[run.runId].status == RunRunning
  {
    GatePassed(past, w, run, env);
    var rest := AdvancingStarts(past + [Act(w, env)], w, run, env);
    more := [Act(w, env)] + rest;
    Joined(past, [Act(w, env)], rest);
  }

  lemma GatePassed(past: seq<Action>, w: nat, run: Run, env: Env)
    requires At(Workers.Run(past), w).pc == Authorizing(run) && run.runType == WhatIf
    requires Stored(Workers.Run(past).store, run.runId, run, RunValidating)
    ensures var s := Workers.Run(past + [Act(w, env)]);
            At(s, w).pc == Advancing(run) && Stored(s.store, run.runId, run, RunValidating)
  {
    ReachableStore(past);
    RunSnoc(past, Act(w, env));
    AuthorizingAct(Workers.Run(past), w, run, env);
  }

  lemma AuthorizingAct(s: State, w: nat, run: Run, env: Env)
    requires StoreInv(s.store) && At(s, w).pc == Authorizing(run) && run.runType == WhatIf
    requires Stored(s.store, run.runId, run, RunValidating)
    ensures var t := Apply(s, Act(w, env)); t.store == s.store && At(t, w).pc == Advancing(run)
  {
    AuthorizingStep(s.store, s.now, At(s, w), run, env);
    assert Apply(s, Act(w, env)) == Stepped(s, w, (s.store, Go(At(s, w), Advancing(run)), multiset{}));
  }

  lemma AuthorizingStep(s: Runs, now: int, k: Worker, run: Run, env: Env)
    requires StoreInv(s) && k.pc == Authorizing(run) && run.runType == WhatIf && Stored(s, run.runId, run, RunValidating)
    ensures WorkerStep(s, now, k, env) == (s, Go(k, Advancing(run)), multiset{})
  {
    assert Authorized(s, run);
  }

  lemma AdvancingStarts(past: seq<Action>, w: nat, run: Run, env: Env) returns (more: seq<Action>)
    requires At(Workers.Run(past), w).pc == Advancing(run)
    requires Stored(Workers.Run(past).store, run.runId, run, RunValidating)
    ensures more == [Act(w, env)]
    ensures var t := Workers.Run(past + more).store; run.runId in t.runs && t.runs[run.runId].status == RunRunning
  {
    more := [Act(w, env)];
    ReachableStore(past);
    RunSnoc(past, Act(w, env));
    StartedStep(Workers.Run(past), w, run, env);
  }

  /** So from any reachable state a worker process started for the run recovers
      it. */
  lemma StrandedRecoverable(past: seq<Action>, w: nat, id: string, env: Env) returns (more: seq<Action>)
    requires id in Workers.Run(past).store.runs && Workers.Run(past).store.runs[id].status == RunValidating
    ensures forall a | a in more :: Restarting(a, w, id)
    ensures id in Workers.Run(past + more).store.runs && Workers.Run(past + more).store.runs[id].status == RunRunning
  {
    var again := [Crash(w), OneShot(w, id)];
    Sent(past, w, id);
    var rest := StrandedStarted(past + again, w, id, env);
    more := again + rest;
    Joined(past, again, rest);
  }

  // ----- stranded in RUNNING -----

  ghost predicate Terminal(s: Runs, id: string) {
    id in s.runs && IsTerminal(s.runs[id].status)
  }

  /** A listed RUNNING run is terminal by now, or the pass has yet to come to it. */
  ghost predicate Passing(s: State, w: nat, orphans: seq<Run>) {
    forall run | run in orphans && run.status == RunRunning :: Terminal(s.store, run.runId) || Awaits(At(s, w).pc, run)
  }

  predicate Awaits(pc: Pc, run: Run) {
    pc.Reclaiming? && run in pc.orphans
  }

  lemma TerminalStays(s: Runs, t: Runs, id: string)
    requires Terminal(s, id) && Evolves(s, t)
    ensures Terminal(t, id)
  {
    assert Advances(s.runs[id], t.runs[id]);
  }

  /** The pass's own step: the run at the head becomes terminal. */
  lemma OwnStep(scanned: Runs, s: State, w: nat, run: Run, env: Env)
    requires StoreInv(scanned) && StoreInv(s.store) && Evolves(scanned, s.store)
    requires run.runId in scanned.runs && scanned.runs[run.runId] == run && run.status == RunRunning
    requires Awaits(At(s, w).pc, run)
    ensures var t := Apply(s, Act(w, env)); Terminal(t.store, run.runId) || Awaits(At(t, w).pc, run)
  {
    if At(s, w).pc.orphans[0] == run {
      OrphanExact(run, s.now);
      ReclaimStep(s, w, run, env);
      OrphanEndsTerminal(scanned, run, s.store, s.now);
    } else {
      OwnSkip(s, w, run, env);
    }
  }

  lemma OwnSkip(s: State, w: nat, run: Run, env: Env)
    requires Awaits(At(s, w).pc, run) && At(s, w).pc.orphans[0] != run
    ensures Awaits(At(Apply(s, Act(w, env)), w).pc, run)
  {
    assert run in At(s, w).pc.orphans[1..];
  }

  lemma PassingStep(scanned: Runs, s: State, w: nat, orphans: seq<Run>, a: Action)
    requires StoreInv(scanned) && StoreInv(s.store) && Evolves(scanned, s.store) && Passing(s, w, orphans)
    requires forall run | run in orphans :: run.runId in scanned.runs && scanned.runs[run.runId] == run
    requires !a.ResetAll? && a != Crash(w)
    ensures Passing(Apply(s, a), w, orphans)
  {
    var t := Apply(s, a);
    ActionKeepsStore(s, a);
    forall run | run in orphans && run.status == RunRunning ensures Terminal(t.store, run.runId) || Awaits(At(t, w).pc, run) {
      if Terminal(s.store, run.runId) {
        TerminalStays(s.store, t.store, run.runId);
      } else if a.Act? && a.w == w {
        OwnStep(scanned, s, w, run, a.env);
      } else {
        OthersKeep(s, w, a);
      }
    }
  }

  /** While a worker reclaims, only its own steps and a crash move it. */
  lemma OthersKeep(s: State, w: nat, a: Action)
    requires At(s, w).pc.Reclaiming? && a != Crash(w) && !(a.Act? && a.w == w)
    ensures At(Apply(s, a), w) == At(s, w)
  {
  }

  lemma {:induction false} PassingRun(past: seq<Action>, w: nat, orphans: seq<Run>, more: seq<Action>)
    requires At(Workers.Run(past), w) == NOBODY && ListsExpired(Workers.Run(past).store, Workers.Run(past).now, orphans)
    requires NoReset(more) && Crash(w) !in more
    ensures Passing(Workers.Run(past + [ScanOrphans(w, orphans)] + more), w, orphans)
    decreases |more|
  {
    var scan := past + [ScanOrphans(w, orphans)];
    if |more| == 0 {
      assert scan + more == scan;
      RunSnoc(past, ScanOrphans(w, orphans));
    } else {
      var init, last := more[..|more| - 1], more[|more| - 1];
      assert more == init + [last];
      PassingRun(past, w, orphans, init);
      PassingSnoc(past, w, orphans, init, last);
      Joined(scan, init, [last]);
    }
  }

  lemma PassingSnoc(past: seq<Action>, w: nat, orphans: seq<Run>, init: seq<Action>, last: Action)
    requires ListsExpired(Workers.Run(past).store, Workers.Run(past).now, orphans)
    requires Passing(Workers.Run(past + [ScanOrphans(w, orphans)] + init), w, orphans)
    requires NoReset(init) && !last.ResetAll? && last != Crash(w)
    ensures Passing(Workers.Run(past + [ScanOrphans(w, orphans)] + init + [last]), w, orphans)
  {
    SinceScan(past, w, orphans, init);
    RunSnoc(past + [ScanOrphans(w, orphans)] + init, last);
    PassingStep(Workers.Run(past).store, Workers.Run(past + [ScanOrphans(w, orphans)] + init), w, orphans, last);
  }

  lemma SinceScan(past: seq<Action>, w: nat, orphans: seq<Run>, more: seq<Action>)
    requires NoReset(more)
    ensures StoreInv(Workers.Run(past).store)
    ensures var s := Workers.Run(past + [ScanOrphans(w, orphans)] + more).store;
            StoreInv(s) && Evolves(Workers.Run(past).store, s)
  {
    ReachableStore(past);
    ReachableStore(past + [ScanOrphans(w, orphans)] + more);
    HistoryEvolves(past, [ScanOrphans(w, orphans)] + more);
    Joined(past, [ScanOrphans(w, orphans)], more);
  }

  /** A whole reclaim pass, however long it takes and whoever interferes: when it
      has run to its end without crashing, every RUNNING run it had listed is
      terminal. */
  lemma PassEndsTerminal(past: seq<Action>, w: nat, orphans: seq<Run>, more: seq<Action>)
    requires At(Workers.Run(past), w) == NOBODY && ListsExpired(Workers.Run(past).store, Workers.Run(past).now, orphans)
    requires NoReset(more) && Crash(w) !in more
    requires !At(Workers.Run(past + [ScanOrphans(w, orphans)] + more), w).pc.Reclaiming?
    ensures forall run | run in orphans && run.status == RunRunning ::
              Terminal(Workers.Run(past + [ScanOrphans(w, orphans)] + more).store, run.runId)
  {
    PassingRun(past, w, orphans, more);
  }

  /** A replay refused as unsafe, or whose teardown failed: the worker cannot
      record it and leaves the run RUNNING. */
  lemma ErrorLeavesRunning(past: seq<Action>, v: nat, run: Run, env: Env)
    requires exists cas :: At(Workers.Run(past), v).pc == Executing(run, cas)
    requires Stored(Workers.Run(past).store, run.runId, run, RunRunning) && run.isolation.None? && !Blank(env.message)
    requires Execute(env.execution) == Failure(UnsafeReplay) || Execute(env.execution) == Failure(TeardownFailed)
    ensures var s := Workers.Run(past + [Act(v, env)]);
            At(s, v).pc.Idle? && Stored(s.store, run.runId, run, RunRunning)
  {
    ReachableStore(past);
    RunSnoc(past, Act(v, env));
    ErrorStep(Workers.Run(past), v, run, env);
  }

  lemma ErrorStep(s: State, v: nat, run: Run, env: Env)
    requires exists cas :: At(s, v).pc == Executing(run, cas)
    requires run.Valid() && run.status == RunRunning && run.isolation.None? && !Blank(env.message)
    requires Execute(env.execution) == Failure(UnsafeReplay) || Execute(env.execution) == Failure(TeardownFailed)
    ensures At(Apply(s, Act(v, env)), v).pc.Idle? && Apply(s, Act(v, env)).store == s.store
  {
    ExecuteErrorExact(At(s, v), run, env, s.now);
  }

  /** Such a run ends terminal all the same: once its lease has run out, any
      reclaim pass that runs to its end sees to it. */
  lemma ErrorRecovered(past: seq<Action>, v: nat, run: Run, env: Env, wait: seq<Action>, w: nat, orphans: seq<Run>,
                       more: seq<Action>)
    requires exists cas :: At(Workers.Run(past), v).pc == Executing(run, cas)
    requires Stored(Workers.Run(past).store, run.runId, run, RunRunning) && run.isolation.None? && !Blank(env.message)
    requires Execute(env.execution) == Failure(UnsafeReplay) || Execute(env.execution) == Failure(TeardownFailed)
    requires NoReset(wait) && NoReset(more) && Crash(w) !in more
    requires var s := Workers.Run(past + [Act(v, env)] + wait);
             && At(s, w) == NOBODY && ListsExpired(s.store, s.now, orphans)
             && (run.runId in s.store.lease ==> s.store.lease[run.runId] < s.now)
    requires var h := past + [Act(v, env)] + wait + [ScanOrphans(w, orphans)] + more;
             !At(Workers.Run(h), w).pc.Reclaiming?
    ensures Terminal(Workers.Run(past + [Act(v, env)] + wait + [ScanOrphans(w, orphans)] + more).store, run.runId)
  {
    ErrorLeavesRunning(past, v, run, env);
    var left := past + [Act(v, env)];
    RunningRecovered(left, run.runId, wait, w, orphans, more);
  }

  /** The same for any run that is RUNNING, whatever left it so. */
  lemma RunningRecovered(left: seq<Action>, id: string, wait: seq<Action>, w: nat, orphans: seq<Run>, more: seq<Action>)
    requires id in Workers.Run(left).store.runs && Workers.Run(left).store.runs[id].status == RunRunning
    requires NoReset(wait) && NoReset(more) && Crash(w) !in more
    requires var s := Workers.Run(left + wait);
             && At(s, w) == NOBODY && ListsExpired(s.store, s.now, orphans)
             && (id in s.store.lease ==> s.store.lease[id] < s.now)
    requires !At(Workers.Run(left + wait + [ScanOrphans(w, orphans)] + more), w).pc.Reclaiming?
    ensures Terminal(Workers.Run(left + wait + [ScanOrphans(w, orphans)] + more).store, id)
  {
    HistoryEvolves(left, wait);
    ReachableStore(left + wait);
    ListedOrDone(Workers.Run(left).store, Workers.Run(left + wait), orphans, id);
    if Terminal(Workers.Run(left + wait).store, id) {
      DoneBefore(left + wait, id, w, orphans, more);
    } else {
      PassEndsTerminal(left + wait, w, orphans, more);
    }
  }

  lemma DoneBefore(past: seq<Action>, id: string, w: nat, orphans: seq<Run>, more: seq<Action>)
    requires NoReset(more) && Terminal(Workers.Run(past).store, id)
    ensures Terminal(Workers.Run(past + [ScanOrphans(w, orphans)] + more).store, id)
  {
    assert past + ([ScanOrphans(w, orphans)] + more) == past + [ScanOrphans(w, orphans)] + more;
    LaterTerminal(past, [ScanOrphans(w, orphans)] + more, id);
  }

  /** A RUNNING run whose lease has run out is listed by the scan, unless it is
      terminal by then. */
  lemma ListedOrDone(before: Runs, s: State, orphans: seq<Run>, id: string)
    requires Evolves(before, s.store) && id in before.runs && before.runs[id].status == RunRunning && StoreInv(s.store)
    requires ListsExpired(s.store, s.now, orphans) && (id in s.store.lease ==> s.store.lease[id] < s.now)
    ensures Terminal(s.store, id) || exists run :: run in orphans && run.status == RunRunning && run.runId == id
  {
    assert Advances(before.runs[id], s.store.runs[id]);
    if s.store.runs[id].status == RunRunning {
      assert Expired(s.store, id, s.now) && s.store.runs[id] in orphans;
    }
  }

  lemma LaterTerminal(past: seq<Action>, more: seq<Action>, id: string)
    requires NoReset(more) && Terminal(Workers.Run(past).store, id)
    ensures Terminal(Workers.Run(past + more).store, id)
  {
    HistoryEvolves(past, more);
    TerminalStays(Workers.Run(past).store, Workers.Run(past + more).store, id);
  }
}
