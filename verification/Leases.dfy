/** What a lease is worth: as long as it runs no reclaim pass lists the run. */
module Leases {
  import opened Basics
  import opened ReplayContract
  import opened RunStore
  import opened Workers = WorkerProtocol

  ghost predicate LeasedUntil(s: Runs, id: string, until: int) {
    id in s.lease && s.lease[id] == until
  }

  /** A claim or renewal of the run's lease. */
  predicate WritesLease(s: State, a: Action, id: string) {
    a.Act? && match At(s, a.w).pc
              case Claiming(run) => run.runId == id
              case Renewing(run) => run.runId == id
              case _ => false
  }

  /** Nobody claims the run or renews its lease. */
  ghost predicate Unwritten(s: State, id: string, more: seq<Action>)
    decreases |more|
  {
    |more| > 0 ==> !WritesLease(s, more[0], id) && Unwritten(Apply(s, more[0]), id, more[1..])
  }

  /** The state after further actions. */
  function Continue(s: State, more: seq<Action>): State
    decreases |more|
  {
    if |more| == 0 then s else Continue(Apply(s, more[0]), more[1..])
  }

  lemma {:induction false} RunContinues(past: seq<Action>, more: seq<Action>)
    ensures Workers.Run(past + more) == Continue(Workers.Run(past), more)
    decreases |more|
  {
    if |more| == 0 {
      assert past + more == past;
    } else {
      RunSnoc(past, more[0]);
      RunContinues(past + [more[0]], more[1..]);
      assert past + more == past + [more[0]] + more[1..];
    }
  }

  lemma StepKeepsLease(s: Runs, now: int, k: Worker, env: Env, id: string, until: int)
    requires LeasedUntil(s, id, until)
    requires !(k.pc.Claiming? && k.pc.run.runId == id) && !(k.pc.Renewing? && k.pc.run.runId == id)
    ensures LeasedUntil(WorkerStep(s, now, k, env).0, id, until)
  {
  }

  lemma LeaseStays(s: State, a: Action, id: string, until: int)
    requires LeasedUntil(s.store, id, until) && !WritesLease(s, a, id)
    ensures LeasedUntil(Apply(s, a).store, id, until)
  {
    if a.Act? {
      StepKeepsLease(s.store, s.now, At(s, a.w), a.env, id, until);
    }
  }

  lemma {:induction false} LeaseRuns(s: State, id: string, until: int, more: seq<Action>)
    requires LeasedUntil(s.store, id, until) && Unwritten(s, id, more)
    ensures LeasedUntil(Continue(s, more).store, id, until)
    decreases |more|
  {
    if |more| > 0 {
      LeaseStays(s, more[0], id, until);
      LeaseRuns(Apply(s, more[0]), id, until, more[1..]);
    }
  }

  /** A worker's successful claim or renewal grants the lease asked for. */
  predicate Grants(s: State, w: nat, id: string) {
    match At(s, w).pc
    case Claiming(run) => run.runId == id && id in s.store.runs && s.store.runs[id].status == RunCreated
    case Renewing(run) => run.runId == id && id in s.store.runs
    case _ => false
  }

  lemma GrantLeases(s: State, w: nat, env: Env, id: string)
    requires Grants(s, w, id)
    ensures LeasedUntil(Apply(s, Act(w, env)).store, id, env.until)
  {
  }

  lemma NotListed(s: Runs, now: int, orphans: seq<Run>, id: string, until: int)
    requires ListsExpired(s, now, orphans) && LeasedUntil(s, id, until) && now <= until
    ensures forall run | run in orphans :: run.runId != id
  {
  }

  /** Once a worker has claimed a run or renewed its lease until `u`, no scan up to
      `u` lists the run, whatever workers, reclaimers, the API, crashes and resets
      do, until someone writes its lease again. */
  lemma LeaseProtects(past: seq<Action>, w: nat, env: Env, id: string, more: seq<Action>, orphans: seq<Run>)
    requires Grants(Workers.Run(past), w, id)
    requires Unwritten(Workers.Run(past + [Act(w, env)]), id, more)
    requires var s := Workers.Run(past + [Act(w, env)] + more); s.now <= env.until && ListsExpired(s.store, s.now, orphans)
    ensures forall run | run in orphans :: run.runId != id
  {
    RunSnoc(past, Act(w, env));
    GrantLeases(Workers.Run(past), w, env, id);
    RunContinues(past + [Act(w, env)], more);
    LeaseRuns(Workers.Run(past + [Act(w, env)]), id, env.until, more);
    var s := Workers.Run(past + [Act(w, env)] + more);
    NotListed(s.store, s.now, orphans, id, env.until);
  }

  /** Without a lease, or once it has run out, every scan lists a run that is
      VALIDATING or RUNNING. */
  lemma LapsedListed(s: Runs, now: int, orphans: seq<Run>, id: string)
    requires ListsExpired(s, now, orphans) && id in s.runs
    requires s.runs[id].status == RunValidating || s.runs[id].status == RunRunning
    requires id !in s.lease || s.lease[id] < now
    ensures s.runs[id] in orphans
  {
    assert Expired(s, id, now);
  }

  // ----- what the calls of the poll loop return -----

  /** There is one list of the CREATED runs. */
  lemma {:induction false} CreatedListUnique(s: Runs, a: seq<string>, b: seq<string>)
    requires ListsCreated(s, a) && ListsCreated(s, b)
    ensures a == b
  {
    forall x ensures multiset(a)[x] == multiset(b)[x] {
      OnceListed(a, x);
      OnceListed(b, x);
    }
    forall x, y | x in a && y in a && x != y ensures StrLess(x, y) || StrLess(y, x) {
      StrLessTotal(x, y);
    }
    SortedUnique(StrLess, a, b);
  }

  lemma {:induction false} OnceListed(s: seq<string>, x: string)
    requires forall i, j | 0 <= i < j < |s| :: s[i] != s[j]
    ensures multiset(s)[x] == if x in s then 1 else 0
  {
    if |s| > 0 {
      assert s == [s[0]] + s[1..];
      OnceListed(s[1..], x);
    }
  }

  /** It holds each CREATED run, ascending. */
  lemma CreatedListExactly(s: Runs, queue: seq<string>)
    requires ListsCreated(s, queue)
    ensures forall id :: id in queue <==> id in s.runs && s.runs[id].status == RunCreated
    ensures forall i, j | 0 <= i < j < |queue| :: StrLess(queue[i], queue[j])
  {
    forall i, j | 0 <= i < j < |queue| ensures StrLess(queue[i], queue[j]) {
      StrLessTotal(queue[i], queue[j]);
    }
  }

  /** A scan lists each expired run once. */
  lemma ExpiredListExactly(s: Runs, now: int, orphans: seq<Run>)
    requires forall id | id in s.runs :: s.runs[id].runId == id
    ensures ListsExpired(s, now, orphans) <==>
            && (forall i, j | 0 <= i < j < |orphans| :: orphans[i] != orphans[j])
            && (forall run :: run in orphans <==>
                  && run.runId in s.runs && s.runs[run.runId] == run
                  && (run.status == RunValidating || run.status == RunRunning)
                  && (run.runId !in s.lease || s.lease[run.runId] < now))
  {
  }

  // ----- time and resets -----

  lemma {:induction false} TimePasses(past: seq<Action>, more: seq<Action>)
    ensures Workers.Run(past).now <= Workers.Run(past + more).now
    decreases |more|
  {
    if |more| == 0 {
      assert past + more == past;
    } else {
      var init, last := more[..|more| - 1], more[|more| - 1];
      assert more == init + [last];
      TimePasses(past, init);
      Joined(past, init, [last]);
      RunSnoc(past + init, last);
      NowMoves(Workers.Run(past + init), last);
    }
  }

  lemma NowMoves(s: State, a: Action)
    ensures s.now <= Apply(s, a).now
  {
  }

  /** A reset forgets every run and no lease, so a run created again under an old
      id starts with the old lease. */
  lemma ResetForgets(past: seq<Action>)
    ensures var s, t := Workers.Run(past), Workers.Run(past + [ResetAll]);
            t.store.runs == map[] && t.store.lease == s.store.lease && t.workers == s.workers
  {
    RunSnoc(past, ResetAll);
  }

  /** A worker that lost the claim drops its list exactly when the run is stored and
      no longer CREATED; otherwise it tries the next run. */
  lemma LostClaim(s: Runs, now: int, k: Worker, env: Env)
    requires k.pc.Rechecking?
    ensures var (t, k', entries) := WorkerStep(s, now, k, env);
            && t == s && entries == multiset{} && k'.pc == Idle
            && k'.queue == if k.pc.run.runId in s.runs && s.runs[k.pc.run.runId].status != RunCreated then [] else k.queue
  {
  }
}
