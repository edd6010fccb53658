/** The golden what-if, end to end: a baseline checkout whose timer fired and a
    comparison checkout that completed in time, under every scheduling of both. */
module GoldenComparison {
  import opened Basics
  import opened Contracts
  import opened Ordering
  import opened Oracle
  import opened CheckoutRace
  import opened Alignment
  import opened Divergence
  import opened Diffs

  /** `events` is some ordering of what a successful checkout recorded. */
  ghost predicate Replayed(cfg: Config, actions: seq<Action>, events: seq<Event>) {
    && Run(cfg, actions).main.Done?
    && multiset(events) == multiset(Events(cfg, Run(cfg, actions).shared.trace))
  }

  ghost function LaunchedIn(cfg: Config, actions: seq<Action>): nat
    requires Run(cfg, actions).main.Done?
  {
    Run(cfg, actions).main.launched
  }

  lemma EventHasEntry(cfg: Config, actions: seq<Action>, events: seq<Event>, e: Event) returns (x: Entry)
    requires Replayed(cfg, actions, events) && e in events
    ensures x in Run(cfg, actions).shared.trace && e == Recorded(cfg, x)
  {
    var trace := Run(cfg, actions).shared.trace;
    assert e in multiset(events);
    var i :| 0 <= i < |trace| && Events(cfg, trace)[i] == e;
    x := trace[i];
  }

  lemma EntryHasEvent(cfg: Config, actions: seq<Action>, events: seq<Event>, note: Note) returns (e: Event)
    requires Replayed(cfg, actions, events) && Noted(Run(cfg, actions).shared.trace, note)
    ensures e in events && exists x: Entry :: x.note == note && e == Recorded(cfg, x)
  {
    var trace := Run(cfg, actions).shared.trace;
    var x :| x in trace && x.note == note;
    var i :| 0 <= i < |trace| && trace[i] == x;
    e := Events(cfg, trace)[i];
    assert e in multiset(Events(cfg, trace));
    assert e in events;
  }

  /** Without deduplication every recorded ledger effect was committed. */
  lemma EffectsCommitted(cfg: Config, actions: seq<Action>, x: Entry)
    requires Run(cfg, actions).main.Done? && !cfg.dedup
    requires x in Run(cfg, actions).shared.trace && x.note.LedgerEffect?
    ensures x.note.committed
  {
    var s := Run(cfg, actions);
    RunInv(cfg, actions);
    AttemptsSent(cfg, s);
    NotedIff(s.shared.trace, x.note);
    assert Noted(s.shared.trace, x.note);
    FinishedTrace(cfg, s, x.note);
  }

  /** Without deduplication the status of an event follows from its type and
      operation kind, so corresponding events never differ in status. */
  lemma StatusFollows(cfg: Config, x: Entry)
    requires x.note.LedgerEffect? ==> x.note.committed
    ensures Recorded(cfg, x).status ==
            match Recorded(cfg, x).eventType
            case Start => Running
            case Retry => Running
            case Timeout => TimedOut
            case _ => Succeeded
  {
  }

  lemma {:induction false} NoChanges(b: seq<Event>, c: seq<Event>, pairs: seq<(nat, nat)>)
    requires forall x | 0 <= x < |pairs| :: pairs[x].0 < |b| && pairs[x].1 < |c| && b[pairs[x].0].status == c[pairs[x].1].status
    ensures ChangesOf(b, c, pairs) == []
    decreases |pairs|
  {
    if |pairs| > 0 {
      NoChanges(b, c, pairs[..|pairs| - 1]);
    }
  }

  /** Two replays without deduplication show no change of status, whatever
      happened in either. */
  lemma NoStatusChange(cfgB: Config, actsB: seq<Action>, b: seq<Event>, cfgC: Config, actsC: seq<Action>, c: seq<Event>,
                       r: AlignResult, pairs: seq<(nat, nat)>, lost: seq<nat>, gained: seq<nat>)
    requires Replayed(cfgB, actsB, b) && Replayed(cfgC, actsC, c) && !cfgB.dedup && !cfgC.dedup
    requires Aligned(b, c, r, pairs, lost, gained)
    ensures r.changed == []
  {
    forall x | 0 <= x < |pairs| ensures b[pairs[x].0].status == c[pairs[x].1].status {
      SameStatus(cfgB, actsB, b, cfgC, actsC, c, b[pairs[x].0], c[pairs[x].1]);
    }
    NoChanges(b, c, pairs);
  }

  lemma SameStatus(cfgB: Config, actsB: seq<Action>, b: seq<Event>, cfgC: Config, actsC: seq<Action>, c: seq<Event>,
                   e: Event, f: Event)
    requires Replayed(cfgB, actsB, b) && Replayed(cfgC, actsC, c) && !cfgB.dedup && !cfgC.dedup
    requires e in b && f in c && KeyOf(e) == KeyOf(f)
    ensures e.status == f.status
  {
    var x := EventHasEntry(cfgB, actsB, b, e);
    var y := EventHasEntry(cfgC, actsC, c, f);
    if x.note.LedgerEffect? {
      EffectsCommitted(cfgB, actsB, x);
    }
    if y.note.LedgerEffect? {
      EffectsCommitted(cfgC, actsC, y);
    }
    StatusFollows(cfgB, x);
    StatusFollows(cfgC, y);
  }

  lemma TimeoutNoted(cfg: Config, actions: seq<Action>)
    requires Run(cfg, actions).main.Done?
    ensures Noted(Run(cfg, actions).shared.trace, CheckoutTimedOut) <==> Run(cfg, actions).main.timedOut
  {
    var s := Run(cfg, actions);
    RunInv(cfg, actions);
    AttemptsSent(cfg, s);
    NotedIff(s.shared.trace, CheckoutTimedOut);
    FinishedTrace(cfg, s, CheckoutTimedOut);
  }

  /** A timeout is in the replay exactly when the timer fired. */
  lemma TimeoutShows(cfg: Config, actions: seq<Action>, events: seq<Event>)
    requires Replayed(cfg, actions, events)
    ensures (exists e :: e in events && e.eventType == Timeout) <==> Run(cfg, actions).main.timedOut
  {
    TimeoutNoted(cfg, actions);
    if Run(cfg, actions).main.timedOut {
      var e := EntryHasEvent(cfg, actions, events, CheckoutTimedOut);
    }
    if e :| e in events && e.eventType == Timeout {
      var x := EventHasEntry(cfg, actions, events, e);
      NoteFields(cfg, x);
    }
  }

  lemma PaymentCompletes(cfg: Config, actions: seq<Action>, events: seq<Event>)
    requires Replayed(cfg, actions, events)
    ensures exists e :: e in events && IsPaymentComplete(e)
  {
    var s := Run(cfg, actions);
    RunInv(cfg, actions);
    AttemptsSent(cfg, s);
    NotedIff(s.shared.trace, PaymentCompleted(1));
    FinishedTrace(cfg, s, PaymentCompleted(1));
    var e := EntryHasEvent(cfg, actions, events, PaymentCompleted(1));
  }

  /** A baseline event of a type the comparison lacks is reported as removed. */
  lemma UnmatchedIsRemoved(b: seq<Event>, c: seq<Event>, r: AlignResult,
                           pairs: seq<(nat, nat)>, lost: seq<nat>, gained: seq<nat>, i: nat)
    requires Aligned(b, c, r, pairs, lost, gained) && i < |b|
    requires forall f | f in c :: f.eventType != b[i].eventType
    ensures b[i].eventId in r.removed
  {
    forall j: nat | j < |c| ensures !Corresponds(b, c, i, j) {
      assert c[j] in c;
    }
    assert Lost(b, c)(i);
    var x :| 0 <= x < |lost| && lost[x] == i;
    assert IdsAt(b, lost)[x] == b[i].eventId;
  }

  /** The documented golden result. Whatever the interleaving of either replay
      and however their events are ordered: if the baseline launched the retry
      and the comparison did not, the reported divergence is that payment
      completed before the timeout, naming the baseline's timeout and the
      comparison's first completed payment; nothing is reported as changed; and
      one attempt and one committed effect fewer are counted. */
  lemma GoldenDivergence(cfgB: Config, actsB: seq<Action>, b: seq<Event>, cfgC: Config, actsC: seq<Action>, c: seq<Event>,
                         r: AlignResult, pairs: seq<(nat, nat)>, lost: seq<nat>, gained: seq<nat>,
                         d: Option<FirstDivergence>)
    requires Replayed(cfgB, actsB, b) && Replayed(cfgC, actsC, c) && !cfgB.dedup && !cfgC.dedup
    requires LaunchedIn(cfgB, actsB) == 2 && LaunchedIn(cfgC, actsC) == 1 && cfgC.maxAttempts > 1
    requires Aligned(b, c, r, pairs, lost, gained) && MeaningfulDivergence(b, c, r, d)
    ensures r.changed == []
    ensures d.Some? && d.value.rule == TIMEOUT_RULE
    ensures At(b, d.value.baselineIndex, d.value.baselineId) && b[d.value.baselineIndex].eventType == Timeout
    ensures At(c, d.value.comparisonIndex, d.value.comparisonId) && IsPaymentComplete(c[d.value.comparisonIndex])
  {
    NoStatusChange(cfgB, actsB, b, cfgC, actsC, c, r, pairs, lost, gained);
    RunInv(cfgB, actsB);
    RunInv(cfgC, actsC);
    EveryAttemptReceived(cfgB, Run(cfgB, actsB));
    EveryAttemptReceived(cfgC, Run(cfgC, actsC));
    TimeoutShows(cfgB, actsB, b);
    TimeoutShows(cfgC, actsC, c);
    PaymentCompletes(cfgC, actsC, c);
    var e :| e in b && e.eventType == Timeout;
    var i :| 0 <= i < |b| && b[i] == e;
    UnmatchedIsRemoved(b, c, r, pairs, lost, gained, i);
    assert IsRemovedTimeout(e, Elements(r.removed));
  }

  /** Between those replays the oracle's counts drop by one attempt and one
      committed effect, and its verdict from a match to none. */
  lemma GoldenDelta(cfgB: Config, actsB: seq<Action>, b: seq<Event>, opB: string, rb: OracleResult,
                    cfgC: Config, actsC: seq<Action>, c: seq<Event>, opC: string, rc: OracleResult)
    requires Replayed(cfgB, actsB, b) && Replayed(cfgC, actsC, c) && !cfgB.dedup && !cfgC.dedup
    requires LaunchedIn(cfgB, actsB) == 2 && LaunchedIn(cfgC, actsC) == 1
    requires Chosen(b, opB) && Judges(Group(b, opB), rb) && Chosen(c, opC) && Judges(Group(c, opC), rc)
    ensures rb.matched && !rc.matched
    ensures rb.effects == EffectSummary(2, 2) && rc.effects == EffectSummary(1, 1)
  {
    JudgedReplay(cfgB, actsB, b, opB, rb);
    JudgedReplay(cfgC, actsC, c, opC, rc);
  }

  /** So a diff of those replays reports one attempt and one effect less. */
  lemma GoldenDiffDelta(cfgB: Config, actsB: seq<Action>, b: seq<Event>, opB: string, cfgC: Config, actsC: seq<Action>,
                        c: seq<Event>, opC: string, d: ReplayDiff)
    requires Replayed(cfgB, actsB, b) && Replayed(cfgC, actsC, c) && !cfgB.dedup && !cfgC.dedup
    requires LaunchedIn(cfgB, actsB) == 2 && LaunchedIn(cfgC, actsC) == 1 && d.Valid()
    requires Chosen(b, opB) && Judges(Group(b, opB), d.baselineVerdict)
    requires Chosen(c, opC) && Judges(Group(c, opC), d.comparisonVerdict)
    ensures d.baselineEffects == EffectSummary(2, 2) && d.comparisonEffects == EffectSummary(1, 1)
    ensures d.delta == EffectSummary(-1, -1)
  {
    GoldenDelta(cfgB, actsB, b, opB, d.baselineVerdict, cfgC, actsC, c, opC, d.comparisonVerdict);
    ValidDelta(d);
  }

  /** The composed oracle result for the events in any order. */
  lemma JudgedReplay(cfg: Config, actions: seq<Action>, events: seq<Event>, op: string, r: OracleResult)
    requires Replayed(cfg, actions, events)
    requires Chosen(events, op) && Judges(Group(events, op), r)
    ensures r.matched <==> LaunchedIn(cfg, actions) == 2 && !cfg.dedup
    ensures r.effects == EffectSummary(LaunchedIn(cfg, actions), if cfg.dedup then 1 else LaunchedIn(cfg, actions))
  {
    var s := Run(cfg, actions);
    var trace := Events(cfg, s.shared.trace);
    MatchingPermutation(events, trace);
    assert Chosen(trace, op);
    GroupMonotone(events, trace, op);
    GroupMonotone(trace, events, op);
    CountsPermutation(Group(events, op), Group(trace, op));
    var group := Group(trace, op);
    var evidence := if Duplicated(group)
                    then [FirstId(Timeout, group), FirstId(Retry, group)] + Ids(Sort(SequenceLess, Commits(group)))
                    else Ids(Sort(SequenceLess, group));
    var same := r.(evidence := evidence);
    assert Judges(group, same);
    DuplicateExactly(cfg, actions, s, op, same);
  }
}
