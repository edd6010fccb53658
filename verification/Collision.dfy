/** A replay beside the checkout whose execution id it shares: every replay
    builds a new id generator with the default seed, and so does the gateway, so
    both start with checkout 8271. */
module Collision {
  import opened Basics
  import opened Contracts
  import opened CycleCheck
  import opened Emission
  import opened Ordering
  import opened RunTimeline
  import opened Oracle
  import opened Detection
  import opened Convergence
  import opened Namespacing
  import opened Lineage
  import opened Reporting
  import opened EndToEnd
  import Race = CheckoutRace
  import Capture

  const DEFAULT_SEED := 8271

  // ----- identity -----

  /** `Checkout` without a requested id: the first of a new generator. */
  method FirstCheckoutId() returns (checkoutId: string)
    ensures checkoutId == Decimal(DEFAULT_SEED)
  {
    var ids := new Capture.IdGenerator(DEFAULT_SEED);
    var n := ids.NextCheckoutSeq();
    checkoutId := Decimal(n);
  }

  /** The identifiers the gateway derives from a checkout id. */
  predicate Identified(cfg: Race.Config, checkoutId: string) {
    && cfg.executionId == "exec-original-" + checkoutId
    && cfg.traceId == "trace-" + checkoutId
    && cfg.logicalOp == "checkout-" + checkoutId
  }

  // ----- a checkout and a replay under one identity -----

  datatype Replay = Replay(runId: string, cfg: Race.Config, choices: seq<Race.Action>)

  /** What the worker records of a replay, in this order. */
  ghost function Replayed(r: Replay): seq<Event> {
    StampedAll(r.runId, Captured(r.cfg, r.choices))
  }

  ghost function ReplayEvents(r: Replay): set<Event> {
    StampedSet(r.runId, Elements(Captured(r.cfg, r.choices)))
  }

  /** A successful replay that carries the identity of the checkout. */
  ghost predicate Replays(cfg: Race.Config, r: Replay) {
    && r.cfg.executionId == cfg.executionId && r.cfg.traceId == cfg.traceId && r.cfg.logicalOp == cfg.logicalOp
    && Race.Run(r.cfg, r.choices).main.Done?
    && DistinctIds(Captured(r.cfg, r.choices)) && Prefixed(Elements(Captured(r.cfg, r.choices)))
  }

  /** A successful checkout and a replay of its identity whose events are storable
      beside each other. */
  ghost predicate Colliding(cfg: Race.Config, choices: seq<Race.Action>, r: Replay) {
    && Replays(cfg, r) && Race.Run(cfg, choices).main.Done? && DistinctIds(Captured(cfg, choices))
    && var own, extra := Elements(Captured(cfg, choices)), ReplayEvents(r);
       own !! extra && Storable(cfg.executionId, own + extra)
  }

  // ----- parents -----

  ghost function IdSet(events: set<Event>): set<string> {
    set e | e in events :: e.eventId
  }

  lemma LeveledUnion(a: set<Event>, la: string -> int, b: set<Event>, lb: string -> int)
    requires Leveled(a, la) && Leveled(b, lb) && IdSet(a) !! IdSet(b)
    ensures ParentsSettled(a + b)
  {
    var level := id => if id in IdSet(a) then la(id) else lb(id);
    forall e | e in a + b && e.parentId != ""
      ensures level(e.parentId) < level(e.eventId) && exists p :: p in a + b && p.eventId == e.parentId
    {
      if e in a {
        var p :| p in a && p.eventId == e.parentId;
        assert p.eventId in IdSet(a) && e.eventId in IdSet(a) && p in a + b;
      } else {
        var p :| p in b && p.eventId == e.parentId;
        assert p.eventId in IdSet(b) && e.eventId in IdSet(b) && p in a + b;
      }
    }
    LeveledSettled(a + b, level);
  }

  /** The id under which a stamped event was captured. */
  function Unstamped(runId: string, id: string): string {
    var head := PREFIX + runId + "-";
    if head <= id then PREFIX + id[|head|..] else id
  }

  lemma UnstampedExact(runId: string, id: string)
    requires PREFIX <= id
    ensures Unstamped(runId, Namespace(runId, id)) == id
  {
    var head := PREFIX + runId + "-";
    assert Namespace(runId, id) == head + id[|PREFIX|..];
    assert Namespace(runId, id)[|head|..] == id[|PREFIX|..];
  }

  lemma StampedLeveled(runId: string, events: set<Event>, level: string -> int)
    requires Leveled(events, level) && Prefixed(events)
    ensures Leveled(StampedSet(runId, events), id => level(Unstamped(runId, id)))
  {
    forall s | s in StampedSet(runId, events) && s.parentId != ""
      ensures level(Unstamped(runId, s.parentId)) < level(Unstamped(runId, s.eventId))
      ensures exists p :: p in StampedSet(runId, events) && p.eventId == s.parentId
    {
      var e :| e in events && s == Stamped(runId, e);
      UnstampedExact(runId, e.eventId);
      UnstampedExact(runId, e.parentId);
      var p :| p in events && p.eventId == e.parentId;
      assert Stamped(runId, p) in StampedSet(runId, events);
    }
  }

  lemma StorableIds(x: string, own: set<Event>, extra: set<Event>)
    requires Storable(x, own + extra) && own !! extra
    ensures IdSet(own) !! IdSet(extra)
  {
    forall e, f | e in own && f in extra ensures e.eventId != f.eventId {
      assert e in own + extra && f in own + extra;
    }
  }

  lemma CollisionSettled(cfg: Race.Config, choices: seq<Race.Action>, r: Replay)
    requires Colliding(cfg, choices, r)
    ensures ParentsSettled(Elements(Captured(cfg, choices)) + ReplayEvents(r))
  {
    var level := WholeLeveled(cfg, choices);
    var replayLevel := WholeLeveled(r.cfg, r.choices);
    StampedLeveled(r.runId, Elements(Captured(r.cfg, r.choices)), replayLevel);
    StorableIds(cfg.executionId, Elements(Captured(cfg, choices)), ReplayEvents(r));
    LeveledUnion(Elements(Captured(cfg, choices)), level, ReplayEvents(r),
                 id => replayLevel(Unstamped(r.runId, id)));
  }

  lemma StampedElements(runId: string, events: seq<Event>)
    ensures Elements(StampedAll(runId, events)) == StampedSet(runId, Elements(events))
  {
    var all := StampedAll(runId, events);
    forall s ensures s in Elements(all) <==> s in StampedSet(runId, Elements(events)) {
      if s in StampedSet(runId, Elements(events)) {
        var e :| e in Elements(events) && s == Stamped(runId, e);
        StampedMember(runId, events, e);
      }
      if s in all {
        var i :| 0 <= i < |all| && all[i] == s;
        assert events[i] in Elements(events);
      }
    }
  }

  lemma PrefixedPart(events: seq<Event>, k: nat)
    requires Prefixed(Elements(events)) && k <= |events|
    ensures Prefixed(Elements(events[..k]))
  {
    assert forall e | e in Elements(events[..k]) :: e in Elements(events);
  }

  /** Recorded in order, the events of a replay follow their parents. */
  lemma ReplayLeveled(r: Replay, k: nat) returns (level: string -> int)
    requires DistinctIds(Captured(r.cfg, r.choices)) && Prefixed(Elements(Captured(r.cfg, r.choices)))
    requires k <= |Captured(r.cfg, r.choices)|
    ensures Leveled(Elements(Replayed(r)[..k]), level)
  {
    var captured := CapturedLeveled(r.cfg, r.choices);
    var part := Captured(r.cfg, r.choices)[..k];
    assert Leveled(Beginning(r.cfg, r.choices, k), captured);
    PrefixedPart(Captured(r.cfg, r.choices), k);
    StampedLeveled(r.runId, Elements(part), captured);
    level := id => captured(Unstamped(r.runId, id));
    assert Replayed(r)[..k] == StampedAll(r.runId, part);
    StampedElements(r.runId, part);
  }

  lemma LeveledParent(all: set<Event>, level: string -> int, e: Event)
    requires Leveled(all, level) && e in all && e.parentId != ""
    ensures exists p :: p in all && p != e && p.eventId == e.parentId
  {
    var p :| p in all && p.eventId == e.parentId;
  }

  /** So, recorded in order, they all fit in. */
  lemma ReplayFitsIn(cfg: Race.Config, choices: seq<Race.Action>, r: Replay)
    requires Colliding(cfg, choices, r)
    ensures AllFitIn(Elements(Captured(cfg, choices)), Prefixes(Replayed(r)))
  {
    var own, recorded := Elements(Captured(cfg, choices)), Replayed(r);
    StampedElements(r.runId, Captured(r.cfg, r.choices));
    forall part, e | part in Prefixes(recorded) && e in part ensures FitsIn(own, part, e) {
      var k :| 0 <= k <= |recorded| && part == Elements(recorded[..k]);
      assert e in Elements(recorded);
      BothTraces(cfg, choices, r, e);
      if e.parentId != "" {
        var level := ReplayLeveled(r, k);
        LeveledParent(part, level, e);
      }
    }
  }

  lemma BothTraces(cfg: Race.Config, choices: seq<Race.Action>, r: Replay, e: Event)
    requires Colliding(cfg, choices, r) && e in ReplayEvents(r)
    ensures forall f | f in Elements(Captured(cfg, choices)) :: f.traceId == e.traceId
  {
    BothIdentity(cfg, choices, r, e);
    OneOperation(cfg, choices);
  }

  /** Out of order they would not: a replay's checkout start names the replay's
      own gateway start. */
  lemma ReplayMisfits(cfg: Race.Config, choices: seq<Race.Action>, r: Replay)
    requires Colliding(cfg, choices, r)
    ensures !AllFitIn(Elements(Captured(cfg, choices)), Subsets(ReplayEvents(r)))
  {
    var own, extra := Elements(Captured(cfg, choices)), ReplayEvents(r);
    StorableIds(cfg.executionId, own, extra);
    var parent, child := ParentAndChild(r.cfg, r.choices);
    var stamped := Stamped(r.runId, child);
    assert stamped in extra && Stamped(r.runId, parent) in extra;
    assert Stamped(r.runId, parent).eventId == stamped.parentId && stamped.parentId in IdSet(extra);
    forall p | p in own + {stamped} && p != stamped ensures p.eventId != stamped.parentId {
      assert p.eventId in IdSet(own);
    }
    assert !FitsIn(own, {stamped}, stamped);
    assert {stamped} in Subsets(extra);
    assert !PartFitsIn(own, {stamped});
  }

  lemma ParentAndChild(cfg: Race.Config, choices: seq<Race.Action>) returns (parent: Event, child: Event)
    requires Race.Run(cfg, choices).main.Done? && Prefixed(Elements(Captured(cfg, choices)))
    ensures parent in Captured(cfg, choices) && child in Captured(cfg, choices)
    ensures child.parentId == parent.eventId && child.parentId != ""
  {
    var trace := Race.Run(cfg, choices).shared.trace;
    var x, y := Starts(cfg, choices);
    EventOf(cfg, trace, x);
    EventOf(cfg, trace, y);
    parent, child := Race.Recorded(cfg, y), Race.Recorded(cfg, x);
    assert parent in Elements(Captured(cfg, choices));
  }

  /** A successful checkout has recorded both starts. */
  lemma Starts(cfg: Race.Config, choices: seq<Race.Action>) returns (x: Race.Entry, y: Race.Entry)
    requires Race.Run(cfg, choices).main.Done?
    ensures x in Race.Run(cfg, choices).shared.trace && y in Race.Run(cfg, choices).shared.trace
    ensures x.parentId == y.stamp.eventId
  {
    var shared := Race.Run(cfg, choices).shared;
    CheckoutStartNoted(cfg, choices);
    x :| x in shared.trace && x.note == Race.CheckoutStarted;
    RunLineage(cfg, choices);
    WholeRooted(shared);
    assert Rooted(shared.trace, x);
    y :| y in shared.trace && y.note == Race.GatewayStarted && y.stamp.eventId == x.parentId;
  }

  lemma CheckoutStartNoted(cfg: Race.Config, choices: seq<Race.Action>)
    requires Race.Run(cfg, choices).main.Done?
    ensures Race.Noted(Race.Run(cfg, choices).shared.trace, Race.CheckoutStarted)
  {
    Race.RunInv(cfg, choices);
    Race.FinishedTrace(cfg, Race.Run(cfg, choices), Race.CheckoutStarted);
    Race.NotedIff(Race.Run(cfg, choices).shared.trace, Race.CheckoutStarted);
  }

  // ----- the oracle on both together -----

  lemma {:induction false} StampedCommits(runId: string, events: seq<Event>)
    ensures |Commits(StampedAll(runId, events))| == |Commits(events)|
    decreases |events|
  {
    if |events| > 0 {
      StampedAllCons(runId, events);
      StampedCommits(runId, events[1..]);
    }
  }

  /** Both lists one after the other. */
  ghost function Both(cfg: Race.Config, choices: seq<Race.Action>, r: Replay): seq<Event>
  {
    Captured(cfg, choices) + StampedAll(r.runId, Captured(r.cfg, r.choices))
  }

  lemma FinishedCommits(cfg: Race.Config, choices: seq<Race.Action>)
    requires Race.Run(cfg, choices).main.Done?
    ensures |Commits(Captured(cfg, choices))| >= 1
    ensures Has(Captured(cfg, choices), Retry) <==> Retried(cfg, choices)
    ensures Retried(cfg, choices) ==> Has(Captured(cfg, choices), Timeout)
    ensures Retried(cfg, choices) ==> exists e :: e in Captured(cfg, choices) && e.attempt >= 2
  {
    var s := Race.Run(cfg, choices);
    Race.RunInv(cfg, choices);
    Race.CommitsOfTrace(cfg, s);
    Race.EffectsWhenFinished(cfg, s);
    Race.EveryAttemptReceived(cfg, s);
    Race.SymptomsOfTrace(cfg, s);
  }

  lemma StampedMember(runId: string, events: seq<Event>, e: Event)
    requires e in events
    ensures Stamped(runId, e) in StampedAll(runId, events)
  {
    var i :| 0 <= i < |events| && events[i] == e;
    assert StampedAll(runId, events)[i] == Stamped(runId, e);
  }

  lemma StampedShows(runId: string, events: seq<Event>)
    requires Has(events, Retry) && Has(events, Timeout) && exists e :: e in events && e.attempt >= 2
    ensures var all := StampedAll(runId, events);
            Has(all, Retry) && Has(all, Timeout) && exists e :: e in all && e.attempt >= 2
  {
    var r: Event :| r in events && r.eventType == Retry;
    StampedMember(runId, events, r);
    var t: Event :| t in events && t.eventType == Timeout;
    StampedMember(runId, events, t);
    var a: Event :| a in events && a.attempt >= 2;
    StampedMember(runId, events, a);
  }

  lemma BothDuplicated(cfg: Race.Config, choices: seq<Race.Action>, r: Replay)
    requires Race.Run(cfg, choices).main.Done? && Race.Run(r.cfg, r.choices).main.Done?
    requires Retried(cfg, choices) || Retried(r.cfg, r.choices)
    ensures Duplicated(Both(cfg, choices, r))
  {
    var a, b := Captured(cfg, choices), StampedAll(r.runId, Captured(r.cfg, r.choices));
    FinishedCommits(cfg, choices);
    FinishedCommits(r.cfg, r.choices);
    StampedCommits(r.runId, Captured(r.cfg, r.choices));
    FilterAppend(IsCommitted(), a, b);
    if Retried(cfg, choices) {
      ShowsLeft(a, b);
    } else {
      StampedShows(r.runId, Captured(r.cfg, r.choices));
      ShowsRight(a, b);
    }
  }

  ghost predicate Shows(events: seq<Event>) {
    Has(events, Retry) && Has(events, Timeout) && exists e :: e in events && e.attempt >= 2
  }

  lemma ShowsLeft(a: seq<Event>, b: seq<Event>)
    requires Shows(a)
    ensures Shows(a + b)
  {
    assert forall e | e in a :: e in a + b;
  }

  lemma ShowsRight(a: seq<Event>, b: seq<Event>)
    requires Shows(b)
    ensures Shows(a + b)
  {
    assert forall e | e in b :: e in a + b;
  }

  lemma BothListed(cfg: Race.Config, choices: seq<Race.Action>, r: Replay)
    requires Colliding(cfg, choices, r)
    ensures Enumerates(Both(cfg, choices, r),
                       Elements(Captured(cfg, choices)) + ReplayEvents(r))
  {
    var a, c := Captured(cfg, choices), Captured(r.cfg, r.choices);
    var b := StampedAll(r.runId, c);
    StampedListed(r.runId, c);
    assert Elements(b) == ReplayEvents(r);
    forall i, j | 0 <= i < |a| && 0 <= j < |b| ensures a[i] != b[j] {
      assert a[i] in Elements(a) && b[j] in Elements(b);
    }
    forall e ensures e in a + b <==> e in Elements(a) + Elements(b) {
    }
  }

  lemma StampedListed(runId: string, events: seq<Event>)
    requires DistinctIds(events) && Prefixed(Elements(events))
    ensures Distinct(StampedAll(runId, events))
    ensures Elements(StampedAll(runId, events)) == StampedSet(runId, Elements(events))
  {
    var all := StampedAll(runId, events);
    forall i, j | 0 <= i < j < |events| ensures all[i] != all[j] {
      assert events[i] in Elements(events) && events[j] in Elements(events);
      NamespaceOrder(runId, events[i].eventId, events[j].eventId);
    }
    StampedElements(runId, events);
  }

  lemma StampedKeeps(runId: string, events: set<Event>, s: Event, x: string, trace: string, op: string)
    requires s in StampedSet(runId, events)
    requires forall e | e in events :: e.executionId == x && e.traceId == trace && e.logicalOp == op
    ensures s.executionId == x && s.traceId == trace && s.logicalOp == op
    ensures exists e :: e in events && e.eventType == s.eventType
  {
    var e :| e in events && s == Stamped(runId, e);
    assert e in events && e.eventType == s.eventType;
  }

  /** All events of both carry the same identity. */
  lemma BothIdentity(cfg: Race.Config, choices: seq<Race.Action>, r: Replay, e: Event)
    requires Colliding(cfg, choices, r)
    requires e in Elements(Captured(cfg, choices)) + ReplayEvents(r)
    ensures e.executionId == cfg.executionId && e.traceId == cfg.traceId && e.logicalOp == cfg.logicalOp
    ensures e.eventType == Retry ==> Retried(cfg, choices) || Retried(r.cfg, r.choices)
  {
    OneOperation(cfg, choices);
    OneOperation(r.cfg, r.choices);
    FinishedCommits(cfg, choices);
    FinishedCommits(r.cfg, r.choices);
    if e in ReplayEvents(r) {
      StampedKeeps(r.runId, Elements(Captured(r.cfg, r.choices)), e, cfg.executionId, cfg.traceId, cfg.logicalOp);
    }
  }

  /** If either retried, the two together fail. */
  lemma CollisionFails(cfg: Race.Config, choices: seq<Race.Action>, r: Replay)
    requires Colliding(cfg, choices, r)
    requires Retried(cfg, choices) || Retried(r.cfg, r.choices)
    ensures Failing(cfg.executionId, Elements(Captured(cfg, choices)) + ReplayEvents(r))
  {
    var all := Elements(Captured(cfg, choices)) + ReplayEvents(r);
    var both := Both(cfg, choices, r);
    BothListed(cfg, choices, r);
    BothDuplicated(cfg, choices, r);
    forall e | e in all ensures e.executionId == cfg.executionId && e.traceId == cfg.traceId && e.logicalOp == cfg.logicalOp {
      BothIdentity(cfg, choices, r, e);
    }
    AllOfOperation(both, cfg.logicalOp);
    DuplicateFires(both, cfg.logicalOp);
    CollisionSettled(cfg, choices, r);
  }

  lemma AllOfOperation(events: seq<Event>, op: string)
    requires forall e | e in events :: e.logicalOp == op
    ensures Group(events, op) == events
  {
    FilterAll(OfOperation(op), events);
  }

  lemma FiringShowsRetry(listing: seq<Event>)
    requires Fires(listing)
    ensures Has(listing, Retry)
  {
    var id :| id in LogicalIds(listing) && Matches(listing, id);
    var e: Event :| e in Group(listing, id) && e.eventType == Retry;
    assert e in listing;
  }

  lemma ReplayGrows(cfg: Race.Config, choices: seq<Race.Action>, r: Replay)
    requires Colliding(cfg, choices, r)
    ensures Growing(cfg.executionId, Elements(Captured(cfg, choices)), Subsets(ReplayEvents(r)))
  {
    SubsetsGrow(cfg.executionId, Elements(Captured(cfg, choices)), ReplayEvents(r));
  }

  /** What the checkout's own events amount to. */
  lemma CheckoutAlone(cfg: Race.Config, choices: seq<Race.Action>)
    requires Race.Run(cfg, choices).main.Done? && DistinctIds(Captured(cfg, choices))
    ensures Failing(cfg.executionId, Elements(Captured(cfg, choices))) <==> Retried(cfg, choices) && !cfg.dedup
    ensures SomeFails(cfg.executionId, Elements(Captured(cfg, choices)), NOTHING) <==> Retried(cfg, choices) && !cfg.dedup
  {
    var x, own := cfg.executionId, Elements(Captured(cfg, choices));
    FinishedNotEmpty(cfg, choices);
    if Retried(cfg, choices) && !cfg.dedup {
      RetriedCheckoutFails(cfg, choices);
    } else {
      CheckoutNeverFails(cfg, choices);
    }
    OwnFails(x, own);
  }

  lemma OwnFails(x: string, own: set<Event>)
    requires own != {}
    ensures Failing(x, own) ==> SomeFails(x, own, NOTHING)
  {
    assert own * own == own && own - own == {};
  }

  /** The order is what protects a failing checkout: were the replay's events
      recorded in any order, no checkout would be sure to be reported. */
  lemma OrderMatters(cfg: Race.Config, choices: seq<Race.Action>, r: Replay)
    requires Colliding(cfg, choices, r)
    ensures !AlwaysReported(cfg.executionId, Elements(Captured(cfg, choices)),
                            Subsets(ReplayEvents(r)))
  {
    ReplayGrows(cfg, choices, r);
    ReplayMisfits(cfg, choices, r);
    AlwaysByFit(cfg.executionId, Elements(Captured(cfg, choices)), Subsets(ReplayEvents(r)));
  }
}
