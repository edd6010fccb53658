/** The replay sink rewrites event ids into a per-run namespace. */
module Namespacing {
  import opened Basics
  import opened Contracts
  import opened Emission
  import opened RunTimeline

  const PREFIX := "evt-"

  function Namespace(runId: string, id: string): string {
    PREFIX + runId + "-" + TrimPrefix(id, PREFIX)
  }

  /** What the sink stores for an emitted event. */
  function Stamped(runId: string, e: Event): Event {
    e.(replayRunId := runId,
       eventId := Namespace(runId, e.eventId),
       parentId := if e.parentId == "" then "" else Namespace(runId, e.parentId))
  }

  function StampedAll(runId: string, events: seq<Event>): (r: seq<Event>)
    ensures |r| == |events|
    ensures forall i | 0 <= i < |events| :: r[i] == Stamped(runId, events[i])
  {
    seq(|events|, i requires 0 <= i < |events| => Stamped(runId, events[i]))
  }

  ghost function StampedSet(runId: string, events: set<Event>): set<Event> {
    set e | e in events :: Stamped(runId, e)
  }

  /** `replaySink`: its run id, its recorded events and whether an emit failed. */
  class ReplaySink {
    const runId: string
    var events: seq<Event>
    var failed: bool

    constructor (runId: string)
      ensures this.runId == runId && events == [] && !failed
    {
      this.runId, events, failed := runId, [], false;
    }

    method Emit(event: Event) returns (ok: bool)
      modifies this
      ensures ok <==> Stamped(runId, event).Valid()
      ensures events == if ok then old(events) + [Stamped(runId, event)] else old(events)
      ensures failed <==> old(failed) || !ok
      ensures ok ==>
                && |events| > 0 && events[|events| - 1].replayRunId == runId
                && events[|events| - 1].eventId == "evt-" + runId + "-" + TrimPrefix(event.eventId, "evt-")
                && events[|events| - 1].parentId ==
                   (if event.parentId == "" then "" else "evt-" + runId + "-" + TrimPrefix(event.parentId, "evt-"))
    {
      var e := event.(replayRunId := runId);
      e := e.(eventId := PREFIX + runId + "-" + TrimPrefix(e.eventId, PREFIX));
      if e.parentId != "" {
        e := e.(parentId := PREFIX + runId + "-" + TrimPrefix(e.parentId, PREFIX));
      }
      if !e.Valid() {
        failed := true;
        return false;
      }
      events := events + [e];
      return true;
    }
  }

  // ----- collisions -----

  /** Two ids collide inside a run exactly when they are equal or differ only in
      one of them lacking the prefix. */
  lemma CollisionExact(runId: string, x: string, y: string)
    ensures Namespace(runId, x) == Namespace(runId, y) <==>
            x == y || (x == PREFIX + y && !(PREFIX <= y)) || (y == PREFIX + x && !(PREFIX <= x))
  {
    var head := PREFIX + runId + "-";
    assert Namespace(runId, x)[|head|..] == TrimPrefix(x, PREFIX);
    assert Namespace(runId, y)[|head|..] == TrimPrefix(y, PREFIX);
    assert PREFIX <= x ==> x == PREFIX + x[|PREFIX|..];
    assert PREFIX <= y ==> y == PREFIX + y[|PREFIX|..];
  }

  /** `NextEventID` for a component and the generator's running number. */
  function GeneratedId(component: string, n: nat): string {
    PREFIX + component + "-" + Decimal(n)
  }

  /** The text after the last dash is determined, and so is the text before. */
  lemma LastDash(a: string, x: string, b: string, y: string)
    requires '-' !in x && '-' !in y
    requires a + "-" + x == b + "-" + y
    ensures a == b && x == y
  {
    var s := a + "-" + x;
    assert s[|a|] == '-' && s[|b|] == '-';
    assert forall i | |a| < i < |s| :: s[i] == x[i - |a| - 1] && s[i] != '-';
    assert forall i | |b| < i < |s| :: s[i] == y[i - |b| - 1] && s[i] != '-';
    assert a == s[..|a|] && b == s[..|b|];
    assert x == s[|a| + 1..] && y == s[|b| + 1..];
  }

  /** Ids generated for dash-free components never collide across runs, nor
      inside one. */
  lemma NamespacesDisjoint(run1: string, component1: string, n1: nat, run2: string, component2: string, n2: nat)
    requires '-' !in component1 && '-' !in component2
    requires Namespace(run1, GeneratedId(component1, n1)) == Namespace(run2, GeneratedId(component2, n2))
    ensures run1 == run2 && component1 == component2 && n1 == n2
  {
    var id1, id2 := GeneratedId(component1, n1), GeneratedId(component2, n2);
    assert TrimPrefix(id1, PREFIX) == component1 + "-" + Decimal(n1);
    assert TrimPrefix(id2, PREFIX) == component2 + "-" + Decimal(n2);
    assert Namespace(run1, id1) == (PREFIX + run1 + "-" + component1) + "-" + Decimal(n1);
    assert Namespace(run2, id2) == (PREFIX + run2 + "-" + component2) + "-" + Decimal(n2);
    LastDash(PREFIX + run1 + "-" + component1, Decimal(n1), PREFIX + run2 + "-" + component2, Decimal(n2));
    DecimalInjective(n1, n2);
    LastDash(PREFIX + run1, component1, PREFIX + run2, component2);
    assert run1 == (PREFIX + run1)[|PREFIX|..] && run2 == (PREFIX + run2)[|PREFIX|..];
  }

  // ----- ordering commutes with stamping -----

  /** Every id and parent reference carries the prefix, as generated ids do. */
  ghost predicate Prefixed(events: set<Event>) {
    forall e | e in events :: PREFIX <= e.eventId && (e.parentId == "" || PREFIX <= e.parentId)
  }

  lemma NamespaceOrder(runId: string, x: string, y: string)
    requires PREFIX <= x && PREFIX <= y
    ensures StrLess(Namespace(runId, x), Namespace(runId, y)) == StrLess(x, y)
    ensures Namespace(runId, x) == Namespace(runId, y) ==> x == y
  {
    var head := PREFIX + runId + "-";
    assert x == PREFIX + x[|PREFIX|..] && y == PREFIX + y[|PREFIX|..];
    StrLessPrefix(head, x[|PREFIX|..], y[|PREFIX|..]);
    StrLessPrefix(PREFIX, x[|PREFIX|..], y[|PREFIX|..]);
    CollisionExact(runId, x, y);
  }

  lemma StampedPair(runId: string, a: Event, b: Event)
    requires Prefixed({a, b})
    ensures TieLess(Stamped(runId, a), Stamped(runId, b)) == TieLess(a, b)
    ensures Stamped(runId, a).eventId == Stamped(runId, b).eventId ==> a.eventId == b.eventId
    ensures a.parentId != "" && Stamped(runId, a).parentId == Stamped(runId, b).eventId ==> a.parentId == b.eventId
  {
    assert a in {a, b} && b in {a, b};
    NamespaceOrder(runId, a.eventId, b.eventId);
    if a.parentId != "" {
      NamespaceOrder(runId, a.parentId, b.eventId);
    }
  }

  lemma StampedDistinct(runId: string, events: set<Event>)
    requires Prefixed(events) && DistinctIdSet(events)
    ensures DistinctIdSet(StampedSet(runId, events))
    ensures forall a, b | a in events && b in events && Stamped(runId, a) == Stamped(runId, b) :: a == b
  {
    forall a, b | a in events && b in events && Stamped(runId, a).eventId == Stamped(runId, b).eventId ensures a == b {
      StampedPair(runId, a, b);
    }
  }

  /** Stamping keeps exactly the parent constraints. */
  lemma StampedArcs(runId: string, events: set<Event>, a: Event, b: Event)
    requires Prefixed(events) && a in events && b in events
    ensures (Stamped(runId, a).eventId, Stamped(runId, b).eventId) in ParentArcs(StampedSet(runId, events)) <==>
            (a.eventId, b.eventId) in ParentArcs(events)
  {
    var stamped := StampedSet(runId, events);
    if (a.eventId, b.eventId) in ParentArcs(events) {
      var e :| e in events && e.parentId != "" && (e.parentId, e.eventId) == (a.eventId, b.eventId);
      assert Stamped(runId, e) in stamped;
      assert Stamped(runId, e).parentId != "";
    }
    if (Stamped(runId, a).eventId, Stamped(runId, b).eventId) in ParentArcs(stamped) {
      var s :| s in stamped && s.parentId != "" &&
               (s.parentId, s.eventId) == (Stamped(runId, a).eventId, Stamped(runId, b).eventId);
      var e :| e in events && Stamped(runId, e) == s;
      StampedPair(runId, e, a);
      StampedPair(runId, e, b);
    }
  }

  lemma StampedReady(runId: string, all: set<Event>, live: set<Event>)
    requires Prefixed(all) && live <= all
    ensures Ready(StampedSet(runId, live), ParentArcs(StampedSet(runId, all))) ==
            StampedSet(runId, Ready(live, ParentArcs(all)))
  {
    forall e | e in live
      ensures Stamped(runId, e) in Ready(StampedSet(runId, live), ParentArcs(StampedSet(runId, all))) <==>
              e in Ready(live, ParentArcs(all))
    {
      forall p | p in live
        ensures (Stamped(runId, p).eventId, Stamped(runId, e).eventId) in ParentArcs(StampedSet(runId, all)) <==>
                (p.eventId, e.eventId) in ParentArcs(all)
      {
        StampedArcs(runId, all, p, e);
      }
      if Stamped(runId, e) in Ready(StampedSet(runId, live), ParentArcs(StampedSet(runId, all))) {
        forall p | p in live ensures (p.eventId, e.eventId) !in ParentArcs(all) {
          assert Stamped(runId, p) in StampedSet(runId, live);
        }
      }
    }
    forall s | s in StampedSet(runId, Ready(live, ParentArcs(all)))
      ensures s in Ready(StampedSet(runId, live), ParentArcs(StampedSet(runId, all)))
    {
      var e :| e in Ready(live, ParentArcs(all)) && s == Stamped(runId, e);
    }
    forall s | s in Ready(StampedSet(runId, live), ParentArcs(StampedSet(runId, all)))
      ensures s in StampedSet(runId, Ready(live, ParentArcs(all)))
    {
      var e :| e in live && s == Stamped(runId, e);
      assert Stamped(runId, e) in Ready(StampedSet(runId, live), ParentArcs(StampedSet(runId, all)));
    }
  }

  lemma StampedPick(runId: string, eligible: set<Event>, e: Event)
    requires Prefixed(eligible) && CanonicalPick(eligible, e)
    ensures CanonicalPick(StampedSet(runId, eligible), Stamped(runId, e))
  {
    var stamped := StampedSet(runId, eligible);
    forall s | InWindow(stamped, s) ensures !TieLess(s, Stamped(runId, e)) {
      var c :| c in eligible && s == Stamped(runId, c);
      forall x | x in eligible ensures c.occurredAt <= x.occurredAt + WINDOW {
        assert Stamped(runId, x) in stamped;
      }
      assert InWindow(eligible, c);
      StampedPair(runId, c, e);
    }
    assert InWindow(stamped, Stamped(runId, e));
  }

  lemma StampedWithout(runId: string, all: set<Event>, live: set<Event>, e: Event)
    requires Prefixed(all) && DistinctIdSet(all) && live <= all && e in live
    ensures StampedSet(runId, live - {e}) == StampedSet(runId, live) - {Stamped(runId, e)}
  {
    StampedDistinct(runId, all);
  }

  lemma StampedAllCons(runId: string, order: seq<Event>)
    requires |order| > 0
    ensures StampedAll(runId, order) == [Stamped(runId, order[0])] + StampedAll(runId, order[1..])
  {
  }

  lemma {:induction false} StampedTimeline(runId: string, all: set<Event>, live: set<Event>, order: seq<Event>)
    requires Prefixed(all) && DistinctIdSet(all) && live <= all
    requires Timeline(Canonical(), live, ParentArcs(all), order)
    ensures Timeline(Canonical(), StampedSet(runId, live), ParentArcs(StampedSet(runId, all)), StampedAll(runId, order))
    decreases |order|
  {
    if |order| > 0 {
      StampedReady(runId, all, live);
      StampedPick(runId, Ready(live, ParentArcs(all)), order[0]);
      StampedTimeline(runId, all, live - {order[0]}, order[1..]);
      StampedWithout(runId, all, live, order[0]);
      StampedAllCons(runId, order);
      TimelineCons(Canonical(), StampedSet(runId, live), ParentArcs(StampedSet(runId, all)),
                   Stamped(runId, order[0]), StampedAll(runId, order[1..]));
    }
  }

  /** Stamping commutes with ordering: the only canonical timeline of the
      stamped events is the stamped canonical timeline. */
  lemma StampingCommutes(runId: string, events: set<Event>, order: seq<Event>, stamped: seq<Event>)
    requires Prefixed(events) && DistinctIdSet(events)
    requires Timeline(Canonical(), events, ParentArcs(events), order)
    requires Timeline(Canonical(), StampedSet(runId, events), ParentArcs(StampedSet(runId, events)), stamped)
    ensures stamped == StampedAll(runId, order)
  {
    StampedTimeline(runId, events, events, order);
    StampedDistinct(runId, events);
    CanonicalUnique(StampedSet(runId, events), ParentArcs(StampedSet(runId, events)), stamped, StampedAll(runId, order));
  }
}
