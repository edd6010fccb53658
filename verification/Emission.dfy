/** The timeline policy: which orders of the events are allowed, and which one
    of them is canonical. */
module Emission {
  import opened Basics
  import opened Contracts
  import opened CycleCheck

  /** Ties are broken by component, instance, sequence and event id. */
  predicate TieLess(a: Event, b: Event) {
    if a.component != b.component then StrLess(a.component, b.component)
    else if a.instance != b.instance then StrLess(a.instance, b.instance)
    else if a.sequence != b.sequence then a.sequence < b.sequence
    else StrLess(a.eventId, b.eventId)
  }

  lemma TieLessTotal(a: Event, b: Event)
    ensures !(TieLess(a, b) && TieLess(b, a))
    ensures a.eventId != b.eventId ==> TieLess(a, b) || TieLess(b, a)
  {
    StrLessTotal(a.component, b.component);
    StrLessTotal(a.instance, b.instance);
    StrLessTotal(a.eventId, b.eventId);
  }

  lemma TieLessTransitive(a: Event, b: Event, c: Event)
    requires !TieLess(b, a) && !TieLess(c, b)
    ensures !TieLess(c, a)
  {
    StrLessNotBack(a.component, b.component, c.component);
    StrLessNotBack(a.instance, b.instance, c.instance);
    StrLessNotBack(a.eventId, b.eventId, c.eventId);
  }

  lemma StrLessNotBack(a: string, b: string, c: string)
    ensures !StrLess(b, a) && !StrLess(c, b) ==> !StrLess(c, a)
    ensures !StrLess(b, a) && !StrLess(c, b) && a == c ==> a == b
    ensures StrLess(a, b) ==> !StrLess(b, a) && a != b
    ensures a != b && !StrLess(b, a) ==> StrLess(a, b)
    ensures b != c && !StrLess(c, b) ==> StrLess(b, c)
    ensures a != c && !StrLess(c, a) ==> StrLess(a, c)
  {
    StrLessTotal(a, b);
    StrLessTotal(b, c);
    StrLessTotal(a, c);
    if StrLess(a, b) && StrLess(b, c) {
      StrLessTransitive(a, b, c);
    }
  }

  // ----- one pick -----

  /** Timestamps within 5 ms count as tied. */
  const WINDOW := 5_000_000

  /** `e` is within the tie window of every event it competes with, the
      earliest one included. */
  ghost predicate InWindow(eligible: set<Event>, e: Event) {
    e in eligible && forall x | x in eligible :: e.occurredAt <= x.occurredAt + WINDOW
  }

  /** The pick the policy asks for: least by tie-break within the window. */
  ghost predicate CanonicalPick(eligible: set<Event>, e: Event) {
    InWindow(eligible, e) && forall c | InWindow(eligible, c) :: !TieLess(c, e)
  }

  /** The pick on fields: within 5 ms of every eligible event, and among those
      that are it has the least component, at one component the least instance,
      then the smallest sequence number, then the least id. */
  lemma CanonicalOnFields(eligible: set<Event>, e: Event, c: Event)
    requires CanonicalPick(eligible, e)
    requires c in eligible && forall x | x in eligible :: c.occurredAt <= x.occurredAt + 5_000_000
    ensures e in eligible && forall x | x in eligible :: e.occurredAt <= x.occurredAt + 5_000_000
    ensures !StrLess(c.component, e.component)
    ensures c.component == e.component ==> !StrLess(c.instance, e.instance)
    ensures c.component == e.component && c.instance == e.instance ==> e.sequence <= c.sequence
    ensures c.component == e.component && c.instance == e.instance && c.sequence == e.sequence ==>
              !StrLess(c.eventId, e.eventId)
  {
    StrLessTotal(c.component, e.component);
    StrLessTotal(c.instance, e.instance);
    assert InWindow(eligible, c);
  }

  /** `it` lists the set, in some iteration order. */
  ghost predicate Enumerates<T(!new)>(it: seq<T>, s: set<T>) {
    Distinct(it) && forall x :: x in it <==> x in s
  }

  lemma {:induction false} DistinctCount<T(!new)>(s: seq<T>, x: T)
    requires Distinct(s)
    ensures multiset(s)[x] == if x in s then 1 else 0
  {
    if |s| > 0 {
      assert s == [s[0]] + s[1..];
      DistinctCount(s[1..], x);
    }
  }

  /** Two listings of one set differ in order only. */
  lemma EnumerationsAgree<T(!new)>(a: seq<T>, b: seq<T>, s: set<T>)
    requires Enumerates(a, s) && Enumerates(b, s)
    ensures multiset(a) == multiset(b)
  {
    forall x ensures multiset(a)[x] == multiset(b)[x] {
      DistinctCount(a, x);
      DistinctCount(b, x);
      assert x in a <==> x in b;
    }
  }

  /** A rearrangement lists the same set. */
  lemma RearrangedEnumerates<T(!new)>(a: seq<T>, b: seq<T>, s: set<T>)
    requires Enumerates(a, s) && multiset(b) == multiset(a)
    ensures Enumerates(b, s)
  {
    forall x ensures x in b <==> x in s {
      assert x in b <==> x in multiset(b);
      assert x in a <==> x in multiset(a);
    }
    forall i, j | 0 <= i < j < |b| ensures b[i] != b[j] {
      if b[i] == b[j] {
        DistinctCount(a, b[i]);
        TwiceCounted(b, i, j);
      }
    }
  }

  lemma TwiceCounted<T>(s: seq<T>, i: nat, j: nat)
    requires i < j < |s| && s[i] == s[j]
    ensures multiset(s)[s[i]] >= 2
  {
    assert s == s[..i] + [s[i]] + s[i + 1..j] + [s[j]] + s[j + 1..];
  }

  /** The running `earliest` of the scan, where Go's zero time doubles as "not
      yet set". */
  function Scan(it: seq<Event>): int {
    if |it| == 0 then 0 else
    var earliest, next := Scan(it[..|it| - 1]), it[|it| - 1].occurredAt;
    if earliest == 0 || next < earliest then next else earliest
  }

  /** `e` is least by tie-break among the events up to the cutoff. */
  ghost predicate LeastUpTo(eligible: set<Event>, cutoff: int, e: Event) {
    && e in eligible && e.occurredAt <= cutoff
    && forall c | c in eligible && c.occurredAt <= cutoff :: !TieLess(c, e)
  }

  /** A pick the code can make, for some iteration order of its map. */
  ghost predicate PossiblePick(eligible: set<Event>, e: Event) {
    exists it :: Enumerates(it, eligible) && LeastUpTo(eligible, Scan(it) + WINDOW, e)
  }

  ghost predicate DistinctIdSet(events: set<Event>) {
    forall x, y | x in events && y in events && x.eventId == y.eventId :: x == y
  }

  // ----- emission of a whole order -----

  /** Live events that no hard constraint holds back. */
  ghost function Ready(live: set<Event>, arcs: set<Arc>): set<Event> {
    set e | e in live && forall p | p in live :: (p.eventId, e.eventId) !in arcs
  }

  /** Emitting `order` one pick at a time turns `live` into `rest`. */
  ghost predicate Emits(pick: (set<Event>, Event) -> bool, live: set<Event>, arcs: set<Arc>,
                        order: seq<Event>, rest: set<Event>)
    decreases |order|
  {
    if |order| == 0 then live == rest else
    && order[0] in Ready(live, arcs)
    && pick(Ready(live, arcs), order[0])
    && Emits(pick, live - {order[0]}, arcs, order[1..], rest)
  }

  /** A complete timeline of `events`: every pick allowed, nothing left. */
  ghost predicate Timeline(pick: (set<Event>, Event) -> bool, events: set<Event>, arcs: set<Arc>, order: seq<Event>) {
    Emits(pick, events, arcs, order, {})
  }

  ghost function Canonical(): (set<Event>, Event) -> bool {
    (s, e) => CanonicalPick(s, e)
  }

  ghost function Possible(): (set<Event>, Event) -> bool {
    (s, e) => PossiblePick(s, e)
  }

  lemma {:induction false} EmitsSnoc(pick: (set<Event>, Event) -> bool, live: set<Event>, arcs: set<Arc>,
                                     order: seq<Event>, rest: set<Event>, e: Event)
    requires Emits(pick, live, arcs, order, rest)
    requires e in Ready(rest, arcs) && pick(Ready(rest, arcs), e)
    ensures Emits(pick, live, arcs, order + [e], rest - {e})
    decreases |order|
  {
    if |order| > 0 {
      assert (order + [e])[1..] == order[1..] + [e];
      EmitsSnoc(pick, live - {order[0]}, arcs, order[1..], rest, e);
    } else {
      assert (order + [e])[1..] == [];
    }
  }

  /** What is emitted is what disappears, each event once. */
  lemma {:induction false} EmitsEnumerates(pick: (set<Event>, Event) -> bool, live: set<Event>, arcs: set<Arc>,
                                           order: seq<Event>, rest: set<Event>)
    requires Emits(pick, live, arcs, order, rest)
    ensures rest <= live && Enumerates(order, live - rest)
    ensures |order| == |live| - |rest|
    decreases |order|
  {
    if |order| > 0 {
      EmitsEnumerates(pick, live - {order[0]}, arcs, order[1..], rest);
      var tail := order[1..];
      assert order == [order[0]] + tail;
      assert order[0] !in tail;
      forall i, j | 0 <= i < j < |order| ensures order[i] != order[j] {
        assert order[j] == tail[j - 1] && (i > 0 ==> order[i] == tail[i - 1]);
      }
      assert |live - {order[0]}| == |live| - 1;
    }
  }

  /** Of two events of one instance that wait for nothing different, the one with
      the smaller sequence number comes first in the canonical timeline, unless the
      clock put it later. */
  lemma {:induction false} SequenceFirst(live: set<Event>, arcs: set<Arc>, order: seq<Event>, i: nat, j: nat)
    requires Timeline(Canonical(), live, arcs, order) && i < |order| && j < |order|
    requires order[i].component == order[j].component && order[i].instance == order[j].instance
    requires order[i].sequence < order[j].sequence
    requires forall p :: (p, order[i].eventId) in arcs ==> (p, order[j].eventId) in arcs
    requires order[i].occurredAt <= order[j].occurredAt ||
             forall x | x in live :: order[i].occurredAt <= x.occurredAt + 5_000_000
    ensures i < j
    decreases |order|
  {
    if j == 0 {
      EmitsEnumerates(Canonical(), live, arcs, order, {});
      assert order[i] in order && order[i] in live;
      CanonicalOnFields(Ready(live, arcs), order[0], order[0]);
      CanonicalOnFields(Ready(live, arcs), order[0], order[i]);
    } else if i > 0 {
      SequenceFirst(live - {order[0]}, arcs, order[1..], i - 1, j - 1);
    }
  }

  /** Every hard constraint points strictly forward in a timeline. */
  lemma {:induction false} TimelineForward(pick: (set<Event>, Event) -> bool, events: set<Event>, arcs: set<Arc>,
                                           order: seq<Event>, i: nat, j: nat)
    requires Timeline(pick, events, arcs, order)
    requires i < |order| && j < |order| && (order[i].eventId, order[j].eventId) in arcs
    ensures i < j
    decreases |order|
  {
    EmitsEnumerates(pick, events, arcs, order, {});
    assert order[i] in order && order[j] in order;
    assert order[0] in Ready(events, arcs);
    if i > 0 {
      assert order[1..][i - 1] == order[i] && order[1..][j - 1] == order[j];
      TimelineForward(pick, events - {order[0]}, arcs, order[1..], i - 1, j - 1);
    }
  }

  /** There is only one canonical timeline. */
  lemma {:induction false} CanonicalUnique(events: set<Event>, arcs: set<Arc>, a: seq<Event>, b: seq<Event>)
    requires DistinctIdSet(events)
    requires Timeline(Canonical(), events, arcs, a) && Timeline(Canonical(), events, arcs, b)
    ensures a == b
    decreases |a|
  {
    EmitsEnumerates(Canonical(), events, arcs, a, {});
    EmitsEnumerates(Canonical(), events, arcs, b, {});
    if |a| > 0 {
      TieLessTotal(a[0], b[0]);
      assert a[0] == b[0];
      CanonicalUnique(events - {a[0]}, arcs, a[1..], b[1..]);
      assert a == [a[0]] + a[1..] && b == [b[0]] + b[1..];
    }
  }

  // ----- when the code's pick is the canonical one -----

  /** The scan ends on the timestamp of some listed event, and on the minimum
      whenever the minimum is not the zero instant. */
  lemma {:induction false} ScanBounds(it: seq<Event>)
    requires |it| > 0
    ensures exists x :: x in it && Scan(it) == x.occurredAt
    ensures (forall x | x in it :: x.occurredAt != 0) ==> forall x | x in it :: Scan(it) <= x.occurredAt
    ensures (exists x :: x in it && x.occurredAt < 0) ==> forall x | x in it :: Scan(it) <= x.occurredAt
  {
    var last := it[|it| - 1];
    var init := it[..|it| - 1];
    assert it == init + [last];
    if |init| > 0 {
      ScanBounds(init);
    }
  }

  lemma ScanSnoc(init: seq<Event>, last: Event)
    ensures Scan(init + [last]) == if Scan(init) == 0 || last.occurredAt < Scan(init) then last.occurredAt else Scan(init)
  {
    assert (init + [last])[..|init|] == init;
  }

  lemma EnumeratesSnoc<T(!new)>(init: seq<T>, s: set<T>, x: T)
    requires Enumerates(init, s) && x !in s
    ensures Enumerates(init + [x], s + {x})
  {
    assert x !in init;
  }

  lemma TieLeastExists(s: set<Event>) returns (least: Event)
    requires s != {}
    ensures least in s && forall c | c in s :: !TieLess(c, least)
    decreases |s|
  {
    var e :| e in s;
    if s == {e} {
      TieLessTotal(e, e);
      least := e;
    } else {
      var m := TieLeastExists(s - {e});
      TieLessTotal(e, m);
      TieLessTotal(e, e);
      if TieLess(e, m) {
        forall c | c in s ensures !TieLess(c, e) {
          if c != e {
            TieLessTransitive(e, m, c);
          }
        }
        least := e;
      } else {
        least := m;
      }
    }
  }

  /** The earliest eligible event is at Go's zero instant. */
  ghost predicate ZeroEarliest(eligible: set<Event>) {
    exists z :: z in eligible && z.occurredAt == 0 && forall x | x in eligible :: x.occurredAt >= 0
  }

  /** The zero instant does no harm when the tie-break winner is in the window
      anyway. */
  ghost predicate QuirkFree(eligible: set<Event>) {
    ZeroEarliest(eligible) ==> exists w :: InWindow(eligible, w) && forall c | c in eligible :: !TieLess(c, w)
  }

  lemma PossibleIsCanonical(eligible: set<Event>, e: Event)
    requires DistinctIdSet(eligible) && QuirkFree(eligible)
    requires PossiblePick(eligible, e)
    ensures CanonicalPick(eligible, e)
  {
    var it :| Enumerates(it, eligible) && LeastUpTo(eligible, Scan(it) + WINDOW, e);
    assert e in it;
    ScanBounds(it);
    if ZeroEarliest(eligible) {
      var w :| InWindow(eligible, w) && forall c | c in eligible :: !TieLess(c, w);
      TieLessTotal(e, w);
      assert e == w;
    } else {
      assert forall x | x in it :: x in eligible;
      forall x | x in eligible ensures Scan(it) <= x.occurredAt {
        assert x in it;
      }
    }
  }

  lemma EarliestExists(s: set<Event>) returns (m: Event)
    requires s != {}
    ensures m in s && forall x | x in s :: m.occurredAt <= x.occurredAt
    decreases |s|
  {
    m :| m in s;
    if s != {m} {
      var n := EarliestExists(s - {m});
      if n.occurredAt < m.occurredAt {
        m := n;
      }
    }
  }

  lemma Listing<T(!new)>(s: set<T>) returns (it: seq<T>)
    ensures Enumerates(it, s) && |it| == |s|
    decreases |s|
  {
    if s == {} {
      it := [];
    } else {
      var x :| x in s;
      var rest := Listing(s - {x});
      it := rest + [x];
    }
  }

  /** The canonical pick can always happen: iterate the earliest event last. */
  lemma CanonicalIsPossible(eligible: set<Event>, e: Event)
    requires CanonicalPick(eligible, e)
    ensures PossiblePick(eligible, e)
  {
    var m := EarliestExists(eligible);
    var init := Listing(eligible - {m});
    EnumeratesSnoc(init, eligible - {m}, m);
    assert eligible - {m} + {m} == eligible;
    ScanSnoc(init, m);
    if |init| > 0 {
      ScanBounds(init);
    }
    assert LeastUpTo(eligible, Scan(init + [m]) + WINDOW, e);
  }

  /** An iteration that meets `z`, at the zero instant, just before `w` ends
      its scan on `w`. */
  lemma ZeroThenLast(eligible: set<Event>, z: Event, w: Event) returns (it: seq<Event>)
    requires z in eligible && w in eligible && z != w
    requires z.occurredAt == 0 && forall x | x in eligible :: x.occurredAt >= 0
    ensures Enumerates(it, eligible) && Scan(it) == w.occurredAt
  {
    var others := eligible - {w} - {z};
    var init := Listing(others);
    EnumeratesSnoc(init, others, z);
    assert others + {z} == eligible - {w};
    EnumeratesSnoc(init + [z], eligible - {w}, w);
    assert eligible - {w} + {w} == eligible;
    it := init + [z] + [w];
    ScanSnoc(init, z);
    ScanSnoc(init + [z], w);
    if |init| > 0 {
      ScanBounds(init);
    }
  }

  /** Otherwise some iteration order makes the code pick wrongly: it meets the
      zero-instant event just before the tie-break winner. */
  lemma QuirkPicksWrongly(eligible: set<Event>) returns (w: Event)
    requires !QuirkFree(eligible)
    ensures w in eligible && PossiblePick(eligible, w) && !CanonicalPick(eligible, w)
  {
    var z :| z in eligible && z.occurredAt == 0 && forall x | x in eligible :: x.occurredAt >= 0;
    w := TieLeastExists(eligible);
    assert InWindow(eligible, z);
    assert !InWindow(eligible, w);
    var it := ZeroThenLast(eligible, z, w);
    assert LeastUpTo(eligible, Scan(it) + WINDOW, w);
  }

  function Sample(id: string, component: string, occurredAt: int): Event {
    Event(id, "exec-1", "trace-1", "", "", component, "instance-1", "checkout", Internal, Start, 1, "checkout-1",
          occurredAt, 0, Running, None, true)
  }

  /** Such a round exists: of two valid events without constraints the one that
      wins the tie-break is far from the other, at the zero instant. */
  lemma QuirkOccurs() returns (events: set<Event>, picked: Event)
    ensures (forall e | e in events :: e.Valid()) && DistinctIdSet(events)
    ensures !QuirkFree(Ready(events, {})) && PossiblePick(Ready(events, {}), picked)
    ensures !CanonicalPick(Ready(events, {}), picked)
  {
    var z, w := Sample("evt-1", "gateway", 0), Sample("evt-2", "checkout", WINDOW + 1);
    events := {z, w};
    assert z.eventId[4] != w.eventId[4];
    assert TieLess(w, z);
    assert Ready(events, {}) == events && ZeroEarliest(events);
    assert !InWindow(events, w);
    picked := QuirkPicksWrongly(events);
  }

  /** One round is canonical for every iteration order of the map exactly when
      it is free of the zero-instant quirk. */
  lemma RoundExact(eligible: set<Event>)
    requires DistinctIdSet(eligible)
    ensures QuirkFree(eligible) <==> forall e | PossiblePick(eligible, e) :: CanonicalPick(eligible, e)
  {
    if QuirkFree(eligible) {
      forall e | PossiblePick(eligible, e) ensures CanonicalPick(eligible, e) {
        PossibleIsCanonical(eligible, e);
      }
    } else {
      var w := QuirkPicksWrongly(eligible);
    }
  }

  lemma CanonicalPickExists(eligible: set<Event>) returns (e: Event)
    requires eligible != {}
    ensures CanonicalPick(eligible, e)
  {
    var m := EarliestExists(eligible);
    var window := set x | x in eligible && InWindow(eligible, x);
    assert m in window;
    e := TieLeastExists(window);
  }

  // ----- acyclic constraints always leave something ready -----

  /** The live event that finished last in the depth-first search has no live
      predecessor. */
  lemma {:induction false} ReadyExists(live: set<Event>, arcs: set<Arc>, finish: seq<string>) returns (e: Event)
    requires Finishing(arcs, finish)
    requires live != {} && forall x | x in live :: x.eventId in finish
    ensures e in Ready(live, arcs)
  {
    var k := |finish|;
    while k > 0 && !(exists x :: x in live && x.eventId == finish[k - 1])
      invariant 0 <= k <= |finish|
      invariant forall x | x in live :: x.eventId in finish[..k]
    {
      assert finish[..k] == finish[..k - 1] + [finish[k - 1]];
      k := k - 1;
    }
    var some :| some in live;
    assert some.eventId in finish[..k];
    e :| e in live && e.eventId == finish[k - 1];
    forall p | p in live ensures (p.eventId, e.eventId) !in arcs {
      var j :| 0 <= j < k && finish[j] == p.eventId;
      assert e.eventId !in finish[..j];
    }
  }

  /** Acyclic constraints have a canonical timeline. */
  lemma {:induction false} CanonicalExists(events: set<Event>, arcs: set<Arc>, finish: seq<string>)
    returns (order: seq<Event>)
    requires Finishing(arcs, finish) && forall x | x in events :: x.eventId in finish
    ensures Timeline(Canonical(), events, arcs, order)
    decreases |events|
  {
    if events == {} {
      order := [];
    } else {
      var r := ReadyExists(events, arcs, finish);
      var e := CanonicalPickExists(Ready(events, arcs));
      var rest := CanonicalExists(events - {e}, arcs, finish);
      order := [e] + rest;
      assert order[1..] == rest;
    }
  }

  lemma {:induction false} CanonicalTimelineIsPossible(events: set<Event>, arcs: set<Arc>, order: seq<Event>)
    requires Timeline(Canonical(), events, arcs, order)
    ensures Timeline(Possible(), events, arcs, order)
    decreases |order|
  {
    if |order| > 0 {
      CanonicalIsPossible(Ready(events, arcs), order[0]);
      CanonicalTimelineIsPossible(events - {order[0]}, arcs, order[1..]);
    }
  }

  /** Every round along `order` is free of the zero-instant quirk. */
  ghost predicate QuirkFreeAlong(live: set<Event>, arcs: set<Arc>, order: seq<Event>)
    decreases |order|
  {
    |order| > 0 ==> QuirkFree(Ready(live, arcs)) && QuirkFreeAlong(live - {order[0]}, arcs, order[1..])
  }

  lemma TimelineCons(pick: (set<Event>, Event) -> bool, live: set<Event>, arcs: set<Arc>, e: Event, rest: seq<Event>)
    requires e in Ready(live, arcs) && pick(Ready(live, arcs), e)
    requires Timeline(pick, live - {e}, arcs, rest)
    ensures Timeline(pick, live, arcs, [e] + rest)
  {
    assert ([e] + rest)[1..] == rest;
  }

  /** `order` is what the code emits, whatever order its map iterates in. */
  ghost predicate Forced(events: set<Event>, arcs: set<Arc>, order: seq<Event>) {
    forall run | Timeline(Possible(), events, arcs, run) :: run == order
  }

  lemma RunForced(events: set<Event>, arcs: set<Arc>, order: seq<Event>, run: seq<Event>)
    requires DistinctIdSet(events) && |order| > 0
    requires Timeline(Canonical(), events, arcs, order) && QuirkFree(Ready(events, arcs))
    requires Forced(events - {order[0]}, arcs, order[1..])
    requires Timeline(Possible(), events, arcs, run)
    ensures run == order
  {
    EmitsEnumerates(Possible(), events, arcs, run, {});
    EmitsEnumerates(Canonical(), events, arcs, order, {});
    assert |run| > 0;
    PossibleIsCanonical(Ready(events, arcs), run[0]);
    TieLessTotal(run[0], order[0]);
    assert Timeline(Possible(), events - {order[0]}, arcs, run[1..]);
    assert run == [run[0]] + run[1..] && order == [order[0]] + order[1..];
  }

  /** A quirk in this round lets the code emit something else first. */
  lemma QuirkUnforces(events: set<Event>, arcs: set<Arc>, finish: seq<string>, order: seq<Event>)
    requires Finishing(arcs, finish) && forall x | x in events :: x.eventId in finish
    requires |order| > 0 && Timeline(Canonical(), events, arcs, order) && !QuirkFree(Ready(events, arcs))
    ensures !Forced(events, arcs, order)
  {
    var w := QuirkPicksWrongly(Ready(events, arcs));
    var rest := CanonicalExists(events - {w}, arcs, finish);
    CanonicalTimelineIsPossible(events - {w}, arcs, rest);
    TimelineCons(Possible(), events, arcs, w, rest);
  }

  /** So does any other continuation of this round's pick. */
  lemma TailUnforces(events: set<Event>, arcs: set<Arc>, order: seq<Event>)
    requires |order| > 0 && Timeline(Canonical(), events, arcs, order)
    requires !Forced(events - {order[0]}, arcs, order[1..])
    ensures !Forced(events, arcs, order)
  {
    var run :| Timeline(Possible(), events - {order[0]}, arcs, run) && run != order[1..];
    CanonicalIsPossible(Ready(events, arcs), order[0]);
    TimelineCons(Possible(), events, arcs, order[0], run);
    assert ([order[0]] + run)[1..] == run;
  }

  /** Every run of the code yields the canonical timeline exactly when each
      round along it is quirk-free. */
  lemma {:induction false} RunExact(events: set<Event>, arcs: set<Arc>, finish: seq<string>, order: seq<Event>)
    requires DistinctIdSet(events)
    requires Finishing(arcs, finish) && forall x | x in events :: x.eventId in finish
    requires Timeline(Canonical(), events, arcs, order)
    ensures Forced(events, arcs, order) <==> QuirkFreeAlong(events, arcs, order)
    decreases |order|
  {
    if |order| == 0 {
      forall run | Timeline(Possible(), events, arcs, run) ensures run == order {
        EmitsEnumerates(Possible(), events, arcs, run, {});
      }
    } else {
      RunExact(events - {order[0]}, arcs, finish, order[1..]);
      if !QuirkFree(Ready(events, arcs)) {
        QuirkUnforces(events, arcs, finish, order);
      } else if !Forced(events - {order[0]}, arcs, order[1..]) {
        TailUnforces(events, arcs, order);
      } else {
        forall run | Timeline(Possible(), events, arcs, run) ensures run == order {
          RunForced(events, arcs, order, run);
        }
      }
    }
  }

  /** Without an event at the zero instant no round has the quirk. */
  lemma {:induction false} NoZeroInstantNoQuirk(live: set<Event>, arcs: set<Arc>, order: seq<Event>)
    requires forall e | e in live :: e.occurredAt != 0
    ensures QuirkFreeAlong(live, arcs, order)
    decreases |order|
  {
    if |order| > 0 {
      NoZeroInstantNoQuirk(live - {order[0]}, arcs, order[1..]);
    }
  }
}
