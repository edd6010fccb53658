/** Parent references of a captured checkout: present, and never circular. */
module Lineage {
  import opened Contracts
  import opened CycleCheck
  import opened Ordering
  import opened RunTimeline
  import opened CheckoutRace

  // ----- constraints that only climb -----

  /** Every arc leads to a higher level. */
  ghost predicate Climbs(arcs: set<Arc>, level: string -> int) {
    forall a | a in arcs :: level(a.0) < level(a.1)
  }

  lemma {:induction false} WalkClimbs(arcs: set<Arc>, level: string -> int, p: seq<string>, k: nat)
    requires Climbs(arcs, level) && Walk(arcs, p) && 0 < k < |p|
    ensures level(p[0]) < level(p[k])
  {
    assert Link(arcs, p, k);
    if k > 1 {
      WalkClimbs(arcs, level, p, k - 1);
    }
  }

  lemma ClimbingIsAcyclic(arcs: set<Arc>, level: string -> int)
    requires Climbs(arcs, level)
    ensures !Cyclic(arcs)
  {
    if Cyclic(arcs) {
      var p :| Closed(arcs, p);
      WalkClimbs(arcs, level, p, |p| - 1);
    }
  }

  // ----- what the services name as parents -----

  /** The gateway's start, what refers to it, and all the rest. */
  function Level(p: Note): nat {
    match p
    case GatewayStarted => 0
    case CheckoutStarted => 1
    case _ => 2
  }

  ghost predicate StartIn(trace: seq<Entry>, start: Note, id: string) {
    exists x :: x in trace && x.note == start && x.stamp.eventId == id
  }

  /** The entry refers to the start event it belongs under, which is there. */
  ghost predicate Rooted(trace: seq<Entry>, x: Entry) {
    match x.note
    case GatewayStarted => x.parentId == ""
    case CheckoutStarted => StartIn(trace, GatewayStarted, x.parentId)
    case GatewayCompleted(_) => StartIn(trace, GatewayStarted, x.parentId)
    case _ => StartIn(trace, CheckoutStarted, x.parentId)
  }

  /** Parents come first: every beginning of the trace contains its parents. */
  ghost predicate AllRooted(shared: Shared) {
    forall k | 0 <= k <= |shared.trace| :: RootedAll(shared.trace[..k])
  }

  ghost predicate RootedAll(trace: seq<Entry>) {
    forall x | x in trace :: Rooted(trace, x)
  }

  predicate GatewayPassed(m: Main) {
    !m.AtGatewayStart? && !m.Aborted?
  }

  predicate CheckoutPassed(s: State) {
    (GatewayPassed(s.main) && !s.main.AtCheckoutStart?) || !s.first.Idle? || !s.second.Idle?
  }

  ghost predicate LineageInv(s: State) {
    && AllRooted(s.shared)
    && (GatewayPassed(s.main) ==> StartIn(s.shared.trace, GatewayStarted, s.shared.gatewayStart))
    && (CheckoutPassed(s) ==> StartIn(s.shared.trace, CheckoutStarted, s.shared.checkoutStart))
  }

  lemma StartStays(trace: seq<Entry>, x: Entry, start: Note, id: string)
    requires StartIn(trace, start, id)
    ensures StartIn(trace + [x], start, id)
  {
    var y :| y in trace && y.note == start && y.stamp.eventId == id;
    assert y in trace + [x];
  }

  lemma RootedStays(trace: seq<Entry>, x: Entry, y: Entry)
    requires Rooted(trace, y)
    ensures Rooted(trace + [x], y)
  {
    if StartIn(trace, GatewayStarted, y.parentId) {
      StartStays(trace, x, GatewayStarted, y.parentId);
    }
    if StartIn(trace, CheckoutStarted, y.parentId) {
      StartStays(trace, x, CheckoutStarted, y.parentId);
    }
  }

  lemma WholeRooted(shared: Shared)
    requires AllRooted(shared)
    ensures RootedAll(shared.trace)
  {
    assert shared.trace[..|shared.trace|] == shared.trace;
  }

  /** Recording an event under a start that is there keeps all references. */
  lemma AppendRooted(shared: Shared, p: Note, stamp: Stamp)
    requires AllRooted(shared)
    requires Rooted(shared.trace, Entry(p, stamp, ParentFor(shared, p)))
    ensures AllRooted(Append(shared, p, stamp))
    ensures forall start, id | StartIn(shared.trace, start, id) :: StartIn(Append(shared, p, stamp).trace, start, id)
    ensures StartIn(Append(shared, p, stamp).trace, p, stamp.eventId)
  {
    var x := Entry(p, stamp, ParentFor(shared, p));
    WholeRooted(shared);
    RootedStays(shared.trace, x, x);
    forall y | y in shared.trace + [x] ensures Rooted(shared.trace + [x], y) {
      RootedStays(shared.trace, x, y);
    }
    forall k | 0 <= k <= |shared.trace| + 1 ensures RootedAll((shared.trace + [x])[..k]) {
      if k <= |shared.trace| {
        assert (shared.trace + [x])[..k] == shared.trace[..k];
      } else {
        assert (shared.trace + [x])[..k] == shared.trace + [x];
      }
    }
    forall start, id | StartIn(shared.trace, start, id) ensures StartIn(shared.trace + [x], start, id) {
      StartStays(shared.trace, x, start, id);
    }
    assert x in shared.trace + [x];
  }

  lemma MainLineage(cfg: Config, s: State, ok: bool, timer: bool, stamp: Stamp)
    requires LineageInv(s) && MainInv(cfg, s)
    ensures LineageInv(MainStep(cfg, s, ok, timer, stamp))
  {
    if NextRecord(cfg, s.main).Some? && ok {
      AppendRooted(s.shared, NextRecord(cfg, s.main).value.0, stamp);
    }
  }

  lemma AttemptLineage(cfg: Config, shared: Shared, n: int, a: Attempt, ok: bool, stamp: Stamp)
    requires AllRooted(shared) && (!a.Idle? ==> StartIn(shared.trace, CheckoutStarted, shared.checkoutStart))
    ensures var (shared', a') := AttemptStep(cfg, shared, n, a, ok, stamp);
            && AllRooted(shared') && (a.Idle? <==> a'.Idle?)
            && shared'.gatewayStart == shared.gatewayStart && shared'.checkoutStart == shared.checkoutStart
            && forall start, id | StartIn(shared.trace, start, id) :: StartIn(shared'.trace, start, id)
  {
    if ok && AttemptNote(n, a).Some? {
      AppendRooted(shared, AttemptNote(n, a).value, stamp);
    }
  }

  lemma LineageStep(cfg: Config, s: State, action: Action)
    requires LineageInv(s) && MainInv(cfg, s)
    ensures LineageInv(Apply(cfg, s, action))
  {
    match action
    case MainAction(ok, timer, stamp) => MainLineage(cfg, s, ok, timer, stamp);
    case FirstAction(ok, stamp) => AttemptLineage(cfg, s.shared, 1, s.first, ok, stamp);
    case SecondAction(ok, stamp) => AttemptLineage(cfg, s.shared, 2, s.second, ok, stamp);
  }

  lemma {:induction false} RunLineage(cfg: Config, choices: seq<Action>)
    ensures LineageInv(Run(cfg, choices))
    decreases |choices|
  {
    if |choices| > 0 {
      var init := choices[..|choices| - 1];
      RunLineage(cfg, init);
      RunInv(cfg, init);
      LineageStep(cfg, Run(cfg, init), choices[|choices| - 1]);
    }
  }

  // ----- settled -----

  /** The level of the entry with that id. */
  ghost function LevelOf(trace: seq<Entry>, id: string): int {
    if exists x :: x in trace && x.stamp.eventId == id then
      var x :| x in trace && x.stamp.eventId == id;
      Level(x.note)
    else 0
  }

  ghost predicate DistinctEntries(trace: seq<Entry>) {
    forall i, j | 0 <= i < j < |trace| :: trace[i].stamp.eventId != trace[j].stamp.eventId
  }

  lemma LevelExact(trace: seq<Entry>, x: Entry)
    requires DistinctEntries(trace) && x in trace
    ensures LevelOf(trace, x.stamp.eventId) == Level(x.note)
  {
    forall y | y in trace && y.stamp.eventId == x.stamp.eventId ensures y == x {
      var i :| 0 <= i < |trace| && trace[i] == x;
      var j :| 0 <= j < |trace| && trace[j] == y;
    }
  }

  /** An entry with a parent stands above it. */
  lemma ParentBelow(trace: seq<Entry>, part: seq<Entry>, x: Entry) returns (y: Entry)
    requires DistinctEntries(trace) && (forall z | z in part :: z in trace)
    requires x in part && Rooted(part, x) && x.parentId != ""
    ensures y in part && y.stamp.eventId == x.parentId && Level(y.note) < Level(x.note)
    ensures LevelOf(trace, x.parentId) < LevelOf(trace, x.stamp.eventId)
  {
    y :| y in part && y.stamp.eventId == x.parentId && Level(y.note) < Level(x.note);
    LevelExact(trace, x);
    LevelExact(trace, y);
  }

  lemma EntryOf(cfg: Config, trace: seq<Entry>, e: Event) returns (x: Entry)
    requires e in Events(cfg, trace)
    ensures x in trace && e == Recorded(cfg, x) && e.eventId == x.stamp.eventId && e.parentId == x.parentId
  {
    var i :| 0 <= i < |trace| && Events(cfg, trace)[i] == e;
    x := trace[i];
  }

  lemma EventOf(cfg: Config, trace: seq<Entry>, x: Entry)
    requires x in trace
    ensures Recorded(cfg, x) in Events(cfg, trace) && Recorded(cfg, x).eventId == x.stamp.eventId
  {
    var i :| 0 <= i < |trace| && trace[i] == x;
    assert Events(cfg, trace)[i] == Recorded(cfg, x);
  }

  lemma DistinctAsEntries(cfg: Config, trace: seq<Entry>)
    ensures DistinctIds(Events(cfg, trace)) <==> DistinctEntries(trace)
  {
    forall i | 0 <= i < |trace| ensures Events(cfg, trace)[i].eventId == trace[i].stamp.eventId {
    }
  }

  /** Parents are present, and one level further down at least. */
  ghost predicate Leveled(all: set<Event>, level: string -> int) {
    forall e | e in all && e.parentId != "" ::
      level(e.parentId) < level(e.eventId) && exists p :: p in all && p.eventId == e.parentId
  }

  lemma LeveledSettled(all: set<Event>, level: string -> int)
    requires Leveled(all, level)
    ensures ParentsSettled(all)
  {
    ClimbingIsAcyclic(ParentArcs(all), level);
  }

  /** The first so many captured events. */
  ghost function Beginning(cfg: Config, choices: seq<Action>, k: nat): set<Event>
    requires k <= |Run(cfg, choices).shared.trace|
  {
    Elements(Events(cfg, Run(cfg, choices).shared.trace)[..k])
  }

  /** At any time parents have been captured before their children. */
  lemma CapturedLeveled(cfg: Config, choices: seq<Action>) returns (level: string -> int)
    requires DistinctIds(Events(cfg, Run(cfg, choices).shared.trace))
    ensures forall k | 0 <= k <= |Run(cfg, choices).shared.trace| :: Leveled(Beginning(cfg, choices, k), level)
  {
    var trace := Run(cfg, choices).shared.trace;
    RunLineage(cfg, choices);
    DistinctAsEntries(cfg, trace);
    level := id => LevelOf(trace, id);
    forall k | 0 <= k <= |trace| ensures Leveled(Beginning(cfg, choices, k), level) {
      assert RootedAll(trace[..k]);
      BeginningLeveled(cfg, trace, k, level);
    }
  }

  lemma BeginningLeveled(cfg: Config, trace: seq<Entry>, k: nat, level: string -> int)
    requires k <= |trace| && DistinctEntries(trace) && RootedAll(trace[..k])
    requires forall id :: level(id) == LevelOf(trace, id)
    ensures Leveled(Elements(Events(cfg, trace)[..k]), level)
  {
    assert Events(cfg, trace)[..k] == Events(cfg, trace[..k]);
    var all := Elements(Events(cfg, trace[..k]));
    forall e | e in all && e.parentId != ""
      ensures level(e.parentId) < level(e.eventId) && exists p :: p in all && p.eventId == e.parentId
    {
      var x := EntryOf(cfg, trace[..k], e);
      var y := ParentBelow(trace, trace[..k], x);
      EventOf(cfg, trace[..k], y);
      assert Recorded(cfg, y) in all;
    }
  }

  lemma WholeLeveled(cfg: Config, choices: seq<Action>) returns (level: string -> int)
    requires DistinctIds(Events(cfg, Run(cfg, choices).shared.trace))
    ensures Leveled(Elements(Events(cfg, Run(cfg, choices).shared.trace)), level)
  {
    level := CapturedLeveled(cfg, choices);
    var events := Events(cfg, Run(cfg, choices).shared.trace);
    assert events[..|events|] == events && Leveled(Beginning(cfg, choices, |events|), level);
  }

  /** Whatever the schedule, the captured events of a checkout refer to parents
      that were captured too, and never in a circle: all it takes is that no two
      of them share an id. */
  lemma CapturedSettled(cfg: Config, choices: seq<Action>)
    requires DistinctIds(Events(cfg, Run(cfg, choices).shared.trace))
    ensures ParentsSettled(Elements(Events(cfg, Run(cfg, choices).shared.trace)))
  {
    var level := WholeLeveled(cfg, choices);
    LeveledSettled(Elements(Events(cfg, Run(cfg, choices).shared.trace)), level);
  }
}
