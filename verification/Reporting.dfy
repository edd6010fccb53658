/** When an execution is reported, and what events recorded by replay workers
    under the same execution id change about it. */
module Reporting {
  import opened Basics
  import opened Contracts
  import opened CycleCheck
  import opened Emission
  import opened Ordering
  import opened RunTimeline
  import opened Oracle
  import opened Incidents
  import opened Detection
  import opened Convergence
  import opened Progress

  // ----- failing and detectable are the same -----

  /** What a handler holds is accepted by oracle, graph and store exactly when it
      is a failing set. */
  lemma DetectableIsFailing(a: Archive, x: string, events: seq<Event>)
    requires ArchiveInv(a) && Snapshot(a, x, events)
    ensures Detectable(events) && OneTrace(events) <==> Failing(x, Elements(events))
  {
    if Failing(x, Elements(events)) {
      FullSetDetectable(a, x, Elements(events), events);
    }
    if Detectable(events) && OneTrace(events) {
      SelfListed(events);
    }
  }

  lemma SelfListed<T(!new)>(s: seq<T>)
    requires Distinct(s)
    ensures Enumerates(s, Elements(s))
  {
  }

  lemma ConcludedName(before: Archive, x: string, events: seq<Event>, after: Archive,
                      put: Option<(Incident, ExecutionGraph)>, err: Option<DetectError>)
    requires Concludes(before, x, events, after, put, err) && put.Some?
    ensures put.value.0.incidentId == IncidentIdOf(x)
  {
    PreparedNames(x, events, put.value.0, put.value.1);
  }

  lemma PutTouchesOne(a: Archive, i: Incident, g: ExecutionGraph, id: string)
    requires id != i.incidentId
    ensures id in PutIncident(a, i, g).0.incidents <==> id in a.incidents
  {
    PutIncidentAdds(a, i, g);
  }

  lemma NamesDiffer(x: string, y: string)
    requires x != y
    ensures IncidentIdOf(x) != IncidentIdOf(y)
  {
    assert IncidentIdOf(x)[4..] == x && IncidentIdOf(y)[4..] == y;
  }

  lemma PutElsewhere(a: Archive, x: string, y: string, events: seq<Event>, put: Option<(Incident, ExecutionGraph)>,
                     err: Option<DetectError>)
    requires Concludes(a, y, events, AfterPut(a, put), put, err) && x != y
    ensures IncidentIdOf(x) in AfterPut(a, put).incidents <==> IncidentIdOf(x) in a.incidents
  {
    if put.Some? {
      ConcludedName(a, y, events, AfterPut(a, put), put, err);
      NamesDiffer(x, y);
      PutTouchesOne(a, put.value.0, put.value.1, IncidentIdOf(x));
    }
  }

  /** Concluding from a set that does not fail reports nothing. */
  lemma NothingReported(a: Archive, x: string, events: seq<Event>, put: Option<(Incident, ExecutionGraph)>,
                        err: Option<DetectError>)
    requires ArchiveInv(a) && Snapshot(a, x, events) && !(Detectable(events) && OneTrace(events))
    requires Concludes(a, x, events, AfterPut(a, put), put, err)
    ensures AfterPut(a, put) == a
  {
    if Detectable(events) {
      var (i, g) := put.value;
      PreparedAccepted(a, x, events, i, g);
      PutIncidentAdds(a, i, g);
    }
  }

  // ----- first all events, then all handlers -----

  ghost predicate Contained(a: Archive, x: string, all: set<Event>) {
    forall id | id in a.events && a.events[id].executionId == x :: a.events[id] in all
  }

  /** Exactly the events of `seen` are stored under the execution; handlers hold
      all of them; and they have reported it if they have concluded from a
      failing set. */
  ghost predicate Steady(s: State, x: string, seen: set<Event>) {
    && Sound(s) && AllStored(s.archive, seen) && Contained(s.archive, x, seen)
    && (forall h | h in s.handlers && h.execution == x && h.pc.Holding? :: Elements(h.pc.events) == seen)
    && (IncidentIdOf(x) in s.archive.incidents ==> Failing(x, seen))
    && ((exists h :: h in s.handlers && h.execution == x && h.pc.Finished?) && Failing(x, seen) ==>
          IncidentIdOf(x) in s.archive.incidents)
  }

  lemma FullRead(a: Archive, x: string, seen: set<Event>, events: seq<Event>)
    requires ArchiveInv(a) && AllStored(a, seen) && Contained(a, x, seen) && OfOne(x, seen)
    requires Reads(a.events, OfExecution(x), events)
    ensures Elements(events) == seen
  {
    FullLoad(a, x, seen, events);
  }

  /** Who is in a list of handlers after one has moved. */
  lemma MovedMembers(handlers: seq<Handler>, h: nat, pc: Pc, k: Handler)
    requires h < |handlers| && k in Moved(handlers, h, pc)
    ensures k in handlers || k == handlers[h].(pc := pc)
  {
  }

  lemma SteadyLoad(s: State, x: string, seen: set<Event>, h: nat, events: seq<Event>)
    requires Steady(s, x, seen) && OfOne(x, seen)
    ensures Steady(Apply(s, Load(h, events)), x, seen)
  {
    var t := Apply(s, Load(h, events));
    LoadSound(s, h, events);
    if t != s {
      var loaded := s.handlers[h].(pc := Holding(events));
      if loaded.execution == x {
        FullRead(s.archive, x, seen, events);
      }
      forall k | k in t.handlers ensures k in s.handlers || k == loaded {
        MovedMembers(s.handlers, h, Holding(events), k);
      }
    }
  }

  /** What concluding does to the report. */
  lemma ConcludeReports(s: State, x: string, seen: set<Event>, h: nat,
                        put: Option<(Incident, ExecutionGraph)>, err: Option<DetectError>)
    requires Steady(s, x, seen) && CanConclude(s, h, put, err)
    ensures var b := AfterPut(s.archive, put);
            && (IncidentIdOf(x) in b.incidents ==> Failing(x, seen))
            && (Failing(x, seen) && (s.handlers[h].execution == x || IncidentIdOf(x) in s.archive.incidents) ==>
                  IncidentIdOf(x) in b.incidents)
  {
    var k := s.handlers[h];
    assert k in s.handlers && Honest(s.archive, k);
    AfterPutKeeps(s.archive, k.execution, k.pc.events, put, err);
    if k.execution != x {
      PutElsewhere(s.archive, x, k.execution, k.pc.events, put, err);
    } else {
      DetectableIsFailing(s.archive, x, k.pc.events);
      if Failing(x, seen) {
        FailingConcludes(s.archive, x, k.pc.events, put, err);
      } else {
        NothingReported(s.archive, x, k.pc.events, put, err);
      }
    }
  }

  lemma SteadyConclude(s: State, x: string, seen: set<Event>, h: nat,
                       put: Option<(Incident, ExecutionGraph)>, err: Option<DetectError>)
    requires Steady(s, x, seen)
    ensures Steady(Apply(s, Conclude(h, put, err)), x, seen)
  {
    ConcludeSound(s, h, put, err);
    if CanConclude(s, h, put, err) {
      ConcludeReports(s, x, seen, h, put, err);
      AfterPutEvents(s.archive, put);
      SteadyAfter(s, x, seen, h, AfterPut(s.archive, put));
    }
  }

  lemma SteadyAfter(s: State, x: string, seen: set<Event>, h: nat, b: Archive)
    requires Steady(s, x, seen) && h < |s.handlers| && b.events == s.archive.events
    requires Sound(State(b, Moved(s.handlers, h, Finished)))
    requires IncidentIdOf(x) in b.incidents ==> Failing(x, seen)
    requires Failing(x, seen) && (s.handlers[h].execution == x || IncidentIdOf(x) in s.archive.incidents) ==>
               IncidentIdOf(x) in b.incidents
    ensures Steady(State(b, Moved(s.handlers, h, Finished)), x, seen)
  {
    forall k | k in Moved(s.handlers, h, Finished) ensures k in s.handlers || k == s.handlers[h].(pc := Finished) {
      MovedMembers(s.handlers, h, Finished, k);
    }
  }

  lemma {:induction false} SteadyRun(s: State, x: string, seen: set<Event>, actions: seq<Action>)
    requires Steady(s, x, seen) && OfOne(x, seen) && forall a | a in actions :: Local(a)
    ensures Steady(Run(s, actions), x, seen)
    decreases |actions|
  {
    if |actions| > 0 {
      assert Local(actions[0]);
      match actions[0] {
        case Load(h, events) => SteadyLoad(s, x, seen, h, events);
        case Conclude(h, put, err) => SteadyConclude(s, x, seen, h, put, err);
        case _ =>
      }
      SteadyRun(Apply(s, actions[0]), x, seen, actions[1..]);
    }
  }

  // ----- ingesting a list of events -----

  predicate Ingests(action: Action) {
    action.Arrive? || action.Record?
  }

  function EventIn(action: Action): Event
    requires Ingests(action)
  {
    action.event
  }

  function Recordings(events: seq<Event>): (r: seq<Action>)
    ensures |r| == |events| && forall i | 0 <= i < |r| :: r[i] == Record(events[i])
  {
    seq(|events|, i requires 0 <= i < |events| => Record(events[i]))
  }

  function Arrivals(events: seq<Event>): (r: seq<Action>)
    ensures |r| == |events| && forall i | 0 <= i < |r| :: r[i] == Arrive(events[i])
  {
    seq(|events|, i requires 0 <= i < |events| => Arrive(events[i]))
  }

  lemma {:induction false} RunAppend(s: State, a: seq<Action>, b: seq<Action>)
    ensures Run(s, a + b) == Run(Run(s, a), b)
    decreases |a|
  {
    if |a| == 0 {
      assert a + b == b;
    } else {
      assert (a + b)[1..] == a[1..] + b;
      RunAppend(Apply(s, a[0]), a[1..], b);
    }
  }

  /** Nothing has been concluded or even read yet. */
  ghost predicate Early(s: State, x: string, seen: set<Event>) {
    && s.archive.incidents == map[] && s.archive.graphs == map[]
    && AllStored(s.archive, seen)
    && (forall id | id in s.archive.events :: s.archive.events[id].eventId == id && s.archive.events[id] in seen)
    && forall h | h in s.handlers :: h == Handler(x, Loading)
  }

  lemma EarlyStep(s: State, x: string, seen: set<Event>, action: Action)
    requires Early(s, x, seen) && Ingests(action) && EventIn(action).Valid() && EventIn(action).executionId == x
    requires forall e | e in seen :: e.eventId != EventIn(action).eventId
    ensures Early(Apply(s, action), x, seen + {EventIn(action)})
    ensures |Apply(s, action).handlers| == |s.handlers| + (if action.Arrive? then 1 else 0)
  {
  }

  /** The events an ingesting history brings in. */
  ghost function EventsIn(actions: seq<Action>): set<Event>
    requires forall a | a in actions :: Ingests(a)
  {
    set a | a in actions :: EventIn(a)
  }

  ghost predicate NewIds(actions: seq<Action>)
    requires forall a | a in actions :: Ingests(a)
  {
    forall i, j | 0 <= i < j < |actions| :: EventIn(actions[i]).eventId != EventIn(actions[j]).eventId
  }

  /** The events are valid, of the execution, and not among `seen`. */
  ghost predicate NewTo(x: string, seen: set<Event>, actions: seq<Action>)
    requires forall a | a in actions :: Ingests(a)
  {
    && (forall a | a in actions :: EventIn(a).Valid() && EventIn(a).executionId == x)
    && forall a, e | a in actions && e in seen :: e.eventId != EventIn(a).eventId
  }

  lemma NewToRest(x: string, seen: set<Event>, actions: seq<Action>)
    requires (forall a | a in actions :: Ingests(a)) && NewIds(actions) && NewTo(x, seen, actions) && |actions| > 0
    ensures (forall a | a in actions[1..] :: Ingests(a)) && NewIds(actions[1..])
    ensures NewTo(x, seen + {EventIn(actions[0])}, actions[1..])
    ensures {EventIn(actions[0])} + EventsIn(actions[1..]) == EventsIn(actions)
  {
    var rest := actions[1..];
    assert forall a | a in rest :: a in actions;
    forall a | a in rest ensures EventIn(actions[0]).eventId != EventIn(a).eventId {
      var j :| 0 <= j < |rest| && rest[j] == a;
      assert actions[j + 1] == a;
    }
    assert actions == [actions[0]] + rest;
  }

  lemma {:induction false} EarlyRun(s: State, x: string, seen: set<Event>, actions: seq<Action>)
    requires Early(s, x, seen) && (forall a | a in actions :: Ingests(a)) && NewIds(actions) && NewTo(x, seen, actions)
    ensures Early(Run(s, actions), x, seen + EventsIn(actions))
    ensures |Run(s, actions).handlers| >= |s.handlers|
    ensures (exists a :: a in actions && a.Arrive?) ==> |Run(s, actions).handlers| > 0
    decreases |actions|
  {
    if |actions| == 0 {
      assert seen + EventsIn(actions) == seen;
    } else {
      var first, rest := actions[0], actions[1..];
      EarlyStep(s, x, seen, first);
      NewToRest(x, seen, actions);
      EarlyRun(Apply(s, first), x, seen + {EventIn(first)}, rest);
      assert seen + {EventIn(first)} + EventsIn(rest) == seen + EventsIn(actions);
    }
  }

  lemma EarlyIsSteady(s: State, x: string, seen: set<Event>)
    requires Sound(s) && Early(s, x, seen)
    ensures Steady(s, x, seen)
  {
  }

  // ----- which recorded events can be there -----

  /** Valid events of one execution with distinct ids. */
  ghost predicate Storable(x: string, all: set<Event>) {
    && OfOne(x, all) && (forall e | e in all :: e.Valid())
    && forall e, f | e in all && f in all && e != f :: e.eventId != f.eventId
  }

  /** The part grew from another one by this event. */
  ghost predicate Newest(parts: set<set<Event>>, part: set<Event>, e: Event) {
    e in part && part - {e} in parts
  }

  /** The recorded events that can be stored at one time: at first none, each
      time one more, always storable beside the arriving events. */
  ghost predicate Growing(x: string, own: set<Event>, parts: set<set<Event>>) {
    {} in parts && Grown(parts) && Beside(x, own, parts)
  }

  ghost predicate Grown(parts: set<set<Event>>) {
    forall part | part in parts && part != {} :: exists e :: Newest(parts, part, e)
  }

  ghost predicate Beside(x: string, own: set<Event>, parts: set<set<Event>>) {
    forall part | part in parts :: Storable(x, own + part) && part !! own
  }

  /** What a worker has recorded of a list that it records in order. */
  ghost function Prefixes(recorded: seq<Event>): set<set<Event>> {
    set k | 0 <= k <= |recorded| :: Elements(recorded[..k])
  }

  /** The last event of a beginning is its newest. */
  lemma NewestOf(recorded: seq<Event>, k: nat) returns (e: Event)
    requires Distinct(recorded) && 0 < k <= |recorded|
    ensures Newest(Prefixes(recorded), Elements(recorded[..k]), e)
  {
    e := recorded[k - 1];
    assert recorded[..k] == recorded[..k - 1] + [e];
    assert e !in recorded[..k - 1];
    assert Elements(recorded[..k]) - {e} == Elements(recorded[..k - 1]);
  }

  lemma PrefixesGrown(recorded: seq<Event>)
    requires Distinct(recorded)
    ensures Grown(Prefixes(recorded)) && {} in Prefixes(recorded)
  {
    assert Elements(recorded[..0]) == {};
    forall part | part in Prefixes(recorded) && part != {} ensures exists e :: Newest(Prefixes(recorded), part, e) {
      var k :| 0 <= k <= |recorded| && part == Elements(recorded[..k]);
      var e := NewestOf(recorded, k);
    }
  }

  lemma PartStorable(x: string, own: set<Event>, extra: set<Event>, part: set<Event>)
    requires Storable(x, own + extra) && part <= extra
    ensures Storable(x, own + part)
  {
    assert forall e | e in own + part :: e in own + extra;
  }

  /** Any choice of the events, in any order. */
  ghost function Subsets(extra: set<Event>): set<set<Event>> {
    set part | part <= extra
  }

  lemma SubsetsGrow(x: string, own: set<Event>, extra: set<Event>)
    requires Storable(x, own + extra) && extra !! own
    ensures Growing(x, own, Subsets(extra))
  {
    forall part | part in Subsets(extra)
      ensures Storable(x, own + part) && part !! own
      ensures part != {} ==> exists e :: Newest(Subsets(extra), part, e)
    {
      PartStorable(x, own, extra, part);
      if part != {} {
        var e :| e in part;
        assert Newest(Subsets(extra), part, e);
      }
    }
  }

  /** Nothing is recorded. */
  const NOTHING: set<set<Event>> := {{}}

  lemma NothingGrows(x: string, own: set<Event>)
    requires Storable(x, own)
    ensures Growing(x, own, NOTHING)
  {
    assert own + {} == own;
  }

  ghost predicate Recordable(parts: set<set<Event>>, order: seq<Event>) {
    Distinct(order) && forall k | 0 <= k <= |order| :: Elements(order[..k]) in parts
  }

  /** An order in which the events of a part can be recorded. */
  lemma {:induction false} Chain(parts: set<set<Event>>, part: set<Event>) returns (order: seq<Event>)
    requires Grown(parts) && part in parts && {} in parts
    ensures Recordable(parts, order) && Elements(order) == part
    decreases |part|
  {
    if part == {} {
      order := [];
      assert order[..0] == [] && Elements(order) == {};
    } else {
      var e: Event :| Newest(parts, part, e);
      var init := Chain(parts, part - {e});
      order := init + [e];
      ChainSnoc(parts, part, init, e);
    }
  }

  lemma ChainSnoc(parts: set<set<Event>>, part: set<Event>, init: seq<Event>, e: Event)
    requires Recordable(parts, init) && Elements(init) == part - {e} && e in part && part in parts
    ensures Recordable(parts, init + [e]) && Elements(init + [e]) == part
  {
    var order := init + [e];
    assert e !in Elements(init);
    assert e !in init;
    forall f ensures f in Elements(order) <==> f in part {
      assert f in Elements(init) <==> f in part - {e};
    }
    forall k | 0 <= k <= |order| ensures Elements(order[..k]) in parts {
      if k <= |init| {
        assert order[..k] == init[..k];
      } else {
        assert order[..k] == order && Elements(order) == part;
      }
    }
  }

  // ----- admitted histories -----

  lemma {:induction false} AdmittedAppend(s: State, x: string, own: set<Event>, parts: set<set<Event>>,
                                          a: seq<Action>, b: seq<Action>)
    requires Admitted(s, x, own, parts, a) && Admitted(Run(s, a), x, own, parts, b)
    ensures Admitted(s, x, own, parts, a + b)
    decreases |a|
  {
    if |a| == 0 {
      assert a + b == b;
    } else {
      assert (a + b)[1..] == a[1..] + b;
      AdmittedAppend(Apply(s, a[0]), x, own, parts, a[1..], b);
    }
  }

  /** Arrivals, loads and conclusions record nothing. */
  predicate Unrecorded(own: set<Event>, action: Action) {
    Local(action) || (action.Arrive? && action.event in own)
  }

  lemma UnrecordedStep(s: State, x: string, own: set<Event>, action: Action)
    requires Unrecorded(own, action)
    ensures Part(Apply(s, action).archive, x, own) == Part(s.archive, x, own)
  {
    match action
    case Arrive(e) => IngestOwn(s.archive, x, own, e);
    case Conclude(_, put, _) => AfterPutEvents(s.archive, put);
    case _ =>
  }

  lemma IngestOwn(a: Archive, x: string, own: set<Event>, e: Event)
    requires e in own
    ensures Part(Ingest(a, e).0, x, own) == Part(a, x, own)
  {
    var b := Ingest(a, e).0;
    forall f | f in Part(a, x, own) ensures f in Part(b, x, own) {
      var id :| id in a.events && a.events[id].executionId == x && a.events[id] !in own && a.events[id] == f;
      assert id in b.events && b.events[id] == f;
    }
  }

  lemma {:induction false} UnrecordedAdmitted(s: State, x: string, own: set<Event>, parts: set<set<Event>>,
                                              actions: seq<Action>)
    requires Part(s.archive, x, own) in parts && forall a | a in actions :: Unrecorded(own, a)
    ensures Admitted(s, x, own, parts, actions)
    decreases |actions|
  {
    if |actions| > 0 {
      assert Unrecorded(own, actions[0]);
      UnrecordedStep(s, x, own, actions[0]);
      UnrecordedAdmitted(Apply(s, actions[0]), x, own, parts, actions[1..]);
    }
  }

  lemma EarlyPart(s: State, x: string, own: set<Event>, seen: set<Event>)
    requires Early(s, x, seen) && OfOne(x, seen) && seen !! own
    ensures Part(s.archive, x, own) == seen
  {
    forall e | e in seen ensures e in Part(s.archive, x, own) {
      assert Stored(s.archive, e);
    }
  }

  lemma {:induction false} RecordingsAdmitted(s: State, x: string, own: set<Event>, parts: set<set<Event>>,
                                              order: seq<Event>, k: nat)
    requires k <= |order| && Recordable(parts, order) && Storable(x, Elements(order)) && Elements(order) !! own
    requires Early(s, x, Elements(order[..k]))
    ensures Admitted(s, x, own, parts, Recordings(order[k..]))
    decreases |order| - k
  {
    EarlyPart(s, x, own, Elements(order[..k]));
    if k < |order| {
      var e := order[k];
      assert e in Elements(order);
      assert Elements(order[..k + 1]) == Elements(order[..k]) + {e};
      forall f | f in Elements(order[..k]) ensures f.eventId != e.eventId {
        assert f in Elements(order) && f != e;
      }
      EarlyStep(s, x, Elements(order[..k]), Record(e));
      RecordingsAdmitted(Apply(s, Record(e)), x, own, parts, order, k + 1);
      assert Recordings(order[k..])[1..] == Recordings(order[k + 1..]);
    }
  }

  // ----- a history for every part -----

  lemma NewInputs(x: string, recorded: seq<Event>, arriving: seq<Event>)
    requires Storable(x, Elements(recorded) + Elements(arriving))
    requires Distinct(recorded) && Distinct(arriving) && Elements(recorded) !! Elements(arriving)
    ensures var inputs := Recordings(recorded) + Arrivals(arriving);
            && (forall a | a in inputs :: Ingests(a)) && NewIds(inputs)
            && EventsIn(inputs) == Elements(recorded) + Elements(arriving)
            && (arriving != [] ==> exists a :: a in inputs && a.Arrive?)
  {
    var inputs := Recordings(recorded) + Arrivals(arriving);
    var events := recorded + arriving;
    forall i | 0 <= i < |inputs| ensures EventIn(inputs[i]) == events[i] {
    }
    forall i, j | 0 <= i < j < |inputs| ensures EventIn(inputs[i]).eventId != EventIn(inputs[j]).eventId {
      assert events[i] in Elements(recorded) + Elements(arriving) && events[j] in Elements(recorded) + Elements(arriving);
      assert events[i] != events[j];
    }
    forall e ensures e in EventsIn(inputs) <==> e in Elements(recorded) + Elements(arriving) {
      if e in recorded {
        var i :| 0 <= i < |recorded| && recorded[i] == e;
        assert inputs[i] in inputs;
      }
      if e in arriving {
        var i :| 0 <= i < |arriving| && arriving[i] == e;
        assert inputs[|recorded| + i] in inputs;
      }
    }
    if arriving != [] {
      assert inputs[|recorded|] in inputs;
    }
  }

  /** Handlers that all run to their end after everything is stored report
      exactly a failing set. */
  lemma FinishedReport(s: State, x: string, seen: set<Event>)
    requires Steady(s, x, seen) && AllFinished(s) && (exists h :: h in s.handlers && h.execution == x)
    ensures Reported(s.archive, x) <==> Failing(x, seen)
  {
    ReportedByName(s.archive, x);
    var h :| h in s.handlers && h.execution == x;
  }

  lemma FirstHandler(s: State, t: State, x: string)
    requires |s.handlers| > 0 && (forall h | h in s.handlers :: h.execution == x) && SameHandlers(s, t)
    ensures exists h :: h in t.handlers && h.execution == x
  {
    assert t.handlers[0] in t.handlers && s.handlers[0] in s.handlers;
  }

  /** The history in which the recordings come first, then the arrivals, and then
      the handlers conclude. */
  lemma IngestThenFinish(x: string, own: set<Event>, parts: set<set<Event>>, part: set<Event>, arriving: set<Event>)
    returns (actions: seq<Action>)
    requires Growing(x, own, parts) && part in parts && arriving <= own && arriving != {}
    ensures Admitted(EMPTY, x, own, parts, actions) && Quiescent(Run(EMPTY, actions), x, arriving)
    ensures Reported(Run(EMPTY, actions).archive, x) <==> Failing(x, part + arriving)
  {
    var inputs := Inputs(x, own, parts, part, arriving);
    var rest := FinishAll(Run(EMPTY, inputs));
    actions := inputs + rest;
    RunAppend(EMPTY, inputs, rest);
    FinishSteady(Run(EMPTY, inputs), x, part + arriving, rest);
    assert AllStored(Run(EMPTY, actions).archive, arriving);
    LocalAdmitted(EMPTY, x, own, parts, inputs, rest);
  }

  lemma LocalAdmitted(s: State, x: string, own: set<Event>, parts: set<set<Event>>, past: seq<Action>, rest: seq<Action>)
    requires Admitted(s, x, own, parts, past) && Part(Run(s, past).archive, x, own) in parts
    requires forall a | a in rest :: Local(a)
    ensures Admitted(s, x, own, parts, past + rest)
  {
    forall a | a in rest ensures Unrecorded(own, a) {
      assert Local(a);
    }
    UnrecordedAdmitted(Run(s, past), x, own, parts, rest);
    AdmittedAppend(s, x, own, parts, past, rest);
  }

  lemma FinishSteady(s: State, x: string, seen: set<Event>, rest: seq<Action>)
    requires Steady(s, x, seen) && OfOne(x, seen) && |s.handlers| > 0 && (forall h | h in s.handlers :: h.execution == x)
    requires (forall a | a in rest :: Local(a)) && AllFinished(Run(s, rest)) && SameHandlers(s, Run(s, rest))
    ensures AllStored(Run(s, rest).archive, seen) && AllFinished(Run(s, rest))
    ensures Reported(Run(s, rest).archive, x) <==> Failing(x, seen)
  {
    SteadyRun(s, x, seen, rest);
    FirstHandler(s, Run(s, rest), x);
    FinishedReport(Run(s, rest), x, seen);
  }

  /** The recordings, then the arrivals: everything stored, nothing read yet. */
  lemma Inputs(x: string, own: set<Event>, parts: set<set<Event>>, part: set<Event>, arriving: set<Event>)
    returns (inputs: seq<Action>)
    requires Growing(x, own, parts) && part in parts && arriving <= own && arriving != {}
    ensures Admitted(EMPTY, x, own, parts, inputs) && Part(Run(EMPTY, inputs).archive, x, own) in parts
    ensures Steady(Run(EMPTY, inputs), x, part + arriving) && OfOne(x, part + arriving)
    ensures |Run(EMPTY, inputs).handlers| > 0 && forall h | h in Run(EMPTY, inputs).handlers :: h.execution == x
  {
    var first := Chain(parts, part);
    var second := Listing(arriving);
    assert Elements(first) == part && Elements(second) == arriving;
    inputs := Recordings(first) + Arrivals(second);
    InputsStorable(x, own, parts, part, arriving);
    InputsStored(x, first, second);
    InputsAdmitted(x, own, parts, first, second);
  }

  lemma InputsStorable(x: string, own: set<Event>, parts: set<set<Event>>, part: set<Event>, arriving: set<Event>)
    requires Beside(x, own, parts) && part in parts && arriving <= own
    ensures Storable(x, part + arriving) && Storable(x, part) && part !! arriving && part !! own
  {
    assert part + own == own + part;
    PartStorable(x, part, own, arriving);
    assert part + {} == part;
    PartStorable(x, part, own, {});
  }

  lemma InputsStored(x: string, first: seq<Event>, second: seq<Event>)
    requires Storable(x, Elements(first) + Elements(second)) && Elements(first) !! Elements(second)
    requires Distinct(first) && Distinct(second) && second != []
    ensures var s := Run(EMPTY, Recordings(first) + Arrivals(second));
            && Steady(s, x, Elements(first) + Elements(second))
            && |s.handlers| > 0 && forall h | h in s.handlers :: h.execution == x
  {
    var inputs := Recordings(first) + Arrivals(second);
    NewInputs(x, first, second);
    EarlyInputs(x, Elements(first) + Elements(second), inputs);
    SoundRun(EMPTY, inputs);
    EarlyIsSteady(Run(EMPTY, inputs), x, Elements(first) + Elements(second));
  }

  lemma InputsAdmitted(x: string, own: set<Event>, parts: set<set<Event>>, order: seq<Event>, arriving: seq<Event>)
    requires Recordable(parts, order) && Storable(x, Elements(order)) && Elements(order) !! own
    requires Elements(arriving) <= own
    ensures Admitted(EMPTY, x, own, parts, Recordings(order) + Arrivals(arriving))
    ensures Part(Run(EMPTY, Recordings(order) + Arrivals(arriving)).archive, x, own) in parts
  {
    assert order[..0] == [] && order[0..] == order;
    RecordingsAdmitted(EMPTY, x, own, parts, order, 0);
    RunAppend(EMPTY, Recordings(order), Arrivals(arriving));
    AdmittedEnds(EMPTY, x, own, parts, Recordings(order));
    forall a | a in Arrivals(arriving) ensures Unrecorded(own, a) {
      assert a.event in Elements(arriving);
    }
    UnrecordedAdmitted(Run(EMPTY, Recordings(order)), x, own, parts, Arrivals(arriving));
    AdmittedEnds(Run(EMPTY, Recordings(order)), x, own, parts, Arrivals(arriving));
    AdmittedAppend(EMPTY, x, own, parts, Recordings(order), Arrivals(arriving));
  }

  lemma {:induction false} AdmittedEnds(s: State, x: string, own: set<Event>, parts: set<set<Event>>, actions: seq<Action>)
    requires Admitted(s, x, own, parts, actions)
    ensures Part(Run(s, actions).archive, x, own) in parts
    decreases |actions|
  {
    if |actions| > 0 {
      AdmittedEnds(Apply(s, actions[0]), x, own, parts, actions[1..]);
    }
  }

  lemma EarlyInputs(x: string, all: set<Event>, inputs: seq<Action>)
    requires Storable(x, all) && (forall a | a in inputs :: Ingests(a)) && NewIds(inputs) && EventsIn(inputs) == all
    requires exists a :: a in inputs && a.Arrive?
    ensures Early(Run(EMPTY, inputs), x, all) && |Run(EMPTY, inputs).handlers| > 0
    ensures forall h | h in Run(EMPTY, inputs).handlers :: h.execution == x
  {
    forall a | a in inputs ensures EventIn(a) in all {
    }
    EarlyRun(EMPTY, x, {}, inputs);
    assert {} + EventsIn(inputs) == all;
  }

  // ----- what a report presupposes -----

  /** Some of the arrived events, at least one, fail together with a recorded
      part. */
  ghost predicate SomeFails(x: string, own: set<Event>, parts: set<set<Event>>) {
    exists seen :: seen * own != {} && seen - own in parts && Failing(x, seen)
  }

  /** An event of the execution has arrived. */
  ghost predicate Begun(a: Archive, x: string, own: set<Event>) {
    exists e :: e in own && e.executionId == x && Stored(a, e)
  }

  ghost predicate Glimpsed(events: seq<Event>, own: set<Event>, parts: set<set<Event>>) {
    Elements(events) * own != {} && Elements(events) - own in parts
  }

  ghost predicate Grounded(s: State, x: string, own: set<Event>, parts: set<set<Event>>) {
    && Sound(s)
    && (forall h | h in s.handlers && h.execution == x :: Begun(s.archive, x, own))
    && (forall h | h in s.handlers && h.execution == x && h.pc.Holding? :: Glimpsed(h.pc.events, own, parts))
    && (IncidentIdOf(x) in s.archive.incidents ==> SomeFails(x, own, parts))
  }

  lemma BegunStays(a: Archive, b: Archive, x: string, own: set<Event>)
    requires Begun(a, x, own) && Grows(a, b)
    ensures Begun(b, x, own)
  {
    var e :| e in own && e.executionId == x && Stored(a, e);
    assert Stored(b, e);
  }

  lemma BegunRead(a: Archive, x: string, own: set<Event>, parts: set<set<Event>>, events: seq<Event>)
    requires ArchiveInv(a) && Begun(a, x, own) && Reads(a.events, OfExecution(x), events) && Part(a, x, own) in parts
    ensures Glimpsed(events, own, parts)
  {
    ReadsSnapshot(a, x, events);
    var e :| e in own && e.executionId == x && Stored(a, e);
    assert e in Elements(events) * own;
    assert Elements(events) - own == Part(a, x, own);
  }

  /** Whoever was there before has begun still; who joins has its own event. */
  lemma JoinedBegun(s: State, x: string, own: set<Event>, parts: set<set<Event>>, action: Action, h: Handler)
    requires Grounded(s, x, own, parts) && Ingests(action) && Allowed(x, own, action)
    requires Grows(s.archive, Apply(s, action).archive)
    requires h in Apply(s, action).handlers && h.execution == x
    ensures Begun(Apply(s, action).archive, x, own) && (h.pc.Holding? ==> h in s.handlers)
  {
    if h in s.handlers {
      BegunStays(s.archive, Apply(s, action).archive, x, own);
    } else {
      assert Stored(Apply(s, action).archive, action.event);
    }
  }

  lemma IngestKeepsIncidents(s: State, action: Action)
    requires Ingests(action)
    ensures Apply(s, action).archive.incidents == s.archive.incidents
  {
  }

  lemma GroundedIngest(s: State, x: string, own: set<Event>, parts: set<set<Event>>, action: Action)
    requires Grounded(s, x, own, parts) && Ingests(action) && Allowed(x, own, action)
    ensures Grounded(Apply(s, action), x, own, parts)
  {
    var t := Apply(s, action);
    SoundStep(s, action);
    IngestKeepsIncidents(s, action);
    forall h | h in t.handlers && h.execution == x
      ensures Begun(t.archive, x, own) && (h.pc.Holding? ==> h in s.handlers)
    {
      JoinedBegun(s, x, own, parts, action, h);
    }
  }

  lemma GroundedLoad(s: State, x: string, own: set<Event>, parts: set<set<Event>>, h: nat, events: seq<Event>)
    requires Grounded(s, x, own, parts) && Part(s.archive, x, own) in parts
    ensures Grounded(Apply(s, Load(h, events)), x, own, parts)
  {
    var t := Apply(s, Load(h, events));
    LoadSound(s, h, events);
    if t != s {
      var loaded := s.handlers[h].(pc := Holding(events));
      assert s.handlers[h] in s.handlers;
      if loaded.execution == x {
        BegunRead(s.archive, x, own, parts, events);
      }
      forall k | k in t.handlers ensures k in s.handlers || k == loaded {
        MovedMembers(s.handlers, h, Holding(events), k);
      }
    }
  }

  lemma GroundedConclusion(s: State, x: string, own: set<Event>, parts: set<set<Event>>, h: nat,
                           put: Option<(Incident, ExecutionGraph)>, err: Option<DetectError>)
    requires Grounded(s, x, own, parts) && CanConclude(s, h, put, err)
    ensures IncidentIdOf(x) in AfterPut(s.archive, put).incidents ==> SomeFails(x, own, parts)
  {
    var k := s.handlers[h];
    assert k in s.handlers && Honest(s.archive, k);
    if k.execution != x {
      PutElsewhere(s.archive, x, k.execution, k.pc.events, put, err);
    } else {
      DetectableIsFailing(s.archive, x, k.pc.events);
      if !Failing(x, Elements(k.pc.events)) {
        NothingReported(s.archive, x, k.pc.events, put, err);
      }
    }
  }

  lemma GroundedConclude(s: State, x: string, own: set<Event>, parts: set<set<Event>>, h: nat,
                         put: Option<(Incident, ExecutionGraph)>, err: Option<DetectError>)
    requires Grounded(s, x, own, parts)
    ensures Grounded(Apply(s, Conclude(h, put, err)), x, own, parts)
  {
    ConcludeSound(s, h, put, err);
    if CanConclude(s, h, put, err) {
      GroundedConclusion(s, x, own, parts, h, put, err);
      AfterPutEvents(s.archive, put);
      GroundedAfter(s, x, own, parts, h, AfterPut(s.archive, put));
    }
  }

  lemma GroundedAfter(s: State, x: string, own: set<Event>, parts: set<set<Event>>, h: nat, b: Archive)
    requires Grounded(s, x, own, parts) && h < |s.handlers| && b.events == s.archive.events
    requires Sound(State(b, Moved(s.handlers, h, Finished)))
    requires IncidentIdOf(x) in b.incidents ==> SomeFails(x, own, parts)
    ensures Grounded(State(b, Moved(s.handlers, h, Finished)), x, own, parts)
  {
    forall k | k in Moved(s.handlers, h, Finished) ensures k in s.handlers || k == s.handlers[h].(pc := Finished) {
      MovedMembers(s.handlers, h, Finished, k);
    }
    assert s.handlers[h] in s.handlers;
    if Begun(s.archive, x, own) {
      assert Begun(b, x, own) by {
        var e :| e in own && e.executionId == x && Stored(s.archive, e);
        assert Stored(b, e);
      }
    }
  }

  lemma {:induction false} GroundedRun(s: State, x: string, own: set<Event>, parts: set<set<Event>>, actions: seq<Action>)
    requires Grounded(s, x, own, parts) && Admitted(s, x, own, parts, actions)
    ensures Grounded(Run(s, actions), x, own, parts)
    decreases |actions|
  {
    if |actions| > 0 {
      match actions[0] {
        case Load(h, events) => GroundedLoad(s, x, own, parts, h, events);
        case Conclude(h, put, err) => GroundedConclude(s, x, own, parts, h, put, err);
        case _ => GroundedIngest(s, x, own, parts, actions[0]);
      }
      GroundedRun(Apply(s, actions[0]), x, own, parts, actions[1..]);
    }
  }

  /** Whatever is reported has been seen failing. */
  lemma NoFalseAlarm(x: string, own: set<Event>, parts: set<set<Event>>, actions: seq<Action>)
    requires Admitted(EMPTY, x, own, parts, actions) && Reported(Run(EMPTY, actions).archive, x)
    ensures SomeFails(x, own, parts)
  {
    GroundedRun(EMPTY, x, own, parts, actions);
    ReportedByName(Run(EMPTY, actions).archive, x);
  }

  // ----- exactly when -----

  ghost predicate CanBeReported(x: string, own: set<Event>, parts: set<set<Event>>) {
    exists actions :: Admitted(EMPTY, x, own, parts, actions) && Reported(Run(EMPTY, actions).archive, x)
  }

  /** The execution can come to be reported exactly when some of its events, an
      arrived one among them, fail as they are. */
  lemma CanBeReportedExactly(x: string, own: set<Event>, parts: set<set<Event>>)
    requires Growing(x, own, parts)
    ensures CanBeReported(x, own, parts) <==> SomeFails(x, own, parts)
  {
    if CanBeReported(x, own, parts) {
      var actions :| Admitted(EMPTY, x, own, parts, actions) && Reported(Run(EMPTY, actions).archive, x);
      NoFalseAlarm(x, own, parts, actions);
    }
    if SomeFails(x, own, parts) {
      var seen :| seen * own != {} && seen - own in parts && Failing(x, seen);
      var actions := SeenHistory(x, own, parts, seen);
    }
  }

  /** A history in which just the events of `seen` are stored. */
  lemma SeenHistory(x: string, own: set<Event>, parts: set<set<Event>>, seen: set<Event>) returns (actions: seq<Action>)
    requires Growing(x, own, parts) && seen * own != {} && seen - own in parts
    ensures Admitted(EMPTY, x, own, parts, actions)
    ensures Failing(x, seen) ==> Reported(Run(EMPTY, actions).archive, x)
  {
    actions := IngestThenFinish(x, own, parts, seen - own, seen * own);
    assert (seen - own) + (seen * own) == seen;
  }

  ghost predicate AlwaysReported(x: string, own: set<Event>, parts: set<set<Event>>) {
    forall actions | Admitted(EMPTY, x, own, parts, actions) && Quiescent(Run(EMPTY, actions), x, own) ::
      Reported(Run(EMPTY, actions).archive, x)
  }

  /** Every complete history reports the execution exactly when its own events
      fail together with every part of the recorded ones. */
  lemma AlwaysReportedExactly(x: string, own: set<Event>, parts: set<set<Event>>)
    requires Growing(x, own, parts)
    ensures AlwaysReported(x, own, parts) <==> Robust(x, own, parts)
  {
    if Robust(x, own, parts) {
      forall actions | Admitted(EMPTY, x, own, parts, actions) && Quiescent(Run(EMPTY, actions), x, own)
        ensures Reported(Run(EMPTY, actions).archive, x)
      {
        DetectionConverges(x, own, parts, actions, []);
      }
    } else {
      var actions := MissingHistory(x, own, parts);
    }
  }

  lemma MissingHistory(x: string, own: set<Event>, parts: set<set<Event>>) returns (actions: seq<Action>)
    requires Growing(x, own, parts) && !Robust(x, own, parts)
    ensures Admitted(EMPTY, x, own, parts, actions) && Quiescent(Run(EMPTY, actions), x, own)
    ensures !Reported(Run(EMPTY, actions).archive, x)
  {
    if own == {} {
      actions := [];
      NothingRecorded(x, own);
    } else {
      var part :| part in parts && !Failing(x, own + part);
      assert part + own == own + part;
      actions := IngestThenFinish(x, own, parts, part, own);
    }
  }

  // ----- recordings that do no harm -----

  /** The event fits in: same trace, and its parent, if any, is there too. */
  ghost predicate FitsIn(own: set<Event>, part: set<Event>, e: Event) {
    && (forall f | f in own :: f.traceId == e.traceId)
    && (e.parentId != "" ==> exists p :: p in own + part && p != e && p.eventId == e.parentId)
  }

  ghost predicate AllFitIn(own: set<Event>, parts: set<set<Event>>) {
    forall part | part in parts :: PartFitsIn(own, part)
  }

  ghost predicate PartFitsIn(own: set<Event>, part: set<Event>) {
    forall e | e in part :: FitsIn(own, part, e)
  }

  lemma FiresWider(a: seq<Event>, b: seq<Event>)
    requires Fires(a) && Distinct(a) && Elements(a) <= Elements(b)
    ensures Fires(b)
  {
    PartOfBag(a, b);
    IdsMonotone(a, b);
    var id :| id in LogicalIds(a) && Matches(a, id);
    GroupMonotone(a, b, id);
    assert Matches(b, id);
  }

  lemma PartOfBag(part: seq<Event>, whole: seq<Event>)
    requires Distinct(part) && Elements(part) <= Elements(whole)
    ensures multiset(part) <= multiset(whole)
  {
    forall e ensures multiset(part)[e] <= multiset(whole)[e] {
      DistinctCount(part, e);
      if e in part {
        assert e in Elements(part);
        assert e in multiset(whole);
      }
    }
  }

  ghost predicate ParentsIn(own: set<Event>, all: set<Event>) {
    forall e | e in all && e.parentId != "" :: exists o :: o in own && o.eventId == e.parentId
  }

  /** Events that fit in leave an acyclic parent relation acyclic. */
  lemma {:induction false} WalkStaysInside(own: set<Event>, part: set<Event>, p: seq<string>, k: nat)
    requires DistinctIdSet(own + part) && own !! part && k + 1 < |p| && Walk(ParentArcs(own + part), p)
    requires ParentsIn(own, own + part)
    ensures exists o :: o in own && o.eventId == p[k]
  {
    assert Link(ParentArcs(own + part), p, k + 1);
  }

  lemma FittingAcyclic(own: set<Event>, part: set<Event>)
    requires DistinctIdSet(own + part) && own !! part && !Cyclic(ParentArcs(own))
    requires ParentsIn(own, own + part)
    ensures !Cyclic(ParentArcs(own + part))
  {
    var arcs := ParentArcs(own + part);
    if Cyclic(arcs) {
      var p :| Closed(arcs, p);
      forall i | 0 < i < |p| ensures Link(ParentArcs(own), p, i) {
        assert Link(arcs, p, i);
        if i + 1 < |p| {
          WalkStaysInside(own, part, p, i);
        } else {
          WalkStaysInside(own, part, p, 0);
        }
        var o :| o in own && o.eventId == p[i];
        var e :| e in own + part && e.parentId == p[i - 1] && e.eventId == p[i] && e.parentId != "";
        assert e == o;
      }
      assert Closed(ParentArcs(own), p);
    }
  }

  /** A new event whose parent is there already closes no circle. */
  lemma SinkSettled(all: set<Event>, e: Event)
    requires DistinctIdSet(all + {e}) && e !in all && ParentsSettled(all)
    requires e.parentId != "" ==> exists p :: p in all && p.eventId == e.parentId
    ensures ParentsSettled(all + {e})
  {
    FittingAcyclic(all, {e});
    forall f | f in all + {e} && f.parentId != ""
      ensures f.parentId != f.eventId && exists p :: p in all + {e} && p.eventId == f.parentId
    {
      var p :| p in all && p.eventId == f.parentId;
      assert p in all + {e};
    }
  }

  lemma {:induction false} FittingSettled(x: string, own: set<Event>, parts: set<set<Event>>, part: set<Event>)
    requires Growing(x, own, parts) && ParentsSettled(own) && AllFitIn(own, parts) && part in parts
    ensures ParentsSettled(own + part)
    decreases |part|
  {
    if part == {} {
      assert own + part == own;
    } else {
      var e: Event :| Newest(parts, part, e);
      FittingSettled(x, own, parts, part - {e});
      FittingOne(x, own, part, e);
    }
  }

  lemma FittingOne(x: string, own: set<Event>, part: set<Event>, e: Event)
    requires Storable(x, own + part) && part !! own && e in part && PartFitsIn(own, part)
    requires ParentsSettled(own + (part - {e}))
    ensures ParentsSettled(own + part)
  {
    var all := own + (part - {e});
    assert all + {e} == own + part;
    assert FitsIn(own, part, e);
    if e.parentId != "" {
      var p :| p in own + part && p != e && p.eventId == e.parentId;
      assert p in all;
    }
    SinkSettled(all, e);
  }

  lemma FittingFires(own: set<Event>, part: set<Event>, listing: seq<Event>)
    requires Enumerates(listing, own) && Fires(listing)
    ensures exists wider :: Enumerates(wider, own + part) && Fires(wider)
  {
    var wider := Listing(own + part);
    assert Elements(listing) <= Elements(wider);
    FiresWider(listing, wider);
  }

  lemma OneTraceWider(x: string, own: set<Event>, parts: set<set<Event>>, part: set<Event>)
    requires own != {} && AllFitIn(own, parts) && part in parts
    requires forall e, f | e in own && f in own :: e.traceId == f.traceId
    ensures forall e, f | e in own + part && f in own + part :: e.traceId == f.traceId
  {
    var o :| o in own;
    forall e | e in own + part ensures e.traceId == o.traceId {
      if e in part {
        assert PartFitsIn(own, part) && FitsIn(own, part, e);
      }
    }
  }

  lemma FittingFails(x: string, own: set<Event>, parts: set<set<Event>>, part: set<Event>)
    requires Failing(x, own) && Growing(x, own, parts) && AllFitIn(own, parts) && part in parts
    ensures Failing(x, own + part)
  {
    FailingNotEmpty(x, own);
    FittingSettled(x, own, parts, part);
    var listing :| Enumerates(listing, own) && Fires(listing);
    FittingFires(own, part, listing);
    OneTraceWider(x, own, parts, part);
    assert Storable(x, own + part);
  }

  lemma MisfitHides(x: string, own: set<Event>, part: set<Event>, e: Event)
    requires OfOne(x, own) && e in part && !FitsIn(own, part, e)
    ensures !Failing(x, own + part)
  {
    var all := own + part;
    assert e in all && forall f | f in own :: f in all;
    if ParentsSettled(all) && e.parentId != "" {
      var p :| p in all && p.eventId == e.parentId;
    }
  }

  /** An execution that fails on its own stays failing whatever is recorded
      exactly when every recorded event fits in at any time. */
  lemma RobustExactly(x: string, own: set<Event>, parts: set<set<Event>>)
    requires Failing(x, own) && Growing(x, own, parts)
    ensures Robust(x, own, parts) <==> AllFitIn(own, parts)
  {
    if AllFitIn(own, parts) {
      AllFitRobust(x, own, parts);
    } else {
      MisfitFragile(x, own, parts);
    }
  }

  lemma AllFitRobust(x: string, own: set<Event>, parts: set<set<Event>>)
    requires Failing(x, own) && Growing(x, own, parts) && AllFitIn(own, parts)
    ensures Robust(x, own, parts)
  {
    forall part | part in parts ensures Failing(x, own + part) {
      FittingFails(x, own, parts, part);
    }
  }

  lemma MisfitFragile(x: string, own: set<Event>, parts: set<set<Event>>)
    requires OfOne(x, own) && !AllFitIn(own, parts)
    ensures !Robust(x, own, parts)
  {
    var part :| part in parts && !PartFitsIn(own, part);
    var e :| e in part && !FitsIn(own, part, e);
    MisfitHides(x, own, part, e);
  }

  /** When recorded replay events can make a failing execution go unreported. */
  lemma MissedExactly(x: string, own: set<Event>, parts: set<set<Event>>)
    requires Failing(x, own) && Growing(x, own, parts)
    ensures AlwaysReported(x, own, parts) <==> AllFitIn(own, parts)
  {
    RobustExactly(x, own, parts);
    AlwaysReportedExactly(x, own, parts);
  }

  /** Recorded replay events change whether the execution can, or must, be
      reported. */
  ghost predicate RecordingsMatter(x: string, own: set<Event>, parts: set<set<Event>>) {
    || CanBeReported(x, own, parts) != CanBeReported(x, own, NOTHING)
    || AlwaysReported(x, own, parts) != AlwaysReported(x, own, NOTHING)
  }

  /** Exactly when they do: the execution fails on its own and some recorded
      event does not fit in; or its own events never fail, and with recorded ones
      they can. */
  lemma RecordingsMatterExactly(x: string, own: set<Event>, parts: set<set<Event>>)
    requires Growing(x, own, parts)
    ensures RecordingsMatter(x, own, parts) <==>
            || (Failing(x, own) && !AllFitIn(own, parts))
            || (SomeFails(x, own, parts) && !SomeFails(x, own, NOTHING))
  {
    GrowingAlone(x, own, parts);
    NothingGrows(x, own);
    CanBeReportedExactly(x, own, parts);
    CanBeReportedExactly(x, own, NOTHING);
    SomeFailsWider(x, own, parts);
    AlwaysByFit(x, own, parts);
    AlwaysByFit(x, own, NOTHING);
  }

  lemma AlwaysByFit(x: string, own: set<Event>, parts: set<set<Event>>)
    requires Growing(x, own, parts)
    ensures AlwaysReported(x, own, parts) <==> Failing(x, own) && AllFitIn(own, parts)
    ensures AllFitIn(own, NOTHING)
  {
    if Failing(x, own) {
      MissedExactly(x, own, parts);
    } else {
      AlwaysReportedExactly(x, own, parts);
      NotRobust(x, own, parts);
    }
  }

  lemma GrowingAlone(x: string, own: set<Event>, parts: set<set<Event>>)
    requires Growing(x, own, parts)
    ensures Storable(x, own)
  {
    assert own + {} == own;
  }

  lemma NotRobust(x: string, own: set<Event>, parts: set<set<Event>>)
    requires !Failing(x, own) && {} in parts
    ensures !Robust(x, own, parts)
  {
    assert own + {} == own;
  }

  lemma SomeFailsWider(x: string, own: set<Event>, parts: set<set<Event>>)
    requires {} in parts
    ensures SomeFails(x, own, NOTHING) ==> SomeFails(x, own, parts)
  {
    if SomeFails(x, own, NOTHING) {
      var seen :| seen * own != {} && seen - own in NOTHING && Failing(x, seen);
      assert seen - own == {};
    }
  }
}
