/** Many request handlers detecting concurrently. A handler ingests its event,
    loads its execution's events, and concludes from what it loaded; each of the
    three is one atomic store call, and other handlers run in between. Actions
    that are not enabled do nothing. */
module Convergence {
  import opened Basics
  import opened Contracts
  import opened Emission
  import opened Ordering
  import opened RunTimeline
  import opened Oracle
  import opened Incidents
  import opened Detection

  datatype Pc = Loading | Holding(events: seq<Event>) | Finished

  datatype Handler = Handler(execution: string, pc: Pc)

  datatype State = State(archive: Archive, handlers: seq<Handler>)

  /** `Record` is an event stored by a replay worker, without detection. */
  datatype Action =
    | Arrive(event: Event)
    | Record(event: Event)
    | Load(h: nat, events: seq<Event>)
    | Conclude(h: nat, put: Option<(Incident, ExecutionGraph)>, err: Option<DetectError>)

  function Moved(handlers: seq<Handler>, h: nat, pc: Pc): seq<Handler>
    requires h < |handlers|
  {
    handlers[h := handlers[h].(pc := pc)]
  }

  ghost function AfterPut(a: Archive, put: Option<(Incident, ExecutionGraph)>): Archive {
    if put.Some? then PutIncident(a, put.value.0, put.value.1).0 else a
  }

  ghost predicate CanConclude(s: State, h: nat, put: Option<(Incident, ExecutionGraph)>, err: Option<DetectError>) {
    && h < |s.handlers| && s.handlers[h].pc.Holding?
    && Concludes(s.archive, s.handlers[h].execution, s.handlers[h].pc.events, AfterPut(s.archive, put), put, err)
  }

  ghost function Apply(s: State, action: Action): State {
    match action
    case Arrive(e) =>
      if Ingest(s.archive, e).1.Some? then s
      else State(Ingest(s.archive, e).0, s.handlers + [Handler(e.executionId, Loading)])
    case Record(e) => s.(archive := Ingest(s.archive, e).0)
    case Load(h, events) =>
      if h < |s.handlers| && s.handlers[h].pc.Loading?
         && Reads(s.archive.events, OfExecution(s.handlers[h].execution), events)
      then s.(handlers := Moved(s.handlers, h, Holding(events)))
      else s
    case Conclude(h, put, err) =>
      if CanConclude(s, h, put, err) then
        State(AfterPut(s.archive, put), Moved(s.handlers, h, Finished))
      else s
  }

  ghost function Run(s: State, actions: seq<Action>): State
    decreases |actions|
  {
    if |actions| == 0 then s else Run(Apply(s, actions[0]), actions[1..])
  }

  const EMPTY := State(Archive(map[], map[], map[]), [])

  // ----- what holds throughout -----

  /** Incidents and graphs are named after their execution. */
  ghost predicate Named(a: Archive) {
    forall id | id in a.incidents ::
      id == IncidentIdOf(a.incidents[id].executionId) && a.incidents[id].graphId == GraphIdOf(a.incidents[id].executionId)
  }

  ghost predicate Honest(a: Archive, h: Handler) {
    h.pc.Holding? ==> Snapshot(a, h.execution, h.pc.events)
  }

  ghost predicate Sound(s: State) {
    && ArchiveInv(s.archive) && Named(s.archive)
    && forall h | h in s.handlers :: Honest(s.archive, h)
  }

  /** An incident's name identifies its execution, and its graph's name too. */
  lemma NameTaken(a: Archive, x: string)
    requires ArchiveInv(a) && Named(a) && GraphIdOf(x) in a.graphs
    ensures IncidentIdOf(x) in a.incidents
  {
    var id := a.graphs[GraphIdOf(x)].incidentId;
    var y := a.incidents[id].executionId;
    assert GraphIdOf(x)[6..] == x && GraphIdOf(y)[6..] == y;
  }

  lemma AfterPutKeeps(a: Archive, x: string, events: seq<Event>, put: Option<(Incident, ExecutionGraph)>,
                      err: Option<DetectError>)
    requires ArchiveInv(a) && Named(a) && Concludes(a, x, events, AfterPut(a, put), put, err)
    ensures ArchiveInv(AfterPut(a, put)) && Named(AfterPut(a, put)) && Grows(a, AfterPut(a, put))
  {
    if put.Some? {
      var (i, g) := put.value;
      PutIncidentKeepsInv(a, i, g);
      PutIncidentAdds(a, i, g);
      PreparedNames(x, events, i, g);
    }
  }

  lemma PreparedNames(x: string, events: seq<Event>, i: Incident, g: ExecutionGraph)
    requires Prepared(x, events, i, g)
    ensures i.incidentId == IncidentIdOf(x) && i.graphId == GraphIdOf(x) && i.executionId == x && g.graphId == GraphIdOf(x)
  {
  }

  lemma IngestAdds(a: Archive, e: Event)
    requires ArchiveInv(a) && Named(a)
    ensures ArchiveInv(Ingest(a, e).0) && Named(Ingest(a, e).0) && Grows(a, Ingest(a, e).0)
  {
    IngestKeepsInv(a, e);
  }

  lemma HonestGrows(a: Archive, b: Archive, handlers: seq<Handler>)
    requires Grows(a, b) && forall h | h in handlers :: Honest(a, h)
    ensures forall h | h in handlers :: Honest(b, h)
  {
  }

  lemma SoundStep(s: State, action: Action)
    requires Sound(s)
    ensures Sound(Apply(s, action)) && Grows(s.archive, Apply(s, action).archive)
  {
    match action
    case Arrive(e) =>
      IngestAdds(s.archive, e);
      HonestGrows(s.archive, Ingest(s.archive, e).0, s.handlers);
    case Record(e) =>
      IngestAdds(s.archive, e);
      HonestGrows(s.archive, Ingest(s.archive, e).0, s.handlers);
    case Load(h, events) =>
      LoadSound(s, h, events);
    case Conclude(h, put, err) =>
      ConcludeSound(s, h, put, err);
  }

  lemma LoadSound(s: State, h: nat, events: seq<Event>)
    requires Sound(s)
    ensures Sound(Apply(s, Load(h, events))) && Grows(s.archive, Apply(s, Load(h, events)).archive)
  {
    var t := Apply(s, Load(h, events));
    if t != s {
      ReadsSnapshot(s.archive, s.handlers[h].execution, events);
      MovedHonest(s.archive, s.handlers, h, Holding(events));
    }
  }

  lemma MovedHonest(a: Archive, handlers: seq<Handler>, h: nat, pc: Pc)
    requires h < |handlers| && Honest(a, handlers[h].(pc := pc)) && forall k | k in handlers :: Honest(a, k)
    ensures forall k | k in Moved(handlers, h, pc) :: Honest(a, k)
  {
    forall k | k in Moved(handlers, h, pc) ensures Honest(a, k) {
      var j :| 0 <= j < |handlers| && Moved(handlers, h, pc)[j] == k;
      if j != h {
        assert k == handlers[j];
      }
    }
  }

  lemma ConcludeSound(s: State, h: nat, put: Option<(Incident, ExecutionGraph)>, err: Option<DetectError>)
    requires Sound(s)
    ensures Sound(Apply(s, Conclude(h, put, err))) && Grows(s.archive, Apply(s, Conclude(h, put, err)).archive)
  {
    var t := Apply(s, Conclude(h, put, err));
    if CanConclude(s, h, put, err) {
      AfterPutKeeps(s.archive, s.handlers[h].execution, s.handlers[h].pc.events, put, err);
      HonestGrows(s.archive, t.archive, s.handlers);
      MovedHonest(t.archive, s.handlers, h, Finished);
    }
  }

  lemma GrowsTransitive(a: Archive, b: Archive, c: Archive)
    requires Grows(a, b) && Grows(b, c)
    ensures Grows(a, c)
  {
  }

  /** Over any history the archive stays sound and only grows. */
  lemma {:induction false} SoundRun(s: State, actions: seq<Action>)
    requires Sound(s)
    ensures Sound(Run(s, actions)) && Grows(s.archive, Run(s, actions).archive)
    decreases |actions|
  {
    if |actions| > 0 {
      var t := Apply(s, actions[0]);
      SoundStep(s, actions[0]);
      SoundRun(t, actions[1..]);
      GrowsTransitive(s.archive, t.archive, Run(t, actions[1..]).archive);
    }
  }

  // ----- an execution that fails -----

  ghost predicate OfOne(x: string, all: set<Event>) {
    forall e | e in all :: e.executionId == x
  }

  /** All events of one execution: one trace, all parents present, no parent
      cycle, and the oracle fires on the whole. */
  ghost predicate Failing(x: string, all: set<Event>) {
    && OfOne(x, all)
    && (forall e, f | e in all && f in all :: e.traceId == f.traceId)
    && ParentsSettled(all)
    && exists listing :: Enumerates(listing, all) && Fires(listing)
  }

  ghost predicate Stored(a: Archive, e: Event) {
    e.eventId in a.events && a.events[e.eventId] == e
  }

  /** The recorded replay events of the execution that are stored. */
  ghost function Part(a: Archive, x: string, own: set<Event>): set<Event> {
    set id | id in a.events && a.events[id].executionId == x && a.events[id] !in own :: a.events[id]
  }

  /** Of the execution, only events of `own` arrive with requests, and replay
      workers record only others. */
  ghost predicate Allowed(x: string, own: set<Event>, action: Action) {
    match action
    case Arrive(e) => e.executionId == x ==> e in own
    case Record(e) => e.executionId == x ==> e !in own
    case _ => true
  }

  /** All actions are allowed, and at any time the recorded events of the
      execution are one of `parts`. */
  ghost predicate Admitted(s: State, x: string, own: set<Event>, parts: set<set<Event>>, actions: seq<Action>)
    decreases |actions|
  {
    && Part(s.archive, x, own) in parts
    && (|actions| > 0 ==>
          Allowed(x, own, actions[0]) && Admitted(Apply(s, actions[0]), x, own, parts, actions[1..]))
  }

  /** The execution fails whichever recorded events are in. */
  ghost predicate Robust(x: string, own: set<Event>, parts: set<set<Event>>) {
    forall part | part in parts :: Failing(x, own + part)
  }

  /** The events are all arrived ones and one of `parts`. */
  ghost predicate Whole(events: seq<Event>, own: set<Event>, parts: set<set<Event>>) {
    exists part :: part in parts && Elements(events) == own + part
  }

  /** A handler that will still see all arrived events, or has seen them. */
  ghost predicate Sighted(h: Handler, x: string, own: set<Event>, parts: set<set<Event>>) {
    h.execution == x && (h.pc.Loading? || (h.pc.Holding? && Whole(h.pc.events, own, parts)))
  }

  ghost predicate AllStored(a: Archive, events: set<Event>) {
    forall e | e in events :: Stored(a, e)
  }

  ghost predicate Covered(s: State, x: string, own: set<Event>, parts: set<set<Event>>) {
    AllStored(s.archive, own) ==>
      IncidentIdOf(x) in s.archive.incidents || exists h :: h in s.handlers && Sighted(h, x, own, parts)
  }

  lemma FullSetDetectable(a: Archive, x: string, all: set<Event>, events: seq<Event>)
    requires ArchiveInv(a) && Failing(x, all) && Snapshot(a, x, events) && Elements(events) == all
    ensures Detectable(events) && OneTrace(events)
  {
    SnapshotOk(a, x, events);
    var listing :| Enumerates(listing, all) && Fires(listing);
    forall e ensures e in events <==> e in all {
      assert e in Elements(events) <==> e in events;
    }
    EnumerationsAgree(listing, events, all);
    MatchingPermutation(listing, events);
    var id :| id in LogicalIds(listing) && Matches(listing, id);
    assert id in Matching(events);
  }

  /** A handler that holds a failing set leaves the incident stored. */
  lemma FailingConcludes(a: Archive, x: string, events: seq<Event>, put: Option<(Incident, ExecutionGraph)>,
                         err: Option<DetectError>)
    requires ArchiveInv(a) && Named(a) && Failing(x, Elements(events)) && Snapshot(a, x, events)
    requires Concludes(a, x, events, AfterPut(a, put), put, err)
    ensures IncidentIdOf(x) in AfterPut(a, put).incidents
  {
    FullSetDetectable(a, x, Elements(events), events);
    var (i, g) := put.value;
    PreparedNames(x, events, i, g);
    PreparedAccepted(a, x, events, i, g);
    PutIncidentAdds(a, i, g);
    if GraphIdOf(x) in a.graphs {
      NameTaken(a, x);
    }
  }

  lemma NotStoredYet(a: Archive, e: Event, own: set<Event>)
    requires e !in own && AllStored(Ingest(a, e).0, own)
    ensures AllStored(a, own)
  {
  }

  lemma ArriveCovers(s: State, x: string, own: set<Event>, parts: set<set<Event>>, e: Event)
    requires Sound(s) && OfOne(x, own) && Covered(s, x, own, parts) && (e.executionId == x ==> e in own)
    ensures Covered(Apply(s, Arrive(e)), x, own, parts)
  {
    var t := Apply(s, Arrive(e));
    if t != s && AllStored(t.archive, own) {
      var joined := Handler(e.executionId, Loading);
      assert joined in t.handlers;
      if e.executionId != x {
        NotStoredYet(s.archive, e, own);
        if IncidentIdOf(x) !in t.archive.incidents {
          var h :| h in s.handlers && Sighted(h, x, own, parts);
          assert h in t.handlers;
        }
      }
    }
  }

  lemma RecordCovers(s: State, x: string, own: set<Event>, parts: set<set<Event>>, e: Event)
    requires Covered(s, x, own, parts) && e !in own
    ensures Covered(Apply(s, Record(e)), x, own, parts)
  {
    if AllStored(Apply(s, Record(e)).archive, own) {
      NotStoredYet(s.archive, e, own);
    }
  }

  /** Moving one handler leaves every other one where it was. */
  lemma OthersStay(handlers: seq<Handler>, h: nat, pc: Pc, k: Handler)
    requires h < |handlers| && k in handlers && k != handlers[h]
    ensures k in Moved(handlers, h, pc)
  {
    var j :| 0 <= j < |handlers| && handlers[j] == k;
    assert Moved(handlers, h, pc)[j] == k;
  }

  lemma LoadCovers(s: State, x: string, own: set<Event>, parts: set<set<Event>>, h: nat, events: seq<Event>)
    requires Sound(s) && OfOne(x, own) && Covered(s, x, own, parts) && Part(s.archive, x, own) in parts
    ensures Covered(Apply(s, Load(h, events)), x, own, parts)
  {
    var t := Apply(s, Load(h, events));
    if t != s && IncidentIdOf(x) !in s.archive.incidents && AllStored(s.archive, own) {
      var k :| k in s.handlers && Sighted(k, x, own, parts);
      if k == s.handlers[h] {
        FullLoad(s.archive, x, own, events);
        assert Whole(events, own, parts);
        assert Moved(s.handlers, h, Holding(events))[h] in t.handlers;
      } else {
        OthersStay(s.handlers, h, Holding(events), k);
      }
    }
  }

  /** Once they are all stored, loading returns all arrived events, with the
      recorded ones stored by then. */
  lemma FullLoad(a: Archive, x: string, own: set<Event>, events: seq<Event>)
    requires ArchiveInv(a) && Reads(a.events, OfExecution(x), events) && OfOne(x, own) && AllStored(a, own)
    ensures Elements(events) == own + Part(a, x, own)
  {
    ReadsSnapshot(a, x, events);
    forall e | e in own ensures e in Elements(events) {
      assert Stored(a, e);
    }
  }

  /** A handler that finishes keeps the cover if it was not the cover, or if it
      leaves the incident stored. */
  lemma FinishCovers(a: Archive, handlers: seq<Handler>, x: string, own: set<Event>, parts: set<set<Event>>, h: nat,
                     b: Archive)
    requires Covered(State(a, handlers), x, own, parts) && h < |handlers|
    requires Grows(a, b) && b.events == a.events
    requires Sighted(handlers[h], x, own, parts) ==> IncidentIdOf(x) in b.incidents
    ensures Covered(State(b, Moved(handlers, h, Finished)), x, own, parts)
  {
    if AllStored(b, own) && IncidentIdOf(x) !in b.incidents {
      assert AllStored(a, own);
      var k :| k in handlers && Sighted(k, x, own, parts);
      OthersStay(handlers, h, Finished, k);
    }
  }

  lemma SightedFinishes(s: State, x: string, own: set<Event>, parts: set<set<Event>>, h: nat,
                        put: Option<(Incident, ExecutionGraph)>, err: Option<DetectError>)
    requires Sound(s) && Robust(x, own, parts) && CanConclude(s, h, put, err) && Sighted(s.handlers[h], x, own, parts)
    ensures IncidentIdOf(x) in AfterPut(s.archive, put).incidents
  {
    var k := s.handlers[h];
    assert k in s.handlers && Honest(s.archive, k);
    var part :| part in parts && Elements(k.pc.events) == own + part;
    assert Failing(x, own + part);
    FailingConcludes(s.archive, x, k.pc.events, put, err);
  }

  lemma EnabledCovers(s: State, x: string, own: set<Event>, parts: set<set<Event>>, h: nat,
                      put: Option<(Incident, ExecutionGraph)>, err: Option<DetectError>)
    requires Sound(s) && Robust(x, own, parts) && Covered(s, x, own, parts) && CanConclude(s, h, put, err)
    ensures Covered(State(AfterPut(s.archive, put), Moved(s.handlers, h, Finished)), x, own, parts)
  {
    if Sighted(s.handlers[h], x, own, parts) {
      SightedFinishes(s, x, own, parts, h, put, err);
    }
    AfterPutKeeps(s.archive, s.handlers[h].execution, s.handlers[h].pc.events, put, err);
    AfterPutEvents(s.archive, put);
    FinishCovers(s.archive, s.handlers, x, own, parts, h, AfterPut(s.archive, put));
  }

  lemma ConcludeCovers(s: State, x: string, own: set<Event>, parts: set<set<Event>>, h: nat,
                       put: Option<(Incident, ExecutionGraph)>, err: Option<DetectError>)
    requires Covered(s, x, own, parts)
    requires CanConclude(s, h, put, err) ==>
               Covered(State(AfterPut(s.archive, put), Moved(s.handlers, h, Finished)), x, own, parts)
    ensures Covered(Apply(s, Conclude(h, put, err)), x, own, parts)
  {
  }

  lemma AfterPutEvents(a: Archive, put: Option<(Incident, ExecutionGraph)>)
    ensures AfterPut(a, put).events == a.events
  {
  }

  lemma CoverStep(s: State, x: string, own: set<Event>, parts: set<set<Event>>, action: Action)
    requires Sound(s) && Robust(x, own, parts) && Part(s.archive, x, own) in parts
    requires Covered(s, x, own, parts) && OfOne(x, own) && Allowed(x, own, action)
    ensures Covered(Apply(s, action), x, own, parts)
  {
    match action
    case Arrive(e) => ArriveCovers(s, x, own, parts, e);
    case Record(e) => RecordCovers(s, x, own, parts, e);
    case Load(h, events) => LoadCovers(s, x, own, parts, h, events);
    case Conclude(h, put, err) =>
      if CanConclude(s, h, put, err) {
        EnabledCovers(s, x, own, parts, h, put, err);
      }
      ConcludeCovers(s, x, own, parts, h, put, err);
  }

  lemma {:induction false} CoverRun(s: State, x: string, own: set<Event>, parts: set<set<Event>>, actions: seq<Action>)
    requires Sound(s) && Robust(x, own, parts) && OfOne(x, own)
    requires Covered(s, x, own, parts) && Admitted(s, x, own, parts, actions)
    ensures Covered(Run(s, actions), x, own, parts)
    decreases |actions|
  {
    if |actions| > 0 {
      SoundStep(s, actions[0]);
      CoverStep(s, x, own, parts, actions[0]);
      CoverRun(Apply(s, actions[0]), x, own, parts, actions[1..]);
    }
  }

  lemma NothingCovered(x: string, own: set<Event>, parts: set<set<Event>>)
    requires own != {}
    ensures Sound(EMPTY) && Covered(EMPTY, x, own, parts)
  {
    var e :| e in own;
    assert !Stored(EMPTY.archive, e);
  }

  lemma NothingRecorded(x: string, own: set<Event>)
    ensures Part(EMPTY.archive, x, own) == {}
  {
  }

  lemma FailingNotEmpty(x: string, own: set<Event>)
    requires Failing(x, own)
    ensures own != {} && OfOne(x, own)
  {
    var listing :| Enumerates(listing, own) && Fires(listing);
    assert listing[0] in listing;
  }

  /** All events of the execution have arrived and its handlers are done. */
  ghost predicate Quiescent(s: State, x: string, own: set<Event>) {
    AllStored(s.archive, own) && forall h | h in s.handlers && h.execution == x :: h.pc.Finished?
  }

  ghost predicate Reported(a: Archive, x: string) {
    exists id :: id in a.incidents && a.incidents[id].executionId == x
  }

  lemma ReportedByName(a: Archive, x: string)
    requires Named(a)
    ensures Reported(a, x) <==> IncidentIdOf(x) in a.incidents
  {
    if IncidentIdOf(x) in a.incidents {
      NamedOwner(a, x);
    }
  }

  /** Detection converges: if an execution fails whichever replay events are
      recorded under it, then whatever the order in which its events arrive, and
      however handlers and recordings interleave, once all its own events are
      stored and its handlers have finished, it has exactly one incident, which
      can be shown; and nothing that happens later removes, rewrites or
      duplicates it. */
  lemma DetectionConverges(x: string, own: set<Event>, parts: set<set<Event>>, actions: seq<Action>, later: seq<Action>)
    requires Robust(x, own, parts) && Admitted(EMPTY, x, own, parts, actions)
    requires Quiescent(Run(EMPTY, actions), x, own)
    ensures var id, s, t := IncidentIdOf(x), Run(EMPTY, actions).archive, Run(Run(EMPTY, actions), later).archive;
            && id in s.incidents && id in t.incidents && t.incidents[id] == s.incidents[id]
            && (forall k | k in t.incidents && t.incidents[k].executionId == x :: k == id)
            && s.incidents[id].executionId == x
            && DetailAvailable(s, id) && DetailAvailable(t, id)
  {
    NothingRecorded(x, own);
    assert own + {} == own && Failing(x, own + {});
    FailingNotEmpty(x, own);
    NothingCovered(x, own, parts);
    SoundRun(EMPTY, actions);
    CoverRun(EMPTY, x, own, parts, actions);
    var s := Run(EMPTY, actions);
    FinishedStored(s, x, own, parts);
    SoundRun(s, later);
    var t := Run(s, later);
    NamedOwner(s.archive, x);
    DetailStored(s.archive, IncidentIdOf(x));
    DetailStored(t.archive, IncidentIdOf(x));
  }

  lemma FinishedStored(s: State, x: string, own: set<Event>, parts: set<set<Event>>)
    requires Covered(s, x, own, parts) && Quiescent(s, x, own)
    ensures IncidentIdOf(x) in s.archive.incidents
  {
  }

  lemma NamedOwner(a: Archive, x: string)
    requires Named(a) && IncidentIdOf(x) in a.incidents
    ensures a.incidents[IncidentIdOf(x)].executionId == x
  {
    var y := a.incidents[IncidentIdOf(x)].executionId;
    assert IncidentIdOf(x)[4..] == x && IncidentIdOf(y)[4..] == y;
  }
}
