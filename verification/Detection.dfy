/** Detecting an incident in the accumulated events of one execution. */
module Detection {
  import opened Basics
  import opened Contracts
  import opened CycleCheck
  import opened Emission
  import opened Ordering
  import opened RunTimeline
  import opened Oracle
  import opened Incidents
  import Stores

  datatype DetectError = BuildFailed(cause: GraphError) | PersistFailed(reason: StoreError)

  function IncidentIdOf(x: string): string {
    "inc-" + x
  }

  function GraphIdOf(x: string): string {
    "graph-" + x
  }

  /** The oracle fires and all parents are present. */
  ghost predicate Detectable(events: seq<Event>) {
    Fires(events) && EventsOk(events) && ParentsSettled(Elements(events))
  }

  ghost predicate Fires(events: seq<Event>) {
    exists id :: id in LogicalIds(events) && Matches(events, id)
  }

  /** The incident and graph built from `events`: named after the execution, the
      nodes in an allowed timeline order, the edges from the parent references,
      the evidence from the oracle. */
  ghost predicate Draft(x: string, events: seq<Event>, at: int, verdict: OracleResult, order: seq<Event>,
                        i: Incident, g: ExecutionGraph)
  {
    && g == ExecutionGraph(GraphIdOf(x), IncidentIdOf(x), true, NodesOf(order), g.edges)
    && ParentEdgesOf(events, g.edges)
    && Timeline(Possible(), Elements(events), ParentArcs(Elements(events)), order)
    && verdict.matched && (exists chosen :: Chosen(events, chosen) && Judges(Group(events, chosen), verdict))
    && |events| > 0
    && i == Incident(IncidentIdOf(x), IncidentReady, events[0].traceId, x, at, verdict.evidence, GraphIdOf(x),
                     true, false, true)
  }

  ghost predicate Prepared(x: string, events: seq<Event>, i: Incident, g: ExecutionGraph) {
    exists at, verdict, order :: Draft(x, events, at, verdict, order, i, g)
  }

  /** Events read from the store for one execution, in any order. */
  ghost predicate Snapshot(a: Archive, x: string, events: seq<Event>) {
    && Distinct(events)
    && forall e | e in events :: e.eventId in a.events && a.events[e.eventId] == e && e.executionId == x
  }

  lemma ReadsSnapshot(a: Archive, x: string, events: seq<Event>)
    requires ArchiveInv(a) && Reads(a.events, OfExecution(x), events)
    ensures Snapshot(a, x, events) && EventsOk(events)
    ensures forall id | id in a.events && a.events[id].executionId == x :: a.events[id] in events
  {
    SnapshotOk(a, x, events);
  }

  lemma SnapshotOk(a: Archive, x: string, events: seq<Event>)
    requires ArchiveInv(a) && Snapshot(a, x, events)
    ensures EventsOk(events)
  {
    forall i, j | 0 <= i < j < |events| ensures events[i].eventId != events[j].eventId {
      assert events[i] in events && events[j] in events;
    }
  }

  /** Evaluates the oracle and, when it fires, builds incident and graph. The
      build fails while a referenced parent is missing. */
  method PrepareIncident(x: string, events: seq<Event>, now: int)
    returns (r: Result<Option<(Incident, ExecutionGraph)>, GraphError>)
    requires EventsOk(events)
    ensures r == Success(None) <==> !Fires(events)
    ensures r.Failure? <==> Fires(events) && !ParentsSettled(Elements(events))
    ensures r.Success? && r.value.Some? ==>
              Prepared(x, events, r.value.value.0, r.value.value.1) && r.value.value.0.detectedAt == now
  {
    if |events| == 0 {
      return Success(None);
    }
    var oracle, chosen := Evaluate(events);
    VerdictExact(events, chosen, oracle.value);
    if !oracle.value.matched {
      return Success(None);
    }
    var edges := ParentChildEdges(events);
    ParentEdgesBuildable(events, edges);
    var nodes, order := BuildNodes(events, edges);
    if nodes.Failure? {
      return Failure(nodes.error);
    }
    var incident := Incident("inc-" + x, IncidentReady, events[0].traceId, x, now, oracle.value.evidence, "graph-" + x,
                             true, false, true);
    var graph := ExecutionGraph("graph-" + x, "inc-" + x, true, nodes.value, edges);
    DraftPrepared(x, events, now, oracle.value, chosen, order, edges);
    return Success(Some((incident, graph)));
  }

  lemma DraftPrepared(x: string, events: seq<Event>, now: int, verdict: OracleResult, chosen: string, order: seq<Event>,
                      edges: seq<GraphEdge>)
    requires |events| > 0 && verdict.matched && Chosen(events, chosen) && Judges(Group(events, chosen), verdict)
    requires ParentEdgesOf(events, edges)
    requires Timeline(Possible(), Elements(events), ParentArcs(Elements(events)), order)
    ensures Prepared(x, events,
                     Incident(IncidentIdOf(x), IncidentReady, events[0].traceId, x, now, verdict.evidence, GraphIdOf(x),
                              true, false, true),
                     ExecutionGraph(GraphIdOf(x), IncidentIdOf(x), true, NodesOf(order), edges))
  {
    assert Draft(x, events, now, verdict, order,
                 Incident(IncidentIdOf(x), IncidentReady, events[0].traceId, x, now, verdict.evidence, GraphIdOf(x),
                          true, false, true),
                 ExecutionGraph(GraphIdOf(x), IncidentIdOf(x), true, NodesOf(order), edges));
  }

  /** What becomes of the events a handler has read: nothing unless they are
      detectable; otherwise the incident and graph built from them are put, and
      finding them stored already is no error. */
  ghost predicate Concludes(before: Archive, x: string, events: seq<Event>, after: Archive,
                            put: Option<(Incident, ExecutionGraph)>, err: Option<DetectError>)
  {
    if !Detectable(events) then after == before && put.None? && (err.Some? <==> Fires(events))
    else
      && put.Some? && Prepared(x, events, put.value.0, put.value.1)
      && var (stored, refused) := PutIncident(before, put.value.0, put.value.1);
         after == stored && (err.Some? <==> refused.Some? && refused.value != Conflict)
  }

  lemma ConcludesNothing(a: Archive, x: string, events: seq<Event>, err: Option<DetectError>)
    requires !Detectable(events) && (err.Some? <==> Fires(events))
    ensures Concludes(a, x, events, a, None, err)
  {
  }

  lemma ConcludesPut(before: Archive, x: string, events: seq<Event>, i: Incident, g: ExecutionGraph, after: Archive,
                     refused: Option<StoreError>, err: Option<DetectError>)
    requires Detectable(events) && Prepared(x, events, i, g) && (after, refused) == PutIncident(before, i, g)
    requires err.Some? <==> refused.Some? && refused.value != Conflict
    ensures Concludes(before, x, events, after, Some((i, g)), err)
  {
  }

  /** The part after the events are loaded. */
  method ConcludeDetection(store: Stores.Store, x: string, events: seq<Event>, now: int)
    returns (err: Option<DetectError>, ghost put: Option<(Incident, ExecutionGraph)>)
    requires store.Valid() && EventsOk(events)
    modifies store`incidents, store`graphs
    ensures store.Valid()
    ensures Concludes(old(store.Captured()), x, events, store.Captured(), put, err)
    ensures put.Some? ==> put.value.0.detectedAt == now
  {
    var prepared := PrepareIncident(x, events, now);
    ghost var before := store.Captured();
    if prepared.Success? && prepared.value.Some? {
      var (incident, graph) := prepared.value.value;
      var refused := store.PutIncident(incident, graph);
      put := prepared.value;
      err := if refused.Some? && refused.value != Conflict then Some(PersistFailed(refused.value)) else None;
      ConcludesPut(before, x, events, incident, graph, store.Captured(), refused, err);
    } else {
      put := None;
      err := if prepared.Failure? then Some(BuildFailed(prepared.error)) else None;
      ConcludesNothing(before, x, events, err);
    }
  }

  /** `detectAndPersistIncident`. */
  method DetectAndPersist(store: Stores.Store, x: string, now: int)
    returns (err: Option<DetectError>, ghost events: seq<Event>, ghost put: Option<(Incident, ExecutionGraph)>)
    requires store.Valid()
    modifies store`incidents, store`graphs
    ensures store.Valid()
    ensures Reads(old(store.events), OfExecution(x), events)
    ensures Concludes(old(store.Captured()), x, events, store.Captured(), put, err)
    ensures put.Some? ==> put.value.0.detectedAt == now
  {
    var found := store.EventsForExecution(x);
    events := found;
    ReadsSnapshot(store.Captured(), x, found);
    err, put := ConcludeDetection(store, x, found, now);
  }

  // ----- what is drafted can be stored -----

  lemma DraftReferences(a: Archive, x: string, events: seq<Event>, order: seq<Event>, g: ExecutionGraph)
    requires Snapshot(a, x, events) && Enumerates(order, Elements(events)) && g.nodes == NodesOf(order)
    ensures NodesStored(a, g) && Referenced(a, g) == order
  {
    forall k | 0 <= k < |order| ensures order[k].eventId in a.events && a.events[order[k].eventId] == order[k] {
      assert order[k] in order;
    }
    forall n | n in g.nodes ensures n.eventId in a.events {
      var k :| 0 <= k < |g.nodes| && g.nodes[k] == n;
    }
  }

  /** A timeline of the events passes `Order` against the drafted graph. */
  lemma DraftOrdered(a: Archive, x: string, events: seq<Event>, order: seq<Event>, g: ExecutionGraph)
    requires ArchiveInv(a) && Snapshot(a, x, events) && ParentsSettled(Elements(events))
    requires Timeline(Possible(), Elements(events), ParentArcs(Elements(events)), order)
    requires ParentEdgesOf(events, g.edges) && GraphOfTimeline(order, g.edges, g)
    ensures Enumerates(order, Elements(events)) && OrderAccepts(order, g)
  {
    EmitsEnumerates(Possible(), Elements(events), ParentArcs(Elements(events)), order, {});
    assert Elements(order) == Elements(events);
    SnapshotOk(a, x, order);
    ParentEdgesBuildable(order, g.edges);
    BuildThenOrderAccepts(order, g.edges, order, g);
  }

  lemma EvidenceInNodes(events: seq<Event>, chosen: string, verdict: OracleResult, order: seq<Event>, id: string)
    requires Judges(Group(events, chosen), verdict) && Enumerates(order, Elements(events)) && id in verdict.evidence
    ensures id in NodeIds(NodesOf(order))
  {
    EvidenceCited(Group(events, chosen), verdict);
    var e :| e in Group(events, chosen) && e.eventId == id;
    IdInNodes(order, e);
  }

  lemma IdInNodes(order: seq<Event>, e: Event)
    requires e in order
    ensures e.eventId in NodeIds(NodesOf(order))
  {
    var k :| 0 <= k < |order| && order[k] == e;
    assert NodesOf(order)[k] in NodesOf(order);
  }

  lemma DraftValid(a: Archive, x: string, events: seq<Event>, at: int, verdict: OracleResult, order: seq<Event>,
                   i: Incident, g: ExecutionGraph)
    requires ArchiveInv(a) && Snapshot(a, x, events) && Draft(x, events, at, verdict, order, i, g)
    ensures i.Valid()
  {
    assert events[0] in events;
    var chosen :| Chosen(events, chosen) && Judges(Group(events, chosen), verdict);
    EvidenceCited(Group(events, chosen), verdict);
  }

  /** The nodes' events are the events read, so they agree with the incident
      when the latter share one trace. */
  lemma DraftTraces(a: Archive, x: string, events: seq<Event>, order: seq<Event>, i: Incident, g: ExecutionGraph)
    requires Snapshot(a, x, events) && Enumerates(order, Elements(events)) && g.nodes == NodesOf(order)
    requires i.executionId == x && NodesStored(a, g)
    ensures (forall n | n in g.nodes ::
               a.events[n.eventId].executionId == i.executionId && a.events[n.eventId].traceId == i.traceId) <==>
            forall e | e in events :: e.traceId == i.traceId
  {
    forall n | n in g.nodes ensures a.events[n.eventId] in events {
      var k :| 0 <= k < |g.nodes| && g.nodes[k] == n;
      assert order[k] in order;
    }
    forall e | e in events ensures exists n :: n in g.nodes && a.events[n.eventId] == e {
      assert e in order;
      var k :| 0 <= k < |order| && order[k] == e;
      assert g.nodes[k] in g.nodes;
    }
  }

  ghost predicate OneTrace(events: seq<Event>) {
    forall e, f | e in events && f in events :: e.traceId == f.traceId
  }

  lemma FirstTrace(events: seq<Event>)
    requires |events| > 0
    ensures OneTrace(events) <==> forall e | e in events :: e.traceId == events[0].traceId
  {
    assert events[0] in events;
  }

  lemma DraftRefers(a: Archive, x: string, events: seq<Event>, at: int, verdict: OracleResult, order: seq<Event>,
                    i: Incident, g: ExecutionGraph)
    requires ArchiveInv(a) && Snapshot(a, x, events) && ParentsSettled(Elements(events))
    requires Draft(x, events, at, verdict, order, i, g) && i.Valid()
    ensures ValidGraph(g)
    ensures Refers(a, i, g) <==> OneTrace(events)
  {
    DraftOrdered(a, x, events, order, g);
    DraftReferences(a, x, events, order, g);
    DraftTraces(a, x, events, order, i, g);
    assert forall id | id in i.evidence :: id in NodeIds(g.nodes) by {
      var chosen :| Chosen(events, chosen) && Judges(Group(events, chosen), verdict);
      forall id | id in i.evidence ensures id in NodeIds(g.nodes) {
        EvidenceInNodes(events, chosen, verdict, order, id);
      }
    }
    FirstTrace(events);
    RefersGiven(a, i, g);
  }

  lemma RefersGiven(a: Archive, i: Incident, g: ExecutionGraph)
    requires i.Valid() && ValidGraph(g) && g.incidentId == i.incidentId && i.graphId == g.graphId && NodesStored(a, g)
    requires OrderAccepts(Referenced(a, g), g) && forall id | id in i.evidence :: id in NodeIds(g.nodes)
    ensures Refers(a, i, g) <==>
            forall n | n in g.nodes ::
              a.events[n.eventId].executionId == i.executionId && a.events[n.eventId].traceId == i.traceId
  {
  }

  /** The store accepts a drafted incident exactly when the events share one
      trace, unless the incident or its graph is there already. */
  lemma PreparedAccepted(a: Archive, x: string, events: seq<Event>, i: Incident, g: ExecutionGraph)
    requires ArchiveInv(a) && Snapshot(a, x, events) && Detectable(events) && Prepared(x, events, i, g)
    ensures PutIncident(a, i, g).1 ==
            if IncidentIdOf(x) in a.incidents || GraphIdOf(x) in a.graphs then Some(Conflict)
            else if OneTrace(events) then None
            else Some(InternalError)
  {
    var at, verdict, order :| Draft(x, events, at, verdict, order, i, g);
    DraftValid(a, x, events, at, verdict, order, i, g);
    DraftRefers(a, x, events, at, verdict, order, i, g);
  }
}
