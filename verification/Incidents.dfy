/** The capture half of the store: events, incidents and their graphs. */
module Incidents {
  import opened Basics
  import opened Contracts
  import opened CycleCheck
  import opened Emission
  import opened Ordering
  import opened RunTimeline

  datatype IncidentStatus = IncidentDetected | IncidentReady | IncidentBlocked

  /** `otherChecks` stands for the checks of `Validate` on fields the model does
      not carry: summary, oracle and pack references, contents of the block
      reason. */
  datatype Incident = Incident(
    incidentId: string,
    status: IncidentStatus,
    traceId: string,
    executionId: string,
    detectedAt: int,
    evidence: seq<string>,
    graphId: string,
    sanitized: bool,
    hasBlockReason: bool,
    otherChecks: bool)
  {
    predicate Valid() {
      && incidentId != "" && traceId != "" && executionId != "" && |evidence| > 0 && otherChecks
      && (status == IncidentBlocked <==> hasBlockReason)
      && (status == IncidentReady ==> graphId != "" && sanitized)
    }
  }

  datatype Archive = Archive(events: map<string, Event>, incidents: map<string, Incident>,
                             graphs: map<string, ExecutionGraph>)

  function Ingest(a: Archive, e: Event): (Archive, Option<StoreError>) {
    if !e.Valid() then (a, Some(InvalidRecord))
    else if e.eventId in a.events then (a, Some(Conflict))
    else (a.(events := a.events[e.eventId := e]), None)
  }

  // ----- reading events back -----

  /** `stableOrder`: time, then sequence, then id. */
  predicate Chronological(a: Event, b: Event) {
    if a.occurredAt != b.occurredAt then a.occurredAt < b.occurredAt
    else if a.sequence != b.sequence then a.sequence < b.sequence
    else StrLess(a.eventId, b.eventId)
  }

  function OfExecution(x: string): Event -> bool {
    (e: Event) => e.executionId == x
  }

  function OfRun(runId: string): Event -> bool {
    (e: Event) => e.replayRunId == runId
  }

  /** The selected stored events, each once, in chronological order. */
  ghost predicate Reads(events: map<string, Event>, p: Event -> bool, r: seq<Event>) {
    SortedBy(Chronological, r) && Enumerates(r, Selected(events, p))
  }

  lemma ChronologicalStrictWeak(s: seq<Event>)
    ensures StrictWeak(Chronological, s)
  {
    forall x: Event, y: Event, z: Event
      ensures Chronological(x, y) ==> !Chronological(y, x)
      ensures !Chronological(y, x) && !Chronological(z, y) ==> !Chronological(z, x)
    {
      StrLessTotal(x.eventId, y.eventId);
      StrLessNotBack(x.eventId, y.eventId, z.eventId);
    }
  }

  /** What is read back is valid, each event once. */
  lemma ReadsOk(a: Archive, p: Event -> bool, events: seq<Event>)
    requires ArchiveInv(a) && Reads(a.events, p, events)
    ensures EventsOk(events) && Elements(events) == Selected(a.events, p)
  {
    forall e | e in events ensures e.eventId in a.events && a.events[e.eventId] == e && e.Valid() {
      assert e in Selected(a.events, p);
    }
    forall i, j | 0 <= i < j < |events| ensures events[i].eventId != events[j].eventId {
      assert events[i] in events && events[j] in events;
    }
    forall e ensures e in Elements(events) <==> e in Selected(a.events, p) {
      assert e in Elements(events) <==> e in events;
    }
  }

  /** By time; at one instant by sequence number; then by id. */
  predicate TimeOrdered(events: seq<Event>) {
    forall i, j | 0 <= i < j < |events| ::
      || events[i].occurredAt < events[j].occurredAt
      || (events[i].occurredAt == events[j].occurredAt && events[i].sequence < events[j].sequence)
      || (events[i].occurredAt == events[j].occurredAt && events[i].sequence == events[j].sequence
          && StrLess(events[i].eventId, events[j].eventId))
  }

  lemma ReadsTimeOrdered(a: Archive, p: Event -> bool, events: seq<Event>)
    requires ArchiveInv(a) && Reads(a.events, p, events)
    ensures TimeOrdered(events)
  {
    ReadsOk(a, p, events);
    forall i, j | 0 <= i < j < |events|
      ensures StrLess(events[i].eventId, events[j].eventId) || StrLess(events[j].eventId, events[i].eventId)
    {
      StrLessTotal(events[i].eventId, events[j].eventId);
    }
  }

  // ----- incidents and their graphs -----

  /** Every node has a stored event. */
  predicate NodesStored(a: Archive, g: ExecutionGraph) {
    forall n | n in g.nodes :: n.eventId in a.events
  }

  /** The stored events of the graph's nodes, in node order. */
  function Referenced(a: Archive, g: ExecutionGraph): (r: seq<Event>)
    requires NodesStored(a, g)
    ensures |r| == |g.nodes|
    ensures forall k | 0 <= k < |r| :: r[k] == a.events[g.nodes[k].eventId]
  {
    seq(|g.nodes|, k requires 0 <= k < |g.nodes| => a.events[g.nodes[k].eventId])
  }

  /** The references of an incident and its graph hold against the stored
      events. */
  ghost predicate Refers(a: Archive, i: Incident, g: ExecutionGraph) {
    && i.Valid() && ValidGraph(g) && g.incidentId == i.incidentId && i.graphId == g.graphId
    && NodesStored(a, g)
    && (forall n | n in g.nodes ::
          a.events[n.eventId].executionId == i.executionId && a.events[n.eventId].traceId == i.traceId)
    && (forall id | id in i.evidence :: id in NodeIds(g.nodes))
    && OrderAccepts(Referenced(a, g), g)
  }

  /** `PutIncident`: validation first, then conflicts, then references. */
  ghost function PutIncident(a: Archive, i: Incident, g: ExecutionGraph): (Archive, Option<StoreError>) {
    if !i.Valid() || !ValidGraph(g) || g.incidentId != i.incidentId || i.graphId != g.graphId then (a, Some(InternalError))
    else if i.incidentId in a.incidents || g.graphId in a.graphs then (a, Some(Conflict))
    else if !Refers(a, i, g) then (a, Some(InternalError))
    else (a.(incidents := a.incidents[i.incidentId := i], graphs := a.graphs[g.graphId := g]), None)
  }

  /** The incident under `id` has its graph, and all its references hold. */
  ghost predicate Backed(a: Archive, id: string) {
    && id in a.incidents && a.incidents[id].incidentId == id && a.incidents[id].graphId in a.graphs
    && Refers(a, a.incidents[id], a.graphs[a.incidents[id].graphId])
  }

  /** Stored events are valid and filed under their id, every incident is
      backed, and every graph is the graph of its incident. */
  ghost predicate ArchiveInv(a: Archive) {
    && (forall id | id in a.events :: a.events[id].eventId == id && a.events[id].Valid())
    && (forall id | id in a.incidents :: Backed(a, id))
    && (forall gid | gid in a.graphs ::
          a.graphs[gid].incidentId in a.incidents && a.incidents[a.graphs[gid].incidentId].graphId == gid)
  }

  /** Nothing stored is ever removed or rewritten. */
  ghost predicate Grows(a: Archive, b: Archive) {
    && (forall id | id in a.events :: id in b.events && b.events[id] == a.events[id])
    && (forall id | id in a.incidents :: id in b.incidents && b.incidents[id] == a.incidents[id])
    && (forall id | id in a.graphs :: id in b.graphs && b.graphs[id] == a.graphs[id])
  }

  lemma RefersGrows(a: Archive, b: Archive, i: Incident, g: ExecutionGraph)
    requires Refers(a, i, g) && forall id | id in a.events :: id in b.events && b.events[id] == a.events[id]
    ensures Refers(b, i, g)
  {
    assert Referenced(b, g) == Referenced(a, g);
  }

  lemma BackedGrows(a: Archive, b: Archive, id: string)
    requires Backed(a, id) && Grows(a, b)
    ensures Backed(b, id)
  {
    RefersGrows(a, b, a.incidents[id], a.graphs[a.incidents[id].graphId]);
  }

  lemma IngestKeepsInv(a: Archive, e: Event)
    requires ArchiveInv(a)
    ensures ArchiveInv(Ingest(a, e).0) && Grows(a, Ingest(a, e).0)
  {
    var b := Ingest(a, e).0;
    assert Grows(a, b);
    forall id | id in b.incidents ensures Backed(b, id) {
      BackedGrows(a, b, id);
    }
  }

  /** What a successful `PutIncident` leaves. */
  lemma NewIncidentBacked(a: Archive, i: Incident, g: ExecutionGraph, b: Archive)
    requires Refers(a, i, g) && i.incidentId !in a.incidents && g.graphId !in a.graphs
    requires b == a.(incidents := a.incidents[i.incidentId := i], graphs := a.graphs[g.graphId := g])
    ensures Grows(a, b) && Backed(b, i.incidentId)
  {
    RefersGrows(a, b, i, g);
  }

  /** A put that is refused changes nothing, one that is not only adds. */
  lemma PutIncidentAdds(a: Archive, i: Incident, g: ExecutionGraph)
    ensures Grows(a, PutIncident(a, i, g).0)
    ensures PutIncident(a, i, g).1.Some? ==> PutIncident(a, i, g).0 == a
    ensures PutIncident(a, i, g).1.None? ==>
              PutIncident(a, i, g).0 == a.(incidents := a.incidents[i.incidentId := i], graphs := a.graphs[g.graphId := g])
  {
  }

  lemma PutIncidentKeepsInv(a: Archive, i: Incident, g: ExecutionGraph)
    requires ArchiveInv(a)
    ensures ArchiveInv(PutIncident(a, i, g).0)
  {
    var b := PutIncident(a, i, g).0;
    if b != a {
      NewIncidentBacked(a, i, g, b);
      forall id | id in b.incidents ensures Backed(b, id) {
        if id in a.incidents {
          BackedGrows(a, b, id);
        }
      }
    }
  }

  /** A stored incident, field by field: its own graph is there and names it, every
      node has a stored event of its execution and trace, and its evidence is among
      the nodes. */
  lemma StoredIncident(a: Archive, id: string)
    requires ArchiveInv(a) && id in a.incidents
    ensures var i := a.incidents[id];
            && i.incidentId == id && i.graphId in a.graphs
            && var g := a.graphs[i.graphId];
               && g.graphId == i.graphId && g.incidentId == id
               && (forall n | n in g.nodes ::
                     && n.eventId in a.events && a.events[n.eventId].eventId == n.eventId
                     && a.events[n.eventId].executionId == i.executionId && a.events[n.eventId].traceId == i.traceId)
               && (forall x | x in i.evidence :: exists n :: n in g.nodes && n.eventId == x)
  {
    assert Backed(a, id);
  }

  /** `ordered` is the detail view of an incident: its graph's events, each at
      its timeline index. */
  ghost predicate DetailOf(a: Archive, id: string, ordered: seq<Event>) {
    && id in a.incidents && a.incidents[id].graphId in a.graphs
    && var g := a.graphs[a.incidents[id].graphId];
       g.incidentId == id && NodesStored(a, g) && OrderedBy(Referenced(a, g), g, ordered)
  }

  /** Whether the detail view can be assembled. */
  ghost predicate DetailAvailable(a: Archive, id: string) {
    && id in a.incidents && a.incidents[id].graphId in a.graphs
    && var g := a.graphs[a.incidents[id].graphId];
       g.incidentId == id && NodesStored(a, g) && OrderAccepts(Referenced(a, g), g)
  }

  lemma DetailStored(a: Archive, id: string)
    requires Backed(a, id)
    ensures DetailAvailable(a, id)
  {
  }

  lemma EvidenceShown(a: Archive, i: Incident, g: ExecutionGraph, ordered: seq<Event>, x: string)
    requires (forall k | k in a.events :: a.events[k].eventId == k)
    requires Refers(a, i, g) && OrderedBy(Referenced(a, g), g, ordered) && x in i.evidence
    ensures exists e :: e in ordered && e.eventId == x
  {
    var n :| n in g.nodes && n.eventId == x;
    var k :| 0 <= k < |g.nodes| && g.nodes[k] == n;
    assert Referenced(a, g)[k] in Elements(Referenced(a, g));
  }

  lemma ShownOfExecution(a: Archive, i: Incident, g: ExecutionGraph, ordered: seq<Event>, e: Event)
    requires Refers(a, i, g) && OrderedBy(Referenced(a, g), g, ordered) && e in ordered
    ensures e.executionId == i.executionId
  {
    assert e in Elements(Referenced(a, g));
    var k :| 0 <= k < |g.nodes| && Referenced(a, g)[k] == e;
    assert g.nodes[k] in g.nodes;
  }

  /** A stored incident can always be shown, and what is shown covers its
      evidence, belongs to its execution and respects every hard edge. */
  lemma DetailComplete(a: Archive, id: string, ordered: seq<Event>)
    requires ArchiveInv(a) && id in a.incidents && DetailOf(a, id, ordered)
    ensures forall x | x in a.incidents[id].evidence :: exists e :: e in ordered && e.eventId == x
    ensures forall e | e in ordered :: e.executionId == a.incidents[id].executionId
    ensures forall i, j | 0 <= i < |ordered| && 0 <= j < |ordered| &&
              (ordered[i].eventId, ordered[j].eventId) in HardArcs(a.graphs[a.incidents[id].graphId].edges) :: i < j
  {
    assert Backed(a, id);
    var i, g := a.incidents[id], a.graphs[a.incidents[id].graphId];
    forall x | x in i.evidence ensures exists e :: e in ordered && e.eventId == x {
      EvidenceShown(a, i, g, ordered, x);
    }
    forall e | e in ordered ensures e.executionId == i.executionId {
      ShownOfExecution(a, i, g, ordered, e);
    }
    forall j, k | 0 <= j < |ordered| && 0 <= k < |ordered| && (ordered[j].eventId, ordered[k].eventId) in HardArcs(g.edges)
      ensures j < k
    {
      OrderedForward(g.nodes, HardArcs(g.edges), ordered, j, k);
    }
  }

  lemma OrderedForward(nodes: seq<GraphNode>, arcs: set<Arc>, ordered: seq<Event>, i: nat, j: nat)
    requires NodesOk(nodes) && |ordered| == |nodes| && forall n | n in nodes :: n.timelineIndex < |nodes|
    requires forall n | n in nodes && 0 <= n.timelineIndex < |ordered| :: ordered[n.timelineIndex].eventId == n.eventId
    requires forall m, n | m in nodes && n in nodes && (m.eventId, n.eventId) in arcs :: m.timelineIndex < n.timelineIndex
    requires i < |ordered| && j < |ordered| && (ordered[i].eventId, ordered[j].eventId) in arcs
    ensures i < j
  {
    IndicesArePermutation(nodes);
    assert i in Indices(nodes) && j in Indices(nodes);
    var m :| m in nodes && m.timelineIndex == i;
    var n :| n in nodes && n.timelineIndex == j;
  }
}
