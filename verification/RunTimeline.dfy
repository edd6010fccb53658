/** Reordering events by a graph's timeline indices, and the graph a run's own
    events induce. */
module RunTimeline {
  import opened Basics
  import opened Contracts
  import opened CycleCheck
  import opened Emission
  import opened Ordering

  /** Timeline indices respect every hard edge. */
  ghost predicate IndicesForward(g: ExecutionGraph) {
    forall m, n | m in g.nodes && n in g.nodes && (m.eventId, n.eventId) in HardArcs(g.edges) ::
      m.timelineIndex < n.timelineIndex
  }

  ghost predicate NodesMatch(events: seq<Event>, g: ExecutionGraph) {
    && |events| == |g.nodes|
    && forall n | n in g.nodes :: n.eventId in EventIds(events) && n.timelineIndex < |g.nodes|
  }

  /** What `Order` accepts. */
  ghost predicate OrderAccepts(events: seq<Event>, g: ExecutionGraph) {
    ValidGraph(g) && EventsOk(events) && NodesMatch(events, g) && IndicesForward(g)
  }

  /** `ordered` holds the supplied events, each at the index its node gives. */
  ghost predicate OrderedBy(events: seq<Event>, g: ExecutionGraph, ordered: seq<Event>) {
    && |ordered| == |g.nodes|
    && (forall n | n in g.nodes && 0 <= n.timelineIndex < |ordered| ::
          ordered[n.timelineIndex].eventId == n.eventId)
    && Enumerates(ordered, Elements(events))
  }

  ghost function Indices(nodes: seq<GraphNode>): set<int> {
    set n | n in nodes :: n.timelineIndex
  }

  /** Pigeonhole: distinct indices below the node count are exactly 0..n-1. */
  lemma {:induction false} IndicesArePermutation(nodes: seq<GraphNode>)
    requires NodesOk(nodes) && forall n | n in nodes :: n.timelineIndex < |nodes|
    ensures forall i | 0 <= i < |nodes| :: i in Indices(nodes)
  {
    DistinctIndexCount(nodes);
    var s: set<nat> := set i | i in Indices(nodes) && 0 <= i;
    assert s == Indices(nodes);
    Pigeonhole(s, |nodes|);
    forall i | 0 <= i < |nodes| ensures i in Indices(nodes) {
      assert i in UpTo(|nodes|);
    }
  }

  lemma {:induction false} DistinctIndexCount(nodes: seq<GraphNode>)
    requires NodesOk(nodes)
    ensures |Indices(nodes)| == |nodes|
    ensures forall i | i in Indices(nodes) :: i >= 0
    decreases |nodes|
  {
    if |nodes| > 0 {
      var init, last := nodes[..|nodes| - 1], nodes[|nodes| - 1];
      assert nodes == init + [last];
      DistinctIndexCount(init);
      assert Indices(nodes) == Indices(init) + {last.timelineIndex};
      assert last.timelineIndex !in Indices(init);
    }
  }

  /** `e` is the event of the node with index `i`. */
  ghost predicate Fills(byId: map<string, Event>, nodes: seq<GraphNode>, i: int, e: Event) {
    exists n :: n in nodes && n.timelineIndex == i && n.eventId in byId && e == byId[n.eventId]
  }

  /** The node loop of `Order` fills a slice of that length slot by slot. */
  method PlaceEvents(byId: map<string, Event>, nodes: seq<GraphNode>)
    returns (ok: bool, indices: map<string, int>, ordered: seq<Event>)
    requires NodesOk(nodes) && Keyed(byId)
    ensures ok <==> forall n | n in nodes :: n.eventId in byId && n.timelineIndex < |nodes|
    ensures ok ==> forall n | n in nodes :: n.eventId in indices && indices[n.eventId] == n.timelineIndex
    ensures ok ==> |ordered| == |nodes| && forall i | 0 <= i < |nodes| :: Fills(byId, nodes, i, ordered[i])
  {
    var zero := Event("", "", "", "", "", "", "", "", Internal, Start, 0, "", 0, 0, Running, None, false);
    var slots := seq(|nodes|, _ => zero);
    indices := map[];
    for k := 0 to |nodes|
      invariant |slots| == |nodes|
      invariant forall n | n in nodes[..k] :: n.eventId in byId && n.timelineIndex < |nodes|
      invariant forall n | n in nodes[..k] :: n.eventId in indices && indices[n.eventId] == n.timelineIndex
      invariant forall j | 0 <= j < k :: nodes[j].eventId in byId && 0 <= nodes[j].timelineIndex < |nodes|
      invariant forall j | 0 <= j < k :: slots[nodes[j].timelineIndex] == byId[nodes[j].eventId]
    {
      var node := nodes[k];
      assert node in nodes;
      if node.eventId !in byId || node.timelineIndex >= |nodes| {
        return false, indices, slots;
      }
      assert nodes[..k + 1] == nodes[..k] + [node];
      indices := indices[node.eventId := node.timelineIndex];
      slots := slots[node.timelineIndex := byId[node.eventId]];
    }
    assert nodes[..|nodes|] == nodes;
    IndicesArePermutation(nodes);
    forall i | 0 <= i < |nodes| ensures Fills(byId, nodes, i, slots[i]) {
      assert i in Indices(nodes);
      var n :| n in nodes && n.timelineIndex == i;
      var j :| 0 <= j < |nodes| && nodes[j] == n;
    }
    return true, indices, slots;
  }

  /** The edge loop of `Order`. */
  method CheckForward(indices: map<string, int>, g: ExecutionGraph) returns (ok: bool)
    requires WellFormed(g)
    requires forall n | n in g.nodes :: n.eventId in indices && indices[n.eventId] == n.timelineIndex
    ensures ok <==> IndicesForward(g)
  {
    for i := 0 to |g.edges|
      invariant forall a | a in HardArcs(g.edges[..i]) :: a.0 in indices && a.1 in indices && indices[a.0] < indices[a.1]
    {
      var e := g.edges[i];
      var m :| m in g.nodes && m.eventId == e.from;
      var n :| n in g.nodes && n.eventId == e.to;
      if !e.edgeType.Temporal? && indices[e.from] >= indices[e.to] {
        assert (m.eventId, n.eventId) in HardArcs(g.edges);
        return false;
      }
      assert g.edges[..i + 1] == g.edges[..i] + [e];
      HardArcsSnoc(g.edges[..i], e);
    }
    assert g.edges[..|g.edges|] == g.edges;
    return true;
  }

  /** Filling every slot once is a rearrangement of the events. */
  lemma SlotsEnumerate(events: seq<Event>, byId: map<string, Event>, nodes: seq<GraphNode>, ordered: seq<Event>)
    requires EventsOk(events) && NodesOk(nodes) && |events| == |nodes| == |ordered| && Keyed(byId)
    requires byId.Keys == EventIds(events)
    requires forall e | e in events :: e.eventId in byId && byId[e.eventId] == e
    requires forall i | 0 <= i < |nodes| :: Fills(byId, nodes, i, ordered[i])
    ensures Enumerates(ordered, Elements(events))
    ensures forall n | n in nodes && 0 <= n.timelineIndex < |nodes| :: ordered[n.timelineIndex].eventId == n.eventId
  {
    forall i, j | 0 <= i < j < |ordered| ensures ordered[i] != ordered[j] {
      assert Fills(byId, nodes, i, ordered[i]) && Fills(byId, nodes, j, ordered[j]);
      var m :| m in nodes && m.timelineIndex == i && m.eventId in byId && ordered[i] == byId[m.eventId];
      var n :| n in nodes && n.timelineIndex == j && n.eventId in byId && ordered[j] == byId[n.eventId];
    }
    forall n | n in nodes && 0 <= n.timelineIndex < |nodes| ensures ordered[n.timelineIndex].eventId == n.eventId {
      assert Fills(byId, nodes, n.timelineIndex, ordered[n.timelineIndex]);
      var m :| m in nodes && m.timelineIndex == n.timelineIndex && m.eventId in byId &&
               ordered[n.timelineIndex] == byId[m.eventId];
    }
    forall x | x in ordered ensures x in Elements(events) {
      var i :| 0 <= i < |ordered| && ordered[i] == x;
      assert Fills(byId, nodes, i, ordered[i]);
    }
    DistinctIdsAsSet(events);
    DistinctSize(ordered);
    FullSubset(Elements(ordered), Elements(events));
  }

  lemma FullSubset<T>(a: set<T>, b: set<T>)
    requires a <= b && |a| == |b|
    ensures a == b
  {
    assert b == a + (b - a);
  }

  /** `Order`. Its final sort by index finds the slice already sorted. */
  method Order(events: seq<Event>, g: ExecutionGraph) returns (r: Result<seq<Event>, GraphError>)
    ensures r.Success? <==> OrderAccepts(events, g)
    ensures r == Failure(GraphCycle) <==> !ValidGraph(g) && CyclicFrom(ProperArcs(g.edges), NodeIds(g.nodes))
    ensures r.Success? ==> OrderedBy(events, g, r.value)
  {
    var valid, finish := Validate(g);
    if !valid {
      var cyclic := HasHardCycle(g.nodes, g.edges);
      return Failure(if cyclic then GraphCycle else InvalidGraph);
    }
    var ok, byId := IndexEvents(events);
    if !ok {
      return Failure(InvalidGraph);
    }
    ByIdSize(events, byId);
    if |byId| != |g.nodes| {
      return Failure(InvalidGraph);
    }
    var placed, indices, ordered := PlaceEvents(byId, g.nodes);
    if !placed {
      return Failure(InvalidGraph);
    }
    var forward := CheckForward(indices, g);
    if !forward {
      return Failure(InvalidGraph);
    }
    SlotsEnumerate(events, byId, g.nodes, ordered);
    var less := (a: Event, b: Event) =>
      a.eventId in indices && b.eventId in indices && indices[a.eventId] < indices[b.eventId];
    assert SortedBy(less, ordered);
    SortIdentity(less, ordered);
    return Success(Sort(less, ordered));
  }

  lemma ByIdSize(events: seq<Event>, byId: map<string, Event>)
    requires EventsOk(events) && byId.Keys == EventIds(events)
    ensures |byId| == |events|
    decreases |events|
  {
    assert forall i | 0 <= i < |events| :: Ids(events)[i] == events[i].eventId;
    assert Distinct(Ids(events));
    DistinctSize(Ids(events));
    forall id ensures id in Elements(Ids(events)) <==> id in EventIds(events) {
      if id in EventIds(events) {
        var e :| e in events && e.eventId == id;
        var i :| 0 <= i < |events| && events[i] == e;
        assert Ids(events)[i] == id;
      }
    }
    assert Elements(Ids(events)) == EventIds(events);
  }

  // ----- Order after BuildNodes -----

  ghost predicate GraphOfTimeline(order: seq<Event>, edges: seq<GraphEdge>, g: ExecutionGraph) {
    g.versionsOk && g.graphId != "" && g.incidentId != "" && g.nodes == NodesOf(order) && g.edges == edges
  }

  lemma TimelineIndicesForward(events: set<Event>, order: seq<Event>, g: ExecutionGraph)
    requires Timeline(Possible(), events, HardArcs(g.edges), order) && g.nodes == NodesOf(order)
    ensures IndicesForward(g)
  {
    forall m, n | m in g.nodes && n in g.nodes && (m.eventId, n.eventId) in HardArcs(g.edges)
      ensures m.timelineIndex < n.timelineIndex
    {
      var i :| 0 <= i < |order| && g.nodes[i] == m;
      var j :| 0 <= j < |order| && g.nodes[j] == n;
      TimelineForward(Possible(), events, HardArcs(g.edges), order, i, j);
    }
  }

  /** The graph of an emitted timeline is always accepted by `Order`... */
  lemma BuildThenOrderAccepts(events: seq<Event>, edges: seq<GraphEdge>, order: seq<Event>, g: ExecutionGraph)
    requires Buildable(events, edges)
    requires Timeline(Possible(), Elements(events), HardArcs(edges), order)
    requires GraphOfTimeline(order, edges, g)
    ensures OrderAccepts(events, g)
  {
    EmitsEnumerates(Possible(), Elements(events), HardArcs(edges), order, {});
    DistinctIdsAsSet(events);
    TimelineNodes(events, order);
    TimelineIndicesForward(Elements(events), order, g);
  }

  /** ... which then returns that timeline and nothing else. */
  lemma BuildThenOrderReturns(events: seq<Event>, order: seq<Event>, g: ExecutionGraph, ordered: seq<Event>)
    requires EventsOk(events) && Enumerates(order, Elements(events))
    requires g.nodes == NodesOf(order) && OrderedBy(events, g, ordered)
    ensures ordered == order
  {
    DistinctIdsAsSet(events);
    forall i | 0 <= i < |order| ensures ordered[i] == order[i] {
      assert NodesOf(order)[i] in g.nodes;
      assert ordered[i] in ordered && order[i] in order;
    }
  }

  lemma TimelineNodes(events: seq<Event>, order: seq<Event>)
    requires EventsOk(events) && Enumerates(order, Elements(events)) && |order| == |events|
    requires DistinctIdSet(Elements(events))
    ensures NodesOk(NodesOf(order)) && NodeIds(NodesOf(order)) == EventIds(events)
    ensures forall n | n in NodesOf(order) :: n.eventId in EventIds(events) && n.timelineIndex < |order|
  {
    var nodes := NodesOf(order);
    forall i | 0 <= i < |order| ensures order[i].eventId != "" && order[i].eventId in EventIds(events) {
      assert order[i] in order;
    }
    forall i, j | 0 <= i < j < |order| ensures order[i].eventId != order[j].eventId {
      assert order[i] in order && order[j] in order;
    }
    forall id | id in EventIds(events) ensures id in NodeIds(nodes) {
      var e :| e in events && e.eventId == id;
      assert e in order;
      var i :| 0 <= i < |order| && order[i] == e;
      assert nodes[i] in nodes;
    }
    forall n | n in nodes ensures n.eventId in EventIds(events) && n.timelineIndex < |order| {
      var i :| 0 <= i < |nodes| && nodes[i] == n;
    }
  }

  // ----- parent edges -----

  /** The constraints a set of events carries in its parent references. */
  ghost function ParentArcs(events: set<Event>): set<Arc> {
    set e | e in events && e.parentId != "" :: (e.parentId, e.eventId)
  }

  /** Every referenced parent is another event of the set, and following parents
      never comes back. */
  ghost predicate ParentsSettled(events: set<Event>) {
    && (forall e | e in events && e.parentId != "" ::
          e.parentId != e.eventId && exists p :: p in events && p.eventId == e.parentId)
    && !Cyclic(ParentArcs(events))
  }

  ghost predicate ParentEdgesOf(events: seq<Event>, edges: seq<GraphEdge>) {
    && HardArcs(edges) == ParentArcs(Elements(events))
    && (forall i, j | 0 <= i < j < |edges| :: edges[i].edgeId != edges[j].edgeId)
    && (forall e | e in edges :: e.edgeId != "" && e.edgeType == ParentChild && (e.from, e.to) in HardArcs(edges))
  }

  /** One edge per parent reference, named by position. */
  function EdgeList(events: seq<Event>): seq<GraphEdge> {
    if |events| == 0 then [] else
    var n: nat := |events| - 1;
    EdgeList(events[..n]) +
    if events[n].parentId == "" then []
    else [GraphEdge("edge-" + Decimal(n), events[n].parentId, events[n].eventId, ParentChild)]
  }

  /** `parentChildEdges`. */
  method ParentChildEdges(events: seq<Event>) returns (edges: seq<GraphEdge>)
    ensures edges == EdgeList(events) && ParentEdgesOf(events, edges)
  {
    edges := [];
    for i := 0 to |events|
      invariant edges == EdgeList(events[..i])
    {
      var event := events[i];
      assert events[..i + 1][..i] == events[..i];
      if event.parentId == "" {
        continue;
      }
      edges := edges + [GraphEdge("edge-" + Decimal(i), event.parentId, event.eventId, ParentChild)];
    }
    assert events[..|events|] == events;
    EdgeListExact(events);
  }

  /** Where the edge was named. */
  ghost predicate NamedBelow(e: GraphEdge, n: nat) {
    exists k: nat :: k < n && e.edgeId == "edge-" + Decimal(k)
  }

  lemma ParentArcsSnoc(events: seq<Event>, event: Event)
    ensures ParentArcs(Elements(events + [event])) ==
            ParentArcs(Elements(events)) + (if event.parentId == "" then {} else {(event.parentId, event.eventId)})
  {
    assert Elements(events + [event]) == Elements(events) + {event};
  }

  lemma EdgesGrow(events: seq<Event>, edges: seq<GraphEdge>, event: Event, edge: GraphEdge)
    requires ParentEdgesOf(events, edges) && event.parentId != ""
    requires edge.edgeId != "" && edge.from == event.parentId && edge.to == event.eventId && edge.edgeType == ParentChild
    requires forall e | e in edges :: e.edgeId != edge.edgeId
    ensures ParentEdgesOf(events + [event], edges + [edge])
  {
    ParentArcsSnoc(events, event);
    HardArcsSnoc(edges, edge);
  }

  lemma {:induction false} EdgeNames(events: seq<Event>)
    ensures forall e | e in EdgeList(events) :: NamedBelow(e, |events|)
    decreases |events|
  {
    if |events| > 0 {
      var n: nat := |events| - 1;
      EdgeNames(events[..n]);
      forall e | e in EdgeList(events) ensures NamedBelow(e, n + 1) {
        if e in EdgeList(events[..n]) {
          assert NamedBelow(e, n);
        } else {
          assert e.edgeId == "edge-" + Decimal(n);
        }
      }
    }
  }

  lemma {:induction false} EdgeListExact(events: seq<Event>)
    ensures ParentEdgesOf(events, EdgeList(events))
    decreases |events|
  {
    if |events| > 0 {
      var n: nat := |events| - 1;
      var init, event := events[..n], events[n];
      EdgeListExact(init);
      EdgeNames(init);
      assert events == init + [event];
      if event.parentId == "" {
        ParentArcsSnoc(init, event);
      } else {
        var edge := GraphEdge("edge-" + Decimal(n), event.parentId, event.eventId, ParentChild);
        forall e | e in EdgeList(init) ensures e.edgeId != edge.edgeId {
          FreshName(e, n);
        }
        EdgesGrow(init, EdgeList(init), event, edge);
      }
    }
  }

  lemma FreshName(e: GraphEdge, n: nat)
    requires NamedBelow(e, n)
    ensures e.edgeId != "edge-" + Decimal(n)
  {
    var k: nat :| k < n && e.edgeId == "edge-" + Decimal(k);
    if e.edgeId == "edge-" + Decimal(n) {
      assert Decimal(k) == e.edgeId[5..] == Decimal(n);
      DecimalInjective(k, n);
    }
  }

  /** Whether the parent edges of some events can be ordered depends only on
      the set of events. */
  lemma ParentEdgesBuildable(events: seq<Event>, edges: seq<GraphEdge>)
    requires ParentEdgesOf(events, edges)
    ensures Buildable(events, edges) <==> EventsOk(events) && ParentsSettled(Elements(events))
  {
    var arcs := ParentArcs(Elements(events));
    if EdgesOk(EventIds(events), edges) {
      forall e | e in events && e.parentId != ""
        ensures e.parentId != e.eventId && exists p :: p in Elements(events) && p.eventId == e.parentId
      {
        assert (e.parentId, e.eventId) in HardArcs(edges);
        var d :| d in edges && (d.from, d.to) == (e.parentId, e.eventId);
        var k :| 0 <= k < |edges| && edges[k] == d;
        var p :| p in events && p.eventId == e.parentId;
        assert p in Elements(events);
      }
    }
    if ParentsSettled(Elements(events)) {
      forall k | 0 <= k < |edges|
        ensures edges[k].from in EventIds(events) && edges[k].to in EventIds(events) && edges[k].from != edges[k].to
      {
        assert edges[k] in edges;
        var e :| e in Elements(events) && e.parentId != "" && (e.parentId, e.eventId) == (edges[k].from, edges[k].to);
        var p :| p in Elements(events) && p.eventId == e.parentId;
      }
    }
  }

  // ----- a run's own graph -----

  /** `BuildRunGraph`. */
  method BuildRunGraph(runId: string, events: seq<Event>)
    returns (r: Result<ExecutionGraph, GraphError>, ghost order: seq<Event>)
    ensures r.Success? <==> EventsOk(events) && ParentsSettled(Elements(events))
    ensures r.Success? ==>
              && ParentEdgesOf(events, r.value.edges)
              && Timeline(Possible(), Elements(events), ParentArcs(Elements(events)), order)
              && r.value == ExecutionGraph("graph-run-" + runId, runId, true, NodesOf(order), r.value.edges)
  {
    var edges := ParentChildEdges(events);
    ParentEdgesBuildable(events, edges);
    var nodes;
    nodes, order := BuildNodes(events, edges);
    if nodes.Failure? {
      return Failure(nodes.error), order;
    }
    return Success(ExecutionGraph("graph-run-" + runId, runId, true, nodes.value, edges)), order;
  }

  /** `loadOrderedEvents`: builds the run's graph and orders its events by it.
      The second step never fails, and it returns the emitted timeline. */
  method LoadOrderedEvents(runId: string, events: seq<Event>)
    returns (r: Result<seq<Event>, GraphError>)
    ensures r.Success? <==> runId != "" && EventsOk(events) && ParentsSettled(Elements(events))
    ensures r.Success? ==> Timeline(Possible(), Elements(events), ParentArcs(Elements(events)), r.value)
  {
    var graph, order := BuildRunGraph(runId, events);
    if graph.Failure? {
      return Failure(graph.error);
    }
    ParentEdgesBuildable(events, graph.value.edges);
    if runId != "" {
      BuildThenOrderAccepts(events, graph.value.edges, order, graph.value);
    }
    r := Order(events, graph.value);
    if r.Success? {
      EmitsEnumerates(Possible(), Elements(events), ParentArcs(Elements(events)), order, {});
      BuildThenOrderReturns(events, order, graph.value, r.value);
    }
  }
}
