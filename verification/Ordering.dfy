/** Deriving timeline indices (`BuildNodes`) and ordering events by them
    (`Order`). */
module Ordering {
  import opened Basics
  import opened Contracts
  import opened CycleCheck
  import opened Emission

  ghost function Elements<T>(s: seq<T>): set<T> {
    set x | x in s
  }

  function EventIds(events: seq<Event>): set<string> {
    set e | e in events :: e.eventId
  }

  ghost predicate EventsOk(events: seq<Event>) {
    AllValid(events) && DistinctIds(events)
  }

  /** What `BuildNodes` accepts. */
  ghost predicate Buildable(events: seq<Event>, edges: seq<GraphEdge>) {
    && EventsOk(events)
    && EdgesOk(EventIds(events), edges)
    && !Cyclic(HardArcs(edges))
  }

  /** Events in timeline order, numbered from zero. */
  function NodesOf(order: seq<Event>): (nodes: seq<GraphNode>)
    ensures |nodes| == |order|
    ensures forall i | 0 <= i < |order| :: nodes[i] == GraphNode(order[i].eventId, i)
  {
    seq(|order|, i requires 0 <= i < |order| => GraphNode(order[i].eventId, i))
  }

  lemma NodesOfSnoc(order: seq<Event>, e: Event)
    ensures NodesOf(order + [e]) == NodesOf(order) + [GraphNode(e.eventId, |order|)]
  {
  }

  lemma DistinctIdsAsSet(events: seq<Event>)
    requires DistinctIds(events)
    ensures DistinctIdSet(Elements(events))
    ensures |Elements(events)| == |events|
    decreases |events|
  {
    if |events| > 0 {
      var init, last := events[..|events| - 1], events[|events| - 1];
      DistinctIdsAsSet(init);
      assert events == init + [last];
      assert Elements(events) == Elements(init) + {last};
      assert last !in init;
    }
  }

  lemma {:induction false} DistinctSize<T>(s: seq<T>)
    requires Distinct(s)
    ensures |Elements(s)| == |s|
    decreases |s|
  {
    if |s| > 0 {
      var init, last := s[..|s| - 1], s[|s| - 1];
      assert s == init + [last];
      DistinctSize(init);
      assert Elements(s) == Elements(init) + {last} && last !in init;
    }
  }

  // ----- counting predecessors -----

  /** How many hard edges lead from live events to `v`, with multiplicity. */
  function InCount(edges: seq<GraphEdge>, live: set<string>, v: string): nat {
    if |edges| == 0 then 0 else
    var e := edges[|edges| - 1];
    InCount(edges[..|edges| - 1], live, v) + (if !e.edgeType.Temporal? && e.to == v && e.from in live then 1 else 0)
  }

  /** The successors of `s` in edge order, with multiplicity. */
  function Targets(edges: seq<GraphEdge>, s: string): seq<string> {
    if |edges| == 0 then [] else
    var e := edges[|edges| - 1];
    Targets(edges[..|edges| - 1], s) + (if !e.edgeType.Temporal? && e.from == s then [e.to] else [])
  }

  lemma {:induction false} InCountZero(edges: seq<GraphEdge>, live: set<string>, v: string)
    ensures InCount(edges, live, v) == 0 <==> forall s | s in live :: (s, v) !in HardArcs(edges)
    decreases |edges|
  {
    if |edges| > 0 {
      var init, e := edges[..|edges| - 1], edges[|edges| - 1];
      InCountZero(init, live, v);
      assert edges == init + [e];
      HardArcsSnoc(init, e);
    }
  }

  lemma {:induction false} InCountRemove(edges: seq<GraphEdge>, live: set<string>, s: string, v: string)
    requires s in live
    ensures InCount(edges, live, v) == InCount(edges, live - {s}, v) + multiset(Targets(edges, s))[v]
    decreases |edges|
  {
    if |edges| > 0 {
      InCountRemove(edges[..|edges| - 1], live, s, v);
    }
  }

  lemma {:induction false} TargetsAreArcs(edges: seq<GraphEdge>, s: string, t: string)
    requires t in Targets(edges, s)
    ensures (s, t) in HardArcs(edges)
    decreases |edges|
  {
    var init, e := edges[..|edges| - 1], edges[|edges| - 1];
    assert edges == init + [e];
    HardArcsSnoc(init, e);
    if t in Targets(init, s) {
      TargetsAreArcs(init, s, t);
    }
  }

  // ----- the steps of BuildNodes -----

  ghost predicate Lists(adjacency: map<string, seq<string>>, edges: seq<GraphEdge>) {
    forall s :: Successors(adjacency, s) == Targets(edges, s)
  }

  ghost predicate Counts(indegree: map<string, int>, edges: seq<GraphEdge>, live: set<string>) {
    forall v | v in indegree :: indegree[v] == InCount(edges, live, v)
  }

  lemma IndexSnoc(adjacency: map<string, seq<string>>, indegree: map<string, int>, edges: seq<GraphEdge>,
                  ids: set<string>, e: GraphEdge)
    requires Lists(adjacency, edges) && Counts(indegree, edges, ids)
    requires e.from in ids && e.to in indegree
    ensures e.edgeType.Temporal? ==> Lists(adjacency, edges + [e]) && Counts(indegree, edges + [e], ids)
    ensures !e.edgeType.Temporal? ==>
              && Lists(adjacency[e.from := Successors(adjacency, e.from) + [e.to]], edges + [e])
              && Counts(indegree[e.to := indegree[e.to] + 1], edges + [e], ids)
  {
    assert (edges + [e])[..|edges|] == edges;
    assert forall s :: Targets(edges + [e], s) ==
                       Targets(edges, s) + (if !e.edgeType.Temporal? && e.from == s then [e.to] else []);
  }

  /** The loop that fills `adjacency` and `indegree`. */
  method IndexEdges(ids: set<string>, edges: seq<GraphEdge>)
    returns (adjacency: map<string, seq<string>>, indegree: map<string, int>)
    requires EdgesOk(ids, edges)
    ensures Lists(adjacency, edges)
    ensures indegree.Keys == ids && Counts(indegree, edges, ids)
  {
    adjacency := map[];
    indegree := map id | id in ids :: 0;
    for i := 0 to |edges|
      invariant Lists(adjacency, edges[..i])
      invariant indegree.Keys == ids && Counts(indegree, edges[..i], ids)
    {
      var e := edges[i];
      assert edges[..i + 1] == edges[..i] + [e];
      IndexSnoc(adjacency, indegree, edges[..i], ids, e);
      if e.edgeType.Temporal? {
        continue;
      }
      adjacency := adjacency[e.from := Successors(adjacency, e.from) + [e.to]];
      indegree := indegree[e.to := indegree[e.to] + 1];
    }
    assert edges[..|edges|] == edges;
  }

  /** The loop over `indegree` that gathers the eligible events, in whatever
      order the map is iterated, and tracks the earliest timestamp. */
  method GatherEligible(byId: map<string, Event>, indegree: map<string, int>)
    returns (eligible: seq<Event>, earliest: int)
    requires indegree.Keys <= byId.Keys
    requires Keyed(byId)
    ensures Enumerates(eligible, set id | id in indegree && indegree[id] == 0 :: byId[id])
    ensures earliest == Scan(eligible)
  {
    var todo := indegree.Keys;
    eligible, earliest := [], 0;
    while todo != {}
      invariant todo <= indegree.Keys
      invariant Enumerates(eligible, set id | id in indegree.Keys - todo && indegree[id] == 0 :: byId[id])
      invariant earliest == Scan(eligible)
    {
      var id :| id in todo;
      ghost var before := set x | x in indegree.Keys - todo && indegree[x] == 0 :: byId[x];
      todo := todo - {id};
      if indegree[id] != 0 {
        assert before == set x | x in indegree.Keys - todo && indegree[x] == 0 :: byId[x];
        continue;
      }
      var event := byId[id];
      EnumeratesSnoc(eligible, before, event);
      assert before + {event} == set x | x in indegree.Keys - todo && indegree[x] == 0 :: byId[x];
      ScanSnoc(eligible, event);
      if earliest == 0 || event.occurredAt < earliest {
        earliest := event.occurredAt;
      }
      eligible := eligible + [event];
    }
    assert indegree.Keys - todo == indegree.Keys;
  }

  /** The window filter, the sort and the pick of the first candidate. */
  method Select(eligible: seq<Event>, earliest: int) returns (selected: Event)
    requires |eligible| > 0 && earliest == Scan(eligible)
    ensures LeastUpTo(Elements(eligible), earliest + WINDOW, selected)
  {
    var cutoff := earliest + WINDOW;
    var candidates := Filter((e: Event) => e.occurredAt <= cutoff, eligible);
    ScanBounds(eligible);
    var x :| x in eligible && Scan(eligible) == x.occurredAt;
    assert x in candidates;
    var sorted := Sort(TieLess, candidates);
    TieLessStrictWeak(candidates);
    SortSorted(TieLess, candidates);
    selected := sorted[0];
    TieLessTotal(selected, selected);
    forall c | c in eligible && c.occurredAt <= cutoff ensures !TieLess(c, selected) {
      assert c in sorted;
    }
  }

  lemma TieLessStrictWeak(events: seq<Event>)
    ensures StrictWeak(TieLess, events)
  {
    forall x, y, z
      ensures TieLess(x, y) ==> !TieLess(y, x)
      ensures !TieLess(y, x) && !TieLess(z, y) ==> !TieLess(z, x)
    {
      TieLessTotal(x, y);
      if !TieLess(y, x) && !TieLess(z, y) {
        TieLessTransitive(x, y, z);
      }
    }
  }

  /** The loop that lowers the in-degree of each successor. A missing key reads
      as zero and would come back to life; none is missing. */
  method Release(indegree: map<string, int>, next: seq<string>) returns (lowered: map<string, int>)
    requires forall t | t in next :: t in indegree
    ensures lowered.Keys == indegree.Keys
    ensures forall v | v in indegree :: lowered[v] == indegree[v] - multiset(next)[v]
  {
    lowered := indegree;
    for i := 0 to |next|
      invariant lowered.Keys == indegree.Keys
      invariant forall v | v in indegree :: lowered[v] == indegree[v] - multiset(next[..i])[v]
    {
      assert next[..i + 1] == next[..i] + [next[i]];
      lowered := lowered[next[i] := (if next[i] in lowered then lowered[next[i]] else 0) - 1];
    }
    assert next[..|next|] == next;
  }

  /** The events still keyed by `indegree`. */
  ghost function Live(byId: map<string, Event>, keys: set<string>): set<Event>
    requires keys <= byId.Keys
  {
    set id | id in keys :: byId[id]
  }

  lemma EligibleIsReady(byId: map<string, Event>, indegree: map<string, int>, edges: seq<GraphEdge>)
    requires indegree.Keys <= byId.Keys
    requires Keyed(byId)
    requires Counts(indegree, edges, indegree.Keys)
    ensures (set id | id in indegree && indegree[id] == 0 :: byId[id]) ==
            Ready(Live(byId, indegree.Keys), HardArcs(edges))
  {
    var live := Live(byId, indegree.Keys);
    forall id | id in indegree
      ensures indegree[id] == 0 <==> byId[id] in Ready(live, HardArcs(edges))
    {
      InCountZero(edges, indegree.Keys, id);
      if byId[id] in Ready(live, HardArcs(edges)) {
        forall s | s in indegree ensures (s, id) !in HardArcs(edges) {
          assert byId[s] in live;
        }
      }
    }
  }

  /** No emitted event has a live predecessor. */
  ghost predicate Upward(arcs: set<Arc>, keys: set<string>) {
    forall a | a in arcs && a.0 in keys :: a.1 in keys
  }

  /** The state of the main loop: `indegree` is keyed by the live ids and counts
      live predecessors, and `order` has been emitted so far. */
  ghost predicate RoundInv(byId: map<string, Event>, edges: seq<GraphEdge>, all: set<Event>,
                           indegree: map<string, int>, order: seq<Event>)
  {
    && indegree.Keys <= byId.Keys
    && Counts(indegree, edges, indegree.Keys)
    && Upward(HardArcs(edges), indegree.Keys)
    && Emits(Possible(), all, HardArcs(edges), order, Live(byId, indegree.Keys))
  }

  ghost predicate Keyed(byId: map<string, Event>) {
    forall id | id in byId :: byId[id].eventId == id
  }

  lemma LiveWithout(byId: map<string, Event>, keys: set<string>, e: Event)
    requires keys <= byId.Keys && Keyed(byId) && e in Live(byId, keys)
    ensures Live(byId, keys - {e.eventId}) == Live(byId, keys) - {e}
  {
  }

  lemma UpwardWithout(byId: map<string, Event>, arcs: set<Arc>, keys: set<string>, e: Event)
    requires keys <= byId.Keys && Keyed(byId) && Upward(arcs, keys)
    requires e in Ready(Live(byId, keys), arcs)
    ensures Upward(arcs, keys - {e.eventId})
  {
    forall a | a in arcs && a.0 in keys - {e.eventId} ensures a.1 in keys - {e.eventId} {
      assert byId[a.0] in Live(byId, keys);
      assert a == (byId[a.0].eventId, a.1);
    }
  }

  /** Emitting `e` and deleting its key re-establishes the loop state once its
      successors are lowered. */
  lemma RoundStep(byId: map<string, Event>, edges: seq<GraphEdge>, all: set<Event>,
                  indegree: map<string, int>, order: seq<Event>, e: Event, lowered: map<string, int>)
    requires Keyed(byId) && RoundInv(byId, edges, all, indegree, order)
    requires e in Ready(Live(byId, indegree.Keys), HardArcs(edges))
    requires PossiblePick(Ready(Live(byId, indegree.Keys), HardArcs(edges)), e)
    requires lowered.Keys == indegree.Keys - {e.eventId}
    requires forall v | v in lowered :: lowered[v] == indegree[v] - multiset(Targets(edges, e.eventId))[v]
    ensures RoundInv(byId, edges, all, lowered, order + [e])
  {
    LiveWithout(byId, indegree.Keys, e);
    UpwardWithout(byId, HardArcs(edges), indegree.Keys, e);
    EmitsSnoc(Possible(), all, HardArcs(edges), order, Live(byId, indegree.Keys), e);
    forall v | v in lowered ensures lowered[v] == InCount(edges, lowered.Keys, v) {
      InCountRemove(edges, indegree.Keys, e.eventId, v);
    }
  }

  /** The successors of a ready event are live and differ from it. */
  lemma TargetsLive(byId: map<string, Event>, edges: seq<GraphEdge>, keys: set<string>, e: Event)
    requires keys <= byId.Keys && Keyed(byId)
    requires Upward(HardArcs(edges), keys)
    requires e in Ready(Live(byId, keys), HardArcs(edges))
    ensures forall t | t in Targets(edges, e.eventId) :: t in keys - {e.eventId}
  {
    forall t | t in Targets(edges, e.eventId) ensures t in keys - {e.eventId} {
      TargetsAreArcs(edges, e.eventId, t);
      assert (e.eventId, e.eventId) !in HardArcs(edges);
    }
  }

  /** The input loop of `BuildNodes` and `Order`: indexes the events by id. */
  method IndexEvents(events: seq<Event>) returns (ok: bool, byId: map<string, Event>)
    ensures ok <==> EventsOk(events)
    ensures ok ==> byId.Keys == EventIds(events) && Keyed(byId)
    ensures ok ==> forall e | e in events :: e.eventId in byId && byId[e.eventId] == e
  {
    byId := map[];
    for i := 0 to |events|
      invariant EventsOk(events[..i]) && byId.Keys == EventIds(events[..i])
      invariant Keyed(byId)
      invariant forall e | e in events[..i] :: e.eventId in byId && byId[e.eventId] == e
    {
      var e := events[i];
      assert events[i] in events;
      if !e.Valid() {
        return false, byId;
      }
      if e.eventId in byId {
        var d :| d in events[..i] && d.eventId == e.eventId;
        var k :| 0 <= k < i && events[k] == d;
        return false, byId;
      }
      assert events[..i + 1] == events[..i] + [e];
      byId := byId[e.eventId := e];
    }
    assert events[..|events|] == events;
    return true, byId;
  }

  /** One round of the main loop: some event is eligible, one is selected and
      its successors are lowered. */
  method Round(byId: map<string, Event>, edges: seq<GraphEdge>, adjacency: map<string, seq<string>>,
               indegree: map<string, int>, ghost finish: seq<string>)
    returns (selected: Event, lowered: map<string, int>)
    requires Keyed(byId) && Lists(adjacency, edges)
    requires Finishing(HardArcs(edges), finish) && forall id | id in byId :: id in finish
    requires indegree.Keys <= byId.Keys && |indegree.Keys| > 0
    requires Counts(indegree, edges, indegree.Keys) && Upward(HardArcs(edges), indegree.Keys)
    ensures selected in Ready(Live(byId, indegree.Keys), HardArcs(edges))
    ensures PossiblePick(Ready(Live(byId, indegree.Keys), HardArcs(edges)), selected)
    ensures lowered.Keys == indegree.Keys - {selected.eventId} && |lowered.Keys| == |indegree.Keys| - 1
    ensures forall v | v in lowered :: lowered[v] == indegree[v] - multiset(Targets(edges, selected.eventId))[v]
  {
    var eligible, earliest := GatherEligible(byId, indegree);
    EligibleIsReady(byId, indegree, edges);
    SomethingReady(byId, edges, indegree.Keys, finish);
    assert Elements(eligible) == Ready(Live(byId, indegree.Keys), HardArcs(edges));
    selected := Select(eligible, earliest);
    TargetsLive(byId, edges, indegree.Keys, selected);
    lowered := Release(indegree - {selected.eventId}, Successors(adjacency, selected.eventId));
  }

  lemma SomethingReady(byId: map<string, Event>, edges: seq<GraphEdge>, keys: set<string>, finish: seq<string>)
    requires Keyed(byId) && keys <= byId.Keys && |keys| > 0
    requires Finishing(HardArcs(edges), finish) && forall id | id in byId :: id in finish
    ensures Ready(Live(byId, keys), HardArcs(edges)) != {}
  {
    var k :| k in keys;
    assert byId[k] in Live(byId, keys);
    var r := ReadyExists(Live(byId, keys), HardArcs(edges), finish);
  }

  /** The main loop of `BuildNodes`. With acyclic edges some event is always
      eligible, so exactly one event is emitted per round. */
  method EmitAll(byId: map<string, Event>, edges: seq<GraphEdge>, ghost finish: seq<string>)
    returns (result: seq<GraphNode>, ghost order: seq<Event>)
    requires Keyed(byId) && EdgesOk(byId.Keys, edges)
    requires Finishing(HardArcs(edges), finish) && forall id | id in byId :: id in finish
    ensures Timeline(Possible(), Live(byId, byId.Keys), HardArcs(edges), order)
    ensures result == NodesOf(order)
    ensures |result| == |byId|
  {
    var adjacency, indegree := IndexEdges(byId.Keys, edges);
    ghost var all := Live(byId, byId.Keys);
    result, order := [], [];
    while |result| < |byId|
      invariant RoundInv(byId, edges, all, indegree, order)
      invariant result == NodesOf(order)
      invariant |order| + |indegree.Keys| == |byId|
    {
      var selected, lowered := Round(byId, edges, adjacency, indegree, finish);
      RoundStep(byId, edges, all, indegree, order, selected, lowered);
      NodesOfSnoc(order, selected);
      result := result + [GraphNode(selected.eventId, |result|)];
      indegree, order := lowered, order + [selected];
    }
    assert Live(byId, indegree.Keys) == {};
  }

  /** Validates the provisional graph, in which nodes stand in input order. */
  method CheckConstraints(events: seq<Event>, edges: seq<GraphEdge>) returns (err: Option<GraphError>, ghost finish: seq<string>)
    requires EventsOk(events)
    ensures err.None? <==> Buildable(events, edges)
    ensures err == Some(GraphCycle) <==> CyclicFrom(ProperArcs(edges), EventIds(events))
    ensures err.None? ==> Finishing(HardArcs(edges), finish) && forall id | id in EventIds(events) :: id in finish
  {
    var nodes := NodesOf(events);
    ProvisionalNodes(events);
    var graph := ExecutionGraph("validation", "validation", true, nodes, edges);
    var valid;
    valid, finish := Validate(graph);
    if !valid {
      var cyclic := HasHardCycle(nodes, edges);
      return Some(if cyclic then GraphCycle else InvalidGraph), finish;
    }
    CycleChecksAgree(graph);
    forall id | id in EventIds(events) ensures id in finish {
      var n :| n in nodes && n.eventId == id;
    }
    return None, finish;
  }

  /** `BuildNodes`. */
  method BuildNodes(events: seq<Event>, edges: seq<GraphEdge>)
    returns (r: Result<seq<GraphNode>, GraphError>, ghost order: seq<Event>)
    ensures r.Success? <==> Buildable(events, edges)
    ensures r == Failure(GraphCycle) <==> EventsOk(events) && CyclicFrom(ProperArcs(edges), EventIds(events))
    ensures r.Success? ==> Timeline(Possible(), Elements(events), HardArcs(edges), order)
    ensures r.Success? ==> r.value == NodesOf(order)
  {
    order := [];
    var ok, byId := IndexEvents(events);
    if !ok {
      return Failure(InvalidGraph), order;
    }
    var err, finish := CheckConstraints(events, edges);
    if err.Some? {
      return Failure(err.value), order;
    }
    var result;
    result, order := EmitAll(byId, edges, finish);
    assert Live(byId, byId.Keys) == Elements(events);
    return Success(result), order;
  }

  /** Away from the zero instant what `BuildNodes` emits is the canonical
      timeline. */
  lemma {:induction false} EmittedIsCanonical(live: set<Event>, arcs: set<Arc>, order: seq<Event>)
    requires DistinctIdSet(live) && forall e | e in live :: e.occurredAt != 0
    requires Timeline(Possible(), live, arcs, order)
    ensures Timeline(Canonical(), live, arcs, order)
    decreases |order|
  {
    if |order| > 0 {
      PossibleIsCanonical(Ready(live, arcs), order[0]);
      EmittedIsCanonical(live - {order[0]}, arcs, order[1..]);
    }
  }

  /** So its result depends only on the set of events and the set of hard
      constraints: not on input order, nor on how often or in which order the
      constraints are listed, nor on map iteration. */
  lemma BuildNodesDeterministic(events: seq<Event>, edges: seq<GraphEdge>, order: seq<Event>,
                                events': seq<Event>, edges': seq<GraphEdge>, order': seq<Event>)
    requires EventsOk(events) && forall e | e in events :: e.occurredAt != 0
    requires Elements(events) == Elements(events') && HardArcs(edges) == HardArcs(edges')
    requires Timeline(Possible(), Elements(events), HardArcs(edges), order)
    requires Timeline(Possible(), Elements(events'), HardArcs(edges'), order')
    ensures order == order' && NodesOf(order) == NodesOf(order')
  {
    DistinctIdsAsSet(events);
    EmittedIsCanonical(Elements(events), HardArcs(edges), order);
    EmittedIsCanonical(Elements(events), HardArcs(edges), order');
    CanonicalUnique(Elements(events), HardArcs(edges), order, order');
  }

  lemma ProvisionalNodes(events: seq<Event>)
    requires EventsOk(events)
    ensures NodesOk(NodesOf(events)) && NodeIds(NodesOf(events)) == EventIds(events)
  {
    var nodes := NodesOf(events);
    forall e | e in events ensures exists n :: n in nodes && n.eventId == e.eventId {
      var i :| 0 <= i < |events| && events[i] == e;
      assert nodes[i] in nodes;
    }
    forall n | n in nodes ensures n.eventId in EventIds(events) {
      var i :| 0 <= i < |nodes| && nodes[i] == n;
      assert events[i] in events;
    }
    forall i | 0 <= i < |events| ensures events[i].eventId != "" {
      assert events[i] in events;
    }
  }
}
