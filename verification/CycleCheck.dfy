/** Three-colour depth-first search and the graph validation built on it. */
module CycleCheck {
  import opened Contracts

  /** A hard ordering constraint: the first event precedes the second. */
  type Arc = (string, string)

  function HardArcs(edges: seq<GraphEdge>): set<Arc> {
    set e | e in edges && !e.edgeType.Temporal? :: (e.from, e.to)
  }

  /** Hard constraints that join two different events. */
  function ProperArcs(edges: seq<GraphEdge>): set<Arc> {
    set a | a in HardArcs(edges) && a.0 != a.1
  }

  // ----- what a cycle is -----

  /** Step `i` of `p` follows an arc. */
  ghost predicate Link(arcs: set<Arc>, p: seq<string>, i: nat)
    requires 0 < i < |p|
  {
    (p[i - 1], p[i]) in arcs
  }

  ghost predicate Walk(arcs: set<Arc>, p: seq<string>) {
    |p| > 0 && forall i | 0 < i < |p| :: Link(arcs, p, i)
  }

  lemma WalkSuffix(arcs: set<Arc>, p: seq<string>, k: nat)
    requires Walk(arcs, p) && k < |p|
    ensures Walk(arcs, p[k..])
  {
    forall i | 0 < i < |p| - k ensures Link(arcs, p[k..], i) {
      assert Link(arcs, p, k + i);
    }
  }

  lemma WalkSnoc(arcs: set<Arc>, p: seq<string>, t: string)
    requires p != [] ==> Walk(arcs, p) && (p[|p| - 1], t) in arcs
    ensures Walk(arcs, p + [t])
  {
    forall i | 0 < i < |p + [t]| ensures Link(arcs, p + [t], i) {
      assert i < |p| ==> Link(arcs, p, i);
    }
  }

  lemma WalkInit(arcs: set<Arc>, p: seq<string>)
    requires Walk(arcs, p) && |p| > 1
    ensures Walk(arcs, p[..|p| - 1])
  {
    var q := p[..|p| - 1];
    forall i | 0 < i < |q| ensures Link(arcs, q, i) {
      assert Link(arcs, p, i);
    }
  }

  /** A walk that ends on a node it has already passed. */
  ghost predicate Lasso(arcs: set<Arc>, p: seq<string>) {
    Walk(arcs, p) && p[|p| - 1] in p[..|p| - 1]
  }

  ghost predicate Closed(arcs: set<Arc>, p: seq<string>) {
    Walk(arcs, p) && |p| > 1 && p[0] == p[|p| - 1]
  }

  ghost predicate Cyclic(arcs: set<Arc>) {
    exists p :: Closed(arcs, p)
  }

  /** A cycle can be reached from one of the roots. */
  ghost predicate CyclicFrom(arcs: set<Arc>, roots: set<string>) {
    exists p :: Lasso(arcs, p) && p[0] in roots
  }

  lemma LassoGivesCycle(arcs: set<Arc>, p: seq<string>)
    requires Lasso(arcs, p)
    ensures Cyclic(arcs)
  {
    var i :| 0 <= i < |p| - 1 && p[i] == p[|p| - 1];
    WalkSuffix(arcs, p, i);
    assert Closed(arcs, p[i..]);
  }

  /** When every arc starts at a root, being cyclic and reaching a cycle from a
      root are the same thing. */
  lemma CyclicFromSources(arcs: set<Arc>, roots: set<string>)
    requires forall a | a in arcs :: a.0 in roots
    ensures CyclicFrom(arcs, roots) <==> Cyclic(arcs)
  {
    if CyclicFrom(arcs, roots) {
      var p :| Lasso(arcs, p) && p[0] in roots;
      LassoGivesCycle(arcs, p);
    }
    if Cyclic(arcs) {
      var p :| Closed(arcs, p);
      assert p[..|p| - 1][0] == p[0];
      assert Link(arcs, p, 1);
      assert Lasso(arcs, p);
    }
  }

  // ----- finishing orders -----

  ghost predicate Distinct<T>(s: seq<T>) {
    forall i, j | 0 <= i < j < |s| :: s[i] != s[j]
  }

  /** The order in which depth-first search finishes nodes: each node comes
      after everything its arcs lead to. */
  ghost predicate Finishing(arcs: set<Arc>, order: seq<string>) {
    && Distinct(order)
    && forall i, t | 0 <= i < |order| && (order[i], t) in arcs :: t in order[..i]
  }

  /** Along a walk the finishing position strictly falls. */
  lemma {:induction false} WalkDescends(arcs: set<Arc>, order: seq<string>, p: seq<string>, m: nat)
    requires Finishing(arcs, order) && Walk(arcs, p)
    requires m < |order| && order[m] == p[0]
    ensures forall k | 0 < k < |p| :: p[k] in order[..m]
    decreases |p|
  {
    if |p| > 1 {
      assert Link(arcs, p, 1);
      var m' :| 0 <= m' < m && order[m'] == p[1];
      WalkSuffix(arcs, p, 1);
      WalkDescends(arcs, order, p[1..], m');
      forall k | 0 < k < |p| ensures p[k] in order[..m] {
        if k > 1 {
          assert p[k] == p[1..][k - 1];
          assert order[..m'] <= order[..m];
        }
      }
    }
  }

  /** A walk through a finishing order never comes back. */
  lemma NeverReturns(arcs: set<Arc>, order: seq<string>, p: seq<string>)
    requires Finishing(arcs, order) && Walk(arcs, p) && p[0] in order
    ensures !Lasso(arcs, p)
  {
    var last := |p| - 1;
    var m :| 0 <= m < |order| && order[m] == p[0];
    WalkDescends(arcs, order, p, m);
    forall i | 0 <= i < last ensures p[i] != p[last] {
      assert i > 0 ==> p[i] in order[..m];
      var m' :| 0 <= m' < |order| && order[m'] == p[i];
      WalkSuffix(arcs, p, i);
      WalkDescends(arcs, order, p[i..], m');
      assert p[i..][last - i] == p[last];
    }
  }

  /** A finishing order of a set of nodes rules out every cycle they reach. */
  lemma FinishingExcludesCycles(arcs: set<Arc>, order: seq<string>, roots: set<string>)
    requires Finishing(arcs, order)
    requires forall r | r in roots :: r in order
    ensures !CyclicFrom(arcs, roots)
  {
    forall p | Walk(arcs, p) && p[0] in roots ensures !Lasso(arcs, p) {
      NeverReturns(arcs, order, p);
    }
  }

  // ----- the search -----

  /** `adj[n]`, where a missing key reads as no successors. */
  function Successors(adj: map<string, seq<string>>, n: string): seq<string> {
    if n in adj then adj[n] else []
  }

  ghost predicate Represents(adj: map<string, seq<string>>, arcs: set<Arc>) {
    && (forall s, t | t in Successors(adj, s) :: (s, t) in arcs)
    && (forall a | a in arcs :: a.1 in Successors(adj, a.0))
  }

  const GREY := 1
  const BLACK := 2

  /** Grey nodes are on the call stack, which is a walk; black ones have
      finished. */
  ghost predicate Coherent(arcs: set<Arc>, state: map<string, int>, stack: seq<string>, finished: seq<string>) {
    && (forall n | n in state :: n in stack || n in finished)
    && (forall n | n in stack :: n in state && state[n] == GREY)
    && (forall n | n in finished :: n in state && state[n] == BLACK)
    && (stack != [] ==> Walk(arcs, stack))
    && Finishing(arcs, finished)
  }

  lemma CoherentEnter(arcs: set<Arc>, state: map<string, int>, stack: seq<string>, finished: seq<string>, id: string)
    requires Coherent(arcs, state, stack, finished) && id !in state
    requires stack != [] ==> (stack[|stack| - 1], id) in arcs
    ensures Coherent(arcs, state[id := GREY], stack + [id], finished)
  {
    WalkSnoc(arcs, stack, id);
  }

  lemma CoherentLeave(arcs: set<Arc>, state: map<string, int>, stack: seq<string>, finished: seq<string>, id: string)
    requires Coherent(arcs, state, stack + [id], finished) && id !in stack
    requires forall t | (id, t) in arcs :: t in finished
    ensures Coherent(arcs, state[id := BLACK], stack, finished + [id])
  {
    if stack != [] {
      assert (stack + [id])[..|stack|] == stack;
      WalkInit(arcs, stack + [id]);
    }
    assert id in stack + [id];
    assert forall n | n in stack :: n in stack + [id];
    var order := finished + [id];
    forall i, t | 0 <= i < |order| && (order[i], t) in arcs ensures t in order[..i] {
      if i < |finished| {
        assert order[..i] == finished[..i];
      } else {
        assert order[..i] == finished;
      }
    }
  }

  /** The `visit` closure together with the `adj` and `state` maps it captures.
      `stack` is the chain of calls in progress, `finished` the order in which
      nodes turned black. */
  class Search {
    const adj: map<string, seq<string>>
    var state: map<string, int>

    ghost const arcs: set<Arc>
    ghost const universe: set<string>
    ghost var stack: seq<string>
    ghost var finished: seq<string>

    ghost predicate Valid()
      reads this
    {
      && Represents(adj, arcs)
      && (forall a | a in arcs :: a.0 in universe && a.1 in universe)
      && state.Keys <= universe
      && Coherent(arcs, state, stack, finished)
    }

    constructor (adj: map<string, seq<string>>, ghost arcs: set<Arc>, ghost universe: set<string>)
      requires Represents(adj, arcs)
      requires forall a | a in arcs :: a.0 in universe && a.1 in universe
      ensures Valid() && stack == [] && finished == []
      ensures this.arcs == arcs && this.universe == universe
    {
      this.adj, this.state := adj, map[];
      this.arcs, this.universe, this.stack, this.finished := arcs, universe, [], [];
    }

    /** Explores `id`. A cycle is reported with a walk that closes on itself;
        otherwise `id` and all it reaches are black and nothing stays grey that
        was not grey before. */
    method Visit(id: string) returns (found: bool)
      requires Valid() && id in universe
      requires stack != [] ==> (stack[|stack| - 1], id) in arcs
      modifies this
      ensures found ==> exists p :: Lasso(arcs, p) && p[0] == (old(stack) + [id])[0]
      ensures !found ==> Valid() && stack == old(stack) && id in finished
      ensures !found ==> (forall n | n in old(finished) :: n in finished) && old(state).Keys <= state.Keys
      decreases universe - state.Keys, 0
    {
      if id in state && state[id] == GREY {
        ghost var p := stack + [id];
        assert p[..|p| - 1] == stack;
        WalkSnoc(arcs, stack, id);
        assert Lasso(arcs, p);
        return true;
      }
      if id in state && state[id] == BLACK {
        return false;
      }
      CoherentEnter(arcs, state, stack, finished, id);
      ghost var before := stack;
      state, stack := state[id := GREY], stack + [id];
      found := VisitSuccessors(id);
      if !found {
        CoherentLeave(arcs, state, before, finished, id);
        state, stack, finished := state[id := BLACK], before, finished + [id];
      }
    }

    /** The loop of `visit` over the successors of the node on top. */
    method VisitSuccessors(id: string) returns (found: bool)
      requires Valid() && stack != [] && stack[|stack| - 1] == id
      modifies this
      ensures found ==> exists p :: Lasso(arcs, p) && p[0] == old(stack)[0]
      ensures !found ==> Valid() && stack == old(stack) && old(state).Keys <= state.Keys
      ensures !found ==> forall n | n in old(finished) :: n in finished
      ensures !found ==> forall t | (id, t) in arcs :: t in finished
      decreases universe - state.Keys, 1
    {
      var next := Successors(adj, id);
      for i := 0 to |next|
        invariant Valid() && stack == old(stack) && old(state).Keys <= state.Keys
        invariant forall n | n in old(finished) :: n in finished
        invariant forall j | 0 <= j < i :: next[j] in finished
      {
        assert (id, next[i]) in arcs;
        var cyclic := Visit(next[i]);
        if cyclic {
          return true;
        }
      }
      forall t | (id, t) in arcs ensures t in finished {
        assert (id, t).1 in Successors(adj, (id, t).0);
      }
      return false;
    }

    /** Visits every root, in whatever order the iteration produces them. */
    method VisitAll(roots: set<string>) returns (found: bool)
      requires Valid() && stack == [] && finished == [] && roots <= universe
      modifies this
      ensures found <==> CyclicFrom(arcs, roots)
      ensures !found ==> Finishing(arcs, finished) && forall r | r in roots :: r in finished
    {
      var todo := roots;
      while todo != {}
        invariant Valid() && stack == [] && todo <= roots
        invariant forall r | r in roots - todo :: r in finished
      {
        var n :| n in todo;
        var cyclic := Visit(n);
        if cyclic {
          return true;
        }
        todo := todo - {n};
      }
      FinishingExcludesCycles(arcs, finished, roots);
      return false;
    }
  }

  // ----- graph validation -----

  function NodeIds(nodes: seq<GraphNode>): set<string> {
    set n | n in nodes :: n.eventId
  }

  ghost predicate NodesOk(nodes: seq<GraphNode>) {
    && (forall i | 0 <= i < |nodes| :: nodes[i].eventId != "" && nodes[i].timelineIndex >= 0)
    && (forall i, j | 0 <= i < j < |nodes| ::
          nodes[i].eventId != nodes[j].eventId && nodes[i].timelineIndex != nodes[j].timelineIndex)
  }

  ghost predicate EdgesOk(ids: set<string>, edges: seq<GraphEdge>) {
    && (forall i | 0 <= i < |edges| ::
          edges[i].edgeId != "" && edges[i].from in ids && edges[i].to in ids && edges[i].from != edges[i].to)
    && (forall i, j | 0 <= i < j < |edges| :: edges[i].edgeId != edges[j].edgeId)
  }

  /** The fields, nodes and edges of the graph are in order, cycles aside. */
  ghost predicate WellFormed(g: ExecutionGraph) {
    && g.versionsOk && g.graphId != "" && g.incidentId != ""
    && NodesOk(g.nodes)
    && EdgesOk(NodeIds(g.nodes), g.edges)
  }

  ghost predicate ValidGraph(g: ExecutionGraph) {
    WellFormed(g) && !Cyclic(HardArcs(g.edges))
  }

  /** One more edge appended to the adjacency lists. */
  lemma RepresentsSnoc(adj: map<string, seq<string>>, arcs: set<Arc>, s: string, t: string)
    requires Represents(adj, arcs)
    ensures Represents(adj[s := Successors(adj, s) + [t]], arcs + {(s, t)})
  {
  }

  lemma HardArcsSnoc(edges: seq<GraphEdge>, e: GraphEdge)
    ensures HardArcs(edges + [e]) == HardArcs(edges) + (if e.edgeType.Temporal? then {} else {(e.from, e.to)})
    ensures ProperArcs(edges + [e]) ==
            ProperArcs(edges) + (if e.edgeType.Temporal? || e.from == e.to then {} else {(e.from, e.to)})
  {
    assert forall x :: x in edges + [e] <==> x in edges || x == e;
  }

  lemma NodesSnoc(nodes: seq<GraphNode>, n: GraphNode)
    requires NodesOk(nodes)
    ensures NodeIds(nodes + [n]) == NodeIds(nodes) + {n.eventId}
    ensures NodesOk(nodes + [n]) <==>
            n.eventId != "" && n.timelineIndex >= 0 && n.eventId !in NodeIds(nodes) &&
            forall m | m in nodes :: m.timelineIndex != n.timelineIndex
  {
    var all := nodes + [n];
    assert forall x :: x in all <==> x in nodes || x == n;
    assert all[|nodes|] == n && forall i | 0 <= i < |nodes| :: all[i] == nodes[i];
  }

  lemma EdgesSnoc(ids: set<string>, edges: seq<GraphEdge>, e: GraphEdge)
    requires EdgesOk(ids, edges)
    ensures EdgesOk(ids, edges + [e]) <==>
            e.edgeId != "" && e.from in ids && e.to in ids && e.from != e.to &&
            forall d | d in edges :: d.edgeId != e.edgeId
  {
    var all := edges + [e];
    assert all[|edges|] == e && forall i | 0 <= i < |edges| :: all[i] == edges[i];
  }

  /** The node loop of `Validate`; `ids` is its `nodes` map. */
  method CheckNodes(nodes: seq<GraphNode>) returns (ok: bool, ids: set<string>)
    ensures ok <==> NodesOk(nodes)
    ensures ok ==> ids == NodeIds(nodes)
  {
    var indices: set<int> := {};
    ids := {};
    for i := 0 to |nodes|
      invariant NodesOk(nodes[..i]) && ids == NodeIds(nodes[..i])
      invariant indices == set n | n in nodes[..i] :: n.timelineIndex
    {
      var n := nodes[i];
      NodesSnoc(nodes[..i], n);
      assert nodes[..i + 1] == nodes[..i] + [n];
      assert NodesOk(nodes) ==> NodesOk(nodes[..i + 1]);
      if n.eventId == "" || n.timelineIndex < 0 || n.eventId in ids || n.timelineIndex in indices {
        return false, ids;
      }
      ids, indices := ids + {n.eventId}, indices + {n.timelineIndex};
    }
    assert nodes[..|nodes|] == nodes;
    return true, ids;
  }

  /** The edge loop of `Validate`. */
  method CheckEdges(ids: set<string>, edges: seq<GraphEdge>) returns (ok: bool, adj: map<string, seq<string>>)
    ensures ok <==> EdgesOk(ids, edges)
    ensures ok ==> Represents(adj, HardArcs(edges))
  {
    var edgeIds: set<string> := {};
    adj := map[];
    for i := 0 to |edges|
      invariant EdgesOk(ids, edges[..i])
      invariant edgeIds == set e | e in edges[..i] :: e.edgeId
      invariant Represents(adj, HardArcs(edges[..i]))
    {
      var e := edges[i];
      EdgesSnoc(ids, edges[..i], e);
      assert edges[..i + 1] == edges[..i] + [e];
      assert EdgesOk(ids, edges) ==> EdgesOk(ids, edges[..i + 1]);
      if e.edgeId == "" || e.edgeId in edgeIds || e.from !in ids || e.to !in ids || e.from == e.to {
        return false, adj;
      }
      edgeIds := edgeIds + {e.edgeId};
      HardArcsSnoc(edges[..i], e);
      if !e.edgeType.Temporal? {
        RepresentsSnoc(adj, HardArcs(edges[..i]), e.from, e.to);
        adj := adj[e.from := Successors(adj, e.from) + [e.to]];
      }
    }
    assert edges[..|edges|] == edges;
    return true, adj;
  }

  /** `ExecutionGraph.Validate`. `finish` is the order in which the search
      finished the nodes; read backwards it respects every hard edge. */
  method Validate(g: ExecutionGraph) returns (ok: bool, ghost finish: seq<string>)
    ensures ok <==> ValidGraph(g)
    ensures ok ==> Finishing(HardArcs(g.edges), finish) && forall n | n in g.nodes :: n.eventId in finish
  {
    finish := [];
    if !g.versionsOk || g.graphId == "" || g.incidentId == "" {
      return false, finish;
    }
    var nodesOk, nodes := CheckNodes(g.nodes);
    if !nodesOk {
      return false, finish;
    }
    var edgesOk, adj := CheckEdges(nodes, g.edges);
    if !edgesOk {
      return false, finish;
    }
    CyclicFromSources(HardArcs(g.edges), nodes);
    var search := new Search(adj, HardArcs(g.edges), nodes);
    var cyclic := search.VisitAll(nodes);
    return !cyclic, search.finished;
  }

  /** `hasHardCycle`: decides whether proper hard edges lead from a listed node
      into a cycle, on any input, well-formed or not. */
  method HasHardCycle(nodes: seq<GraphNode>, edges: seq<GraphEdge>) returns (found: bool)
    ensures found <==> CyclicFrom(ProperArcs(edges), NodeIds(nodes))
  {
    var adj: map<string, seq<string>> := map[];
    for i := 0 to |edges|
      invariant Represents(adj, ProperArcs(edges[..i]))
    {
      var e := edges[i];
      assert edges[..i + 1] == edges[..i] + [e];
      HardArcsSnoc(edges[..i], e);
      if !e.edgeType.Temporal? && e.from != e.to {
        RepresentsSnoc(adj, ProperArcs(edges[..i]), e.from, e.to);
        adj := adj[e.from := Successors(adj, e.from) + [e.to]];
      }
    }
    assert edges[..|edges|] == edges;
    ghost var arcs := ProperArcs(edges);
    ghost var universe := NodeIds(nodes) + (set a | a in arcs :: a.0) + (set a | a in arcs :: a.1);
    var search := new Search(adj, arcs, universe);
    found := search.VisitAll(NodeIds(nodes));
  }

  /** On a well-formed graph the two cycle checks agree. */
  lemma CycleChecksAgree(g: ExecutionGraph)
    requires WellFormed(g)
    ensures CyclicFrom(ProperArcs(g.edges), NodeIds(g.nodes)) <==> !ValidGraph(g)
  {
    assert ProperArcs(g.edges) == HardArcs(g.edges);
    CyclicFromSources(HardArcs(g.edges), NodeIds(g.nodes));
  }
}
