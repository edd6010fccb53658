/** No handler gets stuck: each can take its next step in every sound state. */
module Progress {
  import opened Basics
  import opened Contracts
  import opened CycleCheck
  import opened Emission
  import opened Ordering
  import opened RunTimeline
  import opened Oracle
  import opened Incidents
  import opened Detection
  import opened Convergence

  // ----- acyclic constraints have a source -----

  lemma WalkCons(arcs: set<Arc>, s: string, p: seq<string>)
    requires Walk(arcs, p) && (s, p[0]) in arcs
    ensures Walk(arcs, [s] + p)
  {
    forall i | 0 < i < |p| + 1 ensures Link(arcs, [s] + p, i) {
      assert i > 1 ==> Link(arcs, p, i - 1);
    }
  }

  lemma WalkTake(arcs: set<Arc>, p: seq<string>, k: nat)
    requires Walk(arcs, p) && 0 < k <= |p|
    ensures Walk(arcs, p[..k])
  {
    forall i | 0 < i < k ensures Link(arcs, p[..k], i) {
      assert Link(arcs, p, i);
    }
  }

  /** Following predecessors inside a finite set with no source comes round. */
  lemma {:induction false} BackUp(live: set<Event>, arcs: set<Arc>, q: seq<Event>)
    requires Ready(live, arcs) == {} && |q| > 0 && Walk(arcs, Ids(q))
    requires forall e | e in q :: e in live
    ensures Cyclic(arcs)
    decreases live - Elements(q)
  {
    var e := q[0];
    assert e in q && e !in Ready(live, arcs);
    var p :| p in live && (p.eventId, e.eventId) in arcs;
    WalkCons(arcs, p.eventId, Ids(q));
    assert Ids([p] + q) == [p.eventId] + Ids(q);
    if p in q {
      var k :| 0 <= k < |q| && q[k] == p;
      WalkTake(arcs, Ids([p] + q), k + 2);
      assert Closed(arcs, Ids([p] + q)[..k + 2]);
    } else {
      assert p in live - Elements(q) && p !in live - Elements([p] + q);
      assert live - Elements([p] + q) <= live - Elements(q);
      BackUp(live, arcs, [p] + q);
    }
  }

  lemma SourceExists(live: set<Event>, arcs: set<Arc>)
    requires live != {} && !Cyclic(arcs)
    ensures Ready(live, arcs) != {}
  {
    if Ready(live, arcs) == {} {
      var e :| e in live;
      assert Walk(arcs, Ids([e]));
      BackUp(live, arcs, [e]);
    }
  }

  lemma {:induction false} TimelineExists(events: set<Event>, arcs: set<Arc>) returns (order: seq<Event>)
    requires !Cyclic(arcs)
    ensures Timeline(Canonical(), events, arcs, order)
    decreases |events|
  {
    if events == {} {
      order := [];
    } else {
      SourceExists(events, arcs);
      var e := CanonicalPickExists(Ready(events, arcs));
      var rest := TimelineExists(events - {e}, arcs);
      order := [e] + rest;
      assert order[1..] == rest;
    }
  }

  // ----- a verdict and a draft exist -----

  lemma {:induction false} LeastExists(ids: set<string>) returns (id: string)
    requires ids != {}
    ensures LeastOf(ids, id)
    decreases |ids|
  {
    id :| id in ids;
    StrLessTotal(id, id);
    if ids != {id} {
      var other := LeastExists(ids - {id});
      StrLessTotal(id, other);
      if StrLess(other, id) {
        id := other;
      } else {
        forall m | m in ids ensures !StrLess(m, id) {
          if m != id {
            StrLessNotBack(id, other, m);
          }
        }
      }
    }
  }

  lemma VerdictExists(events: seq<Event>) returns (chosen: string, verdict: OracleResult)
    requires Fires(events)
    ensures Chosen(events, chosen) && Judges(Group(events, chosen), verdict) && verdict.matched
  {
    var id :| id in LogicalIds(events) && Matches(events, id);
    assert id in Matching(events);
    chosen := LeastExists(Matching(events));
    var group := Group(events, chosen);
    verdict := OracleResult(ORACLE_ID, ORACLE_VERSION, true, EffectSummary(|Attempts(group)|, |Commits(group)|),
                            [FirstId(Timeout, group), FirstId(Retry, group)] + Ids(Sort(SequenceLess, Commits(group))),
                            Report(chosen, |Commits(group)|));
  }

  lemma DraftExists(x: string, events: seq<Event>) returns (i: Incident, g: ExecutionGraph)
    requires Detectable(events)
    ensures Prepared(x, events, i, g)
  {
    var chosen, verdict := VerdictExists(events);
    EdgeListExact(events);
    var all, arcs := Elements(events), ParentArcs(Elements(events));
    var order := TimelineExists(all, arcs);
    CanonicalTimelineIsPossible(all, arcs, order);
    NotEmpty(events);
    g := ExecutionGraph(GraphIdOf(x), IncidentIdOf(x), true, NodesOf(order), EdgeList(events));
    i := Incident(IncidentIdOf(x), IncidentReady, events[0].traceId, x, 0, verdict.evidence, GraphIdOf(x), true, false, true);
    assert Draft(x, events, 0, verdict, order, i, g);
  }

  lemma NotEmpty(events: seq<Event>)
    requires Fires(events)
    ensures |events| > 0
  {
  }

  // ----- handlers -----

  lemma ReadExists(events: map<string, Event>, p: Event -> bool) returns (r: seq<Event>)
    ensures Reads(events, p, r)
  {
    var found := Listing(Selected(events, p));
    ChronologicalStrictWeak(found);
    SortSorted(Chronological, found);
    r := Sort(Chronological, found);
    RearrangedEnumerates(found, r, Selected(events, p));
  }

  lemma ConclusionExists(a: Archive, x: string, events: seq<Event>)
    returns (put: Option<(Incident, ExecutionGraph)>, err: Option<DetectError>)
    ensures Concludes(a, x, events, AfterPut(a, put), put, err)
  {
    if Detectable(events) {
      var i, g := DraftExists(x, events);
      put := Some((i, g));
      var (stored, refused) := PutIncident(a, i, g);
      err := if refused.Some? && refused.value != Conflict then Some(PersistFailed(refused.value)) else None;
      ConcludesPut(a, x, events, i, g, stored, refused, err);
    } else {
      put := None;
      err := if Fires(events) then Some(BuildFailed(InvalidGraph)) else None;
      ConcludesNothing(a, x, events, err);
    }
  }

  /** How many steps the handler still has to take. */
  function StepsLeft(pc: Pc): nat {
    match pc
    case Loading => 2
    case Holding(_) => 1
    case Finished => 0
  }

  /** A handler that has not finished can always take its next step, and no other
      handler's step takes one away from it. */
  lemma HandlerCanMove(s: State, h: nat) returns (action: Action)
    requires h < |s.handlers| && !s.handlers[h].pc.Finished?
    ensures var t := Apply(s, action);
            |t.handlers| == |s.handlers| && t.handlers[h].execution == s.handlers[h].execution &&
            StepsLeft(t.handlers[h].pc) == StepsLeft(s.handlers[h].pc) - 1
    ensures forall k | 0 <= k < |s.handlers| && k != h :: Apply(s, action).handlers[k] == s.handlers[k]
  {
    if s.handlers[h].pc.Loading? {
      var events := ReadExists(s.archive.events, OfExecution(s.handlers[h].execution));
      action := Load(h, events);
    } else {
      var put, err := ConclusionExists(s.archive, s.handlers[h].execution, s.handlers[h].pc.events);
      action := Conclude(h, put, err);
      assert CanConclude(s, h, put, err);
    }
  }

  // ----- all handlers to their end -----

  function TotalLeft(handlers: seq<Handler>): nat {
    if |handlers| == 0 then 0 else StepsLeft(handlers[0].pc) + TotalLeft(handlers[1..])
  }

  lemma {:induction false} TotalFalls(a: seq<Handler>, b: seq<Handler>, h: nat)
    requires h < |a| == |b| && StepsLeft(b[h].pc) < StepsLeft(a[h].pc)
    requires forall k | 0 <= k < |a| && k != h :: b[k] == a[k]
    ensures TotalLeft(b) < TotalLeft(a)
  {
    if h > 0 {
      TotalFalls(a[1..], b[1..], h - 1);
    } else {
      assert b[1..] == a[1..];
    }
  }

  predicate Local(action: Action) {
    action.Load? || action.Conclude?
  }

  predicate AllFinished(s: State) {
    forall h | h in s.handlers :: h.pc.Finished?
  }

  /** The same handlers, possibly further on. */
  predicate SameHandlers(s: State, t: State) {
    |t.handlers| == |s.handlers| && forall k | 0 <= k < |s.handlers| :: t.handlers[k].execution == s.handlers[k].execution
  }

  /** From any state the handlers can all run to their end. */
  lemma {:induction false} FinishAll(s: State) returns (actions: seq<Action>)
    ensures AllFinished(Run(s, actions)) && SameHandlers(s, Run(s, actions))
    ensures forall a | a in actions :: Local(a)
    decreases TotalLeft(s.handlers)
  {
    if AllFinished(s) {
      actions := [];
    } else {
      var handler :| handler in s.handlers && !handler.pc.Finished?;
      var h :| 0 <= h < |s.handlers| && s.handlers[h] == handler;
      var action := HandlerCanMove(s, h);
      var t := Apply(s, action);
      TotalFalls(s.handlers, t.handlers, h);
      MoveIsLocal(s, action);
      var rest := FinishAll(t);
      actions := [action] + rest;
      assert actions[1..] == rest;
    }
  }

  /** Moving a handler on is a load or a conclusion. */
  lemma MoveIsLocal(s: State, action: Action)
    requires |Apply(s, action).handlers| == |s.handlers| && Apply(s, action).handlers != s.handlers
    ensures Local(action)
  {
  }
}
