/** The in-memory store. Every method runs under the store's mutex, so one call
    is one atomic step; each is proved against a function on the stored values. */
module Stores {
  import opened Basics
  import opened Contracts
  import opened CycleCheck
  import opened Emission
  import opened RunTimeline
  import opened Incidents
  import ReplayContract
  import RunStore
  import Pagination
  import Diffs

  datatype Detail = Detail(incident: Incident, graph: ExecutionGraph, events: seq<Event>)

  /** Reads the selected values of a map, in some iteration order. */
  method ListWhere<V(==, !new)>(m: map<string, V>, p: V -> bool) returns (r: seq<V>)
    requires forall j, k | j in m && k in m && m[j] == m[k] :: j == k
    ensures Enumerates(r, Selected(m, p))
  {
    r := [];
    var keys := m.Keys;
    ghost var done: set<V> := {};
    while keys != {}
      invariant keys <= m.Keys && Enumerates(r, done)
      invariant forall v :: v in done <==> exists k :: k in m && k !in keys && p(m[k]) && m[k] == v
      decreases |keys|
    {
      var k :| k in keys;
      keys := keys - {k};
      if p(m[k]) {
        EnumeratesSnoc(r, done, m[k]);
        r, done := r + [m[k]], done + {m[k]};
      }
    }
    assert forall v :: v in done <==> v in Selected(m, p);
  }

  class Store {
    var events: map<string, Event>
    var incidents: map<string, Incident>
    var graphs: map<string, ExecutionGraph>
    var runs: map<string, ReplayContract.Run>
    var diffs: map<string, Diffs.ReplayDiff>
    var leaseUntil: map<string, int>

    ghost function Captured(): Archive
      reads `events, `incidents, `graphs
    {
      Archive(events, incidents, graphs)
    }

    ghost function Replays(): RunStore.Runs
      reads `runs, `leaseUntil
    {
      RunStore.Runs(runs, leaseUntil)
    }

    ghost predicate CaptureValid()
      reads `events, `incidents, `graphs
    {
      ArchiveInv(Captured())
    }

    ghost predicate ReplaysValid()
      reads `runs, `leaseUntil
    {
      RunStore.StoreInv(Replays())
    }

    ghost predicate DiffsValid()
      reads `diffs
    {
      Diffs.Filed(diffs)
    }

    /** What every reachable store satisfies. */
    ghost predicate Valid()
      reads this
    {
      CaptureValid() && ReplaysValid() && DiffsValid()
    }

    constructor ()
      ensures Valid()
      ensures Captured() == Archive(map[], map[], map[]) && Replays() == RunStore.Runs(map[], map[]) && diffs == map[]
    {
      events, incidents, graphs, runs, diffs, leaseUntil := map[], map[], map[], map[], map[], map[];
    }

    /** Everything but the leases is dropped. */
    method Reset() returns (clearedIncidents: nat, clearedRuns: nat)
      modifies this
      ensures Valid()
      ensures clearedIncidents == old(|incidents|) && clearedRuns == old(|runs|)
      ensures Captured() == Archive(map[], map[], map[]) && Replays() == RunStore.Reset(old(Replays())) && diffs == map[]
    {
      clearedIncidents, clearedRuns := |incidents|, |runs|;
      events, incidents, graphs, runs, diffs := map[], map[], map[], map[], map[];
    }

    // ----- capture -----

    method IngestEvent(e: Event) returns (err: Option<StoreError>)
      requires Valid()
      modifies `events
      ensures Valid() && (Captured(), err) == Ingest(old(Captured()), e)
      ensures err == if !e.Valid() then Some(InvalidRecord) else if e.eventId in old(events) then Some(Conflict) else None
      ensures events == if err.None? then old(events)[e.eventId := e] else old(events)
    {
      IngestKeepsInv(Captured(), e);
      if !e.Valid() {
        return Some(InvalidRecord);
      }
      if e.eventId in events {
        return Some(Conflict);
      }
      events := events[e.eventId := e];
      return None;
    }

    method EventsForExecution(x: string) returns (r: seq<Event>)
      requires Valid()
      ensures Reads(events, OfExecution(x), r) && TimeOrdered(r)
      ensures forall e :: e in r <==> e.eventId in events && events[e.eventId] == e && e.executionId == x
    {
      forall e ensures e in Selected(events, OfExecution(x)) <==>
                       e.eventId in events && events[e.eventId] == e && e.executionId == x {
        EventFiled(e);
      }
      r := SortedEvents(OfExecution(x));
    }

    method EventsForRun(run: ReplayContract.Run) returns (r: seq<Event>)
      requires Valid()
      ensures Reads(events, OfRun(run.runId), r) && TimeOrdered(r)
      ensures forall e :: e in r <==> e.eventId in events && events[e.eventId] == e && e.replayRunId == run.runId
    {
      forall e ensures e in Selected(events, OfRun(run.runId)) <==>
                       e.eventId in events && events[e.eventId] == e && e.replayRunId == run.runId {
        EventFiled(e);
      }
      r := SortedEvents(OfRun(run.runId));
    }

    method SortedEvents(p: Event -> bool) returns (r: seq<Event>)
      requires Valid()
      ensures Reads(events, p, r) && TimeOrdered(r)
    {
      var found := ListWhere(events, p);
      ChronologicalStrictWeak(found);
      SortSorted(Chronological, found);
      r := Sort(Chronological, found);
      RearrangedEnumerates(found, r, Selected(events, p));
      ReadsTimeOrdered(Captured(), p, r);
    }

    lemma EventFiled(e: Event)
      requires Valid()
      ensures (exists id :: id in events && events[id] == e) <==> e.eventId in events && events[e.eventId] == e
    {
      assert forall id | id in events :: events[id].eventId == id by {
        assert ArchiveInv(Captured());
      }
    }

    /** The node loop of `PutIncident`. */
    method LoadNodes(i: Incident, nodes: seq<GraphNode>) returns (ok: bool, referenced: seq<Event>)
      ensures ok <==> forall n | n in nodes ::
                n.eventId in events && events[n.eventId].executionId == i.executionId && events[n.eventId].traceId == i.traceId
      ensures ok ==> |referenced| == |nodes| && forall k | 0 <= k < |nodes| :: referenced[k] == events[nodes[k].eventId]
    {
      referenced := [];
      for k := 0 to |nodes|
        invariant forall n | n in nodes[..k] ::
                    n.eventId in events && events[n.eventId].executionId == i.executionId && events[n.eventId].traceId == i.traceId
        invariant |referenced| == k
        invariant forall j | 0 <= j < k :: nodes[j] in nodes[..k] && referenced[j] == events[nodes[j].eventId]
      {
        var n := nodes[k];
        assert nodes[..k + 1] == nodes[..k] + [n];
        assert n in nodes;
        if n.eventId !in events || events[n.eventId].executionId != i.executionId || events[n.eventId].traceId != i.traceId {
          return false, referenced;
        }
        referenced := referenced + [events[n.eventId]];
      }
      assert nodes[..|nodes|] == nodes;
      return true, referenced;
    }

    /** The evidence loop. */
    method CoversEvidence(evidence: seq<string>, nodeIds: set<string>) returns (ok: bool)
      ensures ok <==> forall id | id in evidence :: id in nodeIds
    {
      for k := 0 to |evidence|
        invariant forall j | 0 <= j < k :: evidence[j] in nodeIds
      {
        if evidence[k] !in nodeIds {
          return false;
        }
      }
      return true;
    }

    /** The checks of `PutIncident` before it takes the lock. */
    method CheckForm(i: Incident, g: ExecutionGraph) returns (ok: bool)
      ensures ok <==> i.Valid() && ValidGraph(g) && g.incidentId == i.incidentId && i.graphId == g.graphId
    {
      if !i.Valid() {
        return false;
      }
      var valid, finish := Validate(g);
      return valid && g.incidentId == i.incidentId && i.graphId == g.graphId;
    }

    /** Its checks against the stored events: nodes, evidence, order. */
    method CheckReferences(i: Incident, g: ExecutionGraph) returns (ok: bool)
      requires i.Valid() && ValidGraph(g) && g.incidentId == i.incidentId && i.graphId == g.graphId
      ensures ok <==> Refers(Captured(), i, g)
    {
      var loaded, referenced := LoadNodes(i, g.nodes);
      if !loaded {
        return false;
      }
      assert referenced == Referenced(Captured(), g);
      var covered := CoversEvidence(i.evidence, NodeIds(g.nodes));
      if !covered {
        return false;
      }
      var ordered := Order(referenced, g);
      return ordered.Success?;
    }

    /** All checks of `PutIncident`, in their order. */
    method VetIncident(i: Incident, g: ExecutionGraph) returns (err: Option<StoreError>)
      ensures err == Incidents.PutIncident(Captured(), i, g).1
    {
      var formed := CheckForm(i, g);
      if !formed {
        return Some(InternalError);
      }
      if i.incidentId in incidents || g.graphId in graphs {
        return Some(Conflict);
      }
      var ok := CheckReferences(i, g);
      return if ok then None else Some(InternalError);
    }

    method FileIncident(i: Incident, g: ExecutionGraph)
      requires ReplaysValid() && DiffsValid()
      requires ArchiveInv(Captured().(incidents := incidents[i.incidentId := i], graphs := graphs[g.graphId := g]))
      modifies `incidents, `graphs
      ensures Valid()
      ensures Captured() == old(Captured()).(incidents := old(incidents)[i.incidentId := i], graphs := old(graphs)[g.graphId := g])
    {
      incidents := incidents[i.incidentId := i];
      graphs := graphs[g.graphId := g];
    }

    method PutIncident(i: Incident, g: ExecutionGraph) returns (err: Option<StoreError>)
      requires Valid()
      modifies `incidents, `graphs
      ensures Valid() && (Captured(), err) == Incidents.PutIncident(old(Captured()), i, g)
      ensures incidents == if err.None? then old(incidents)[i.incidentId := i] else old(incidents)
      ensures graphs == if err.None? then old(graphs)[g.graphId := g] else old(graphs)
      ensures err == Some(Conflict) <==>
                && i.Valid() && ValidGraph(g) && g.incidentId == i.incidentId && i.graphId == g.graphId
                && (i.incidentId in old(incidents) || g.graphId in old(graphs))
      ensures err in {None, Some(Conflict), Some(InternalError)}
    {
      err := VetIncident(i, g);
      PutIncidentAdds(Captured(), i, g);
      if err.None? {
        PutIncidentKeepsInv(Captured(), i, g);
        FileIncident(i, g);
      }
    }

    lemma IncidentsFiled()
      requires Valid()
      ensures Pagination.Filed(incidents)
    {
      assert forall id | id in incidents :: Backed(Captured(), id);
    }

    method AllListed(status: Option<IncidentStatus>, cursor: Option<Pagination.Cursor>) returns (items: seq<Incident>)
      requires Valid()
      ensures Pagination.Listed(incidents, status, cursor, items)
    {
      var p := (i: Incident) => Pagination.HasStatus(i, status) && Pagination.Past(i, cursor);
      IncidentsFiled();
      var found := ListWhere(incidents, p);
      Pagination.NewerFirstStrictWeak(found);
      SortSorted(Pagination.NewerFirst, found);
      items := Sort(Pagination.NewerFirst, found);
      assert Selected(incidents, p) == Pagination.Wanted(incidents, status, cursor);
      RearrangedEnumerates(found, items, Pagination.Wanted(incidents, status, cursor));
    }

    method ListIncidents(q: Pagination.Query) returns (r: Result<Pagination.Page, StoreError>)
      requires Valid()
      ensures Pagination.Answers(incidents, q, r)
      ensures r.Success? ==>
                && Pagination.NewestFirst(r.value.items)
                && (q.cursor.Some? ==> q.cursor.value.Token? && Pagination.AllPast(r.value.items, q.cursor.value.cursor))
                && |r.value.items| <= if q.limit.Some? then q.limit.value else 20
      ensures q.limit.Some? && (q.limit.value < 1 || q.limit.value > 100) ==> r == Failure(Conflict)
    {
      IncidentsFiled();
      var limit := Pagination.LimitOf(q);
      if limit < 1 || limit > Pagination.MAX_LIMIT {
        return Failure(Conflict);
      }
      var cursor := None;
      if q.cursor.Some? {
        cursor := Pagination.DecodeCursor(q.cursor.value);
        if cursor.None? {
          return Failure(Conflict);
        }
      }
      var items := AllListed(q.status, cursor);
      var page := Pagination.Page(items, None);
      if |items| > limit {
        page := Pagination.Page(items[..limit], Some(Pagination.Token(Pagination.KeyOf(items[limit - 1]))));
      }
      Pagination.PageNewestFirst(incidents, q.status, cursor, limit, page);
      return Success(page);
    }

    /** The detail view fails for unknown incidents only. */
    method GetIncidentDetail(id: string) returns (r: Result<Detail, StoreError>)
      requires Valid()
      ensures r == Failure(NotFound) <==> id !in incidents
      ensures r.Success? <==> id in incidents
      ensures r.Success? ==> r.value.incident == incidents[id] && DetailOf(Captured(), id, r.value.events)
    {
      if id !in incidents {
        return Failure(NotFound);
      }
      assert Backed(Captured(), id);
      DetailStored(Captured(), id);
      var i := incidents[id];
      if i.graphId !in graphs || graphs[i.graphId].incidentId != i.incidentId {
        return Failure(InternalError);
      }
      var g := graphs[i.graphId];
      var loaded, events := LoadNodes(i, g.nodes);
      if !loaded {
        return Failure(InternalError);
      }
      assert events == Referenced(Captured(), g);
      var ordered := Order(events, g);
      if ordered.Failure? {
        return Failure(InternalError);
      }
      return Success(Detail(i, g, ordered.value));
    }

    // ----- runs -----

    method PutRun(run: ReplayContract.Run) returns (err: Option<StoreError>)
      requires Valid()
      modifies `runs
      ensures Valid() && (Replays(), err) == RunStore.Put(old(Replays()), run)
      ensures err.None? <==> RunStore.MayPut(old(runs), run)
      ensures err.Some? ==>
                err.value == if !run.Valid() then InternalError else if run.runId in old(runs) then Conflict else InvalidLifecycle
      ensures runs == if err.None? then old(runs)[run.runId := run] else old(runs)
    {
      RunStore.PutKeepsInv(Replays(), run);
      RunStore.PutExactly(Replays(), run);
      if !run.Valid() {
        return Some(InternalError);
      }
      if run.runId in runs {
        return Some(Conflict);
      }
      if run.runType == ReplayContract.WhatIf {
        if run.baselineRunId !in runs || !RunStore.Admits(runs[run.baselineRunId], run) {
          return Some(InvalidLifecycle);
        }
      }
      runs := runs[run.runId := run];
      return None;
    }

    method GetRun(id: string) returns (r: Result<ReplayContract.Run, StoreError>)
      ensures r == if id in runs then Success(runs[id]) else Failure(NotFound)
    {
      if id !in runs {
        return Failure(NotFound);
      }
      return Success(runs[id]);
    }

    /** Runs in one status, ordered by id. */
    method ListRuns(status: ReplayContract.RunStatus) returns (r: seq<ReplayContract.Run>)
      requires Valid()
      ensures Enumerates(r, Selected(runs, HasRunStatus(status)))
      ensures forall i, j | 0 <= i < j < |r| :: StrLess(r[i].runId, r[j].runId)
      ensures forall run :: run in r <==> run.runId in runs && runs[run.runId] == run && run.status == status
    {
      var found := ListWhere(runs, HasRunStatus(status));
      r := Sort(RunIdLess, found);
      RunIdStrictWeak(found);
      SortSorted(RunIdLess, found);
      RearrangedEnumerates(found, r, Selected(runs, HasRunStatus(status)));
      forall i, j | 0 <= i < j < |r| ensures StrLess(r[i].runId, r[j].runId) {
        assert r[i] in r && r[j] in r && r[i] != r[j];
        StrLessTotal(r[i].runId, r[j].runId);
      }
    }

    /** The checks of `TransitionRun`, in order. */
    method VetTransition(from: ReplayContract.RunStatus, run: ReplayContract.Run) returns (err: Option<StoreError>)
      ensures err == RunStore.Transition(Replays(), from, run).1
    {
      if !ReplayContract.CanTransition(from, run.status) || !run.Valid() {
        return Some(InvalidLifecycle);
      }
      if run.runId !in runs {
        return Some(NotFound);
      }
      var stored := runs[run.runId];
      if stored.status != from || !ReplayContract.SameProvenance(stored, run) {
        return Some(InvalidLifecycle);
      }
      return None;
    }

    method TransitionRun(from: ReplayContract.RunStatus, run: ReplayContract.Run) returns (err: Option<StoreError>)
      requires Valid()
      modifies `runs
      ensures Valid() && (Replays(), err) == RunStore.Transition(old(Replays()), from, run)
      ensures err.None? <==> RunStore.MayTransition(old(runs), from, run)
      ensures err.Some? ==>
                err.value == if (from, run.status) in RunStore.LEGAL && run.Valid() && run.runId !in old(runs)
                             then NotFound else InvalidLifecycle
      ensures runs == if err.None? then old(runs)[run.runId := run] else old(runs)
    {
      err := VetTransition(from, run);
      RunStore.TransitionKeepsInv(Replays(), from, run);
      RunStore.TransitionExactly(Replays(), from, run);
      if err.None? {
        runs := runs[run.runId := run];
      }
    }

    method ClaimRun(id: string, until: int) returns (r: Result<ReplayContract.Run, StoreError>)
      requires Valid()
      modifies `runs, `leaseUntil
      ensures Valid() && (Replays(), r) == RunStore.Claim(old(Replays()), id, until)
      ensures r.Success? ==>
                && id in old(runs) && old(runs)[id].status == ReplayContract.RunCreated
                && r.value == old(runs)[id].(status := ReplayContract.RunValidating)
                && runs == old(runs)[id := r.value] && leaseUntil == old(leaseUntil)[id := until]
      ensures r.Failure? ==>
                && runs == old(runs) && leaseUntil == old(leaseUntil)
                && r.error == if id in runs then InvalidLifecycle else NotFound
    {
      RunStore.ClaimKeepsInv(Replays(), id, until);
      if id !in runs {
        return Failure(NotFound);
      }
      var run := runs[id];
      if run.status != ReplayContract.RunCreated {
        return Failure(InvalidLifecycle);
      }
      run := run.(status := ReplayContract.RunValidating);
      runs := runs[id := run];
      leaseUntil := leaseUntil[id := until];
      return Success(run);
    }

    method RenewLease(id: string, until: int) returns (err: Option<StoreError>)
      requires Valid()
      modifies `leaseUntil
      ensures Valid() && (Replays(), err) == RunStore.Renew(old(Replays()), id, until)
      ensures err == if id in runs then None else Some(NotFound)
      ensures leaseUntil == if err.None? then old(leaseUntil)[id := until] else old(leaseUntil)
    {
      if id !in runs {
        return Some(NotFound);
      }
      leaseUntil := leaseUntil[id := until];
      return None;
    }

    /** The stranded runs, each once. */
    method ReclaimExpiredRuns(now: int) returns (r: seq<ReplayContract.Run>)
      requires Valid()
      ensures Enumerates(r, RunStore.ExpiredRuns(Replays(), now))
      ensures forall run :: run in r <==>
                && run.runId in runs && runs[run.runId] == run
                && (run.status == ReplayContract.RunValidating || run.status == ReplayContract.RunRunning)
                && (run.runId !in leaseUntil || leaseUntil[run.runId] < now)
    {
      var leases := leaseUntil;
      var p := (run: ReplayContract.Run) =>
        (run.status == ReplayContract.RunValidating || run.status == ReplayContract.RunRunning)
        && (run.runId in leases ==> leases[run.runId] < now);
      r := ListWhere(runs, p);
      assert Selected(runs, p) == RunStore.ExpiredRuns(Replays(), now);
      forall run ensures run in r <==> run in RunStore.ExpiredRuns(Replays(), now) {
        RunStore.ExpiredExactly(Replays(), now, run);
      }
    }

    // ----- diffs -----

    method PutDiff(d: Diffs.ReplayDiff) returns (err: Option<StoreError>)
      requires Valid()
      modifies `diffs
      ensures Valid()
      ensures err == if !d.Valid() then Some(InternalError) else if d.diffId in old(diffs) then Some(Conflict) else None
      ensures diffs == if err.None? then old(diffs)[d.diffId := d] else old(diffs)
    {
      if !d.Valid() {
        return Some(InternalError);
      }
      if d.diffId in diffs {
        return Some(Conflict);
      }
      diffs := diffs[d.diffId := d];
      return None;
    }
  }

  function HasRunStatus(status: ReplayContract.RunStatus): ReplayContract.Run -> bool {
    (run: ReplayContract.Run) => run.status == status
  }

  predicate RunIdLess(a: ReplayContract.Run, b: ReplayContract.Run) {
    StrLess(a.runId, b.runId)
  }

  lemma RunIdStrictWeak(s: seq<ReplayContract.Run>)
    ensures StrictWeak(RunIdLess, s)
  {
    forall x: ReplayContract.Run, y: ReplayContract.Run, z: ReplayContract.Run
      ensures RunIdLess(x, y) ==> !RunIdLess(y, x)
      ensures !RunIdLess(y, x) && !RunIdLess(z, y) ==> !RunIdLess(z, x)
    {
      StrLessNotBack(x.runId, y.runId, z.runId);
    }
  }
}
