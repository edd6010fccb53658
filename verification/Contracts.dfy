/** Captured events and execution graphs. */
module Contracts {
  import opened Basics

  datatype OperationKind = Entrypoint | Internal | Dependency | StateChange | SideEffect | Control
  datatype EventType = Start | Complete | Error | Timeout | Retry | Effect | StateObservation
  datatype EventStatus = Running | Succeeded | Failed | TimedOut | Blocked

  /** One captured event. A string field that JSON omits is "" here. Time is in
      nanoseconds, 0 being Go's zero instant (the start of year 1);
      `effectCommitted` is the attribute of that name. `otherChecks` stands for
      the checks of `Validate` on fields the model does not carry (schema
      version, timestamp syntax, duration, attribute whitelist). */
  datatype Event = Event(
    eventId: string,
    executionId: string,
    traceId: string,
    parentId: string,
    replayRunId: string,
    component: string,
    instance: string,
    operation: string,
    kind: OperationKind,
    eventType: EventType,
    attempt: int,
    logicalOp: string,
    occurredAt: int,
    sequence: int,
    status: EventStatus,
    effectCommitted: Option<bool>,
    otherChecks: bool)
  {
    predicate Valid() {
      && eventId != "" && executionId != "" && traceId != ""
      && component != "" && instance != "" && operation != "" && logicalOp != ""
      && attempt >= 1
      && sequence >= 0
      && otherChecks
    }

    predicate Committed() {
      eventType == Effect && effectCommitted == Some(true)
    }
  }

  datatype EdgeType = ParentChild | Temporal | DependencyEdge | RetryEdge | StateEdge | SideEffectEdge

  datatype GraphNode = GraphNode(eventId: string, timelineIndex: int)
  datatype GraphEdge = GraphEdge(edgeId: string, from: string, to: string, edgeType: EdgeType)

  /** `versionsOk` says that both version fields name the contract version. */
  datatype ExecutionGraph = ExecutionGraph(
    graphId: string,
    incidentId: string,
    versionsOk: bool,
    nodes: seq<GraphNode>,
    edges: seq<GraphEdge>)

  /** The two ways a graph operation fails: the sentinel for a cycle, or any
      other error. */
  datatype GraphError = GraphCycle | InvalidGraph

  /** No two events share an id. */
  ghost predicate DistinctIds(events: seq<Event>) {
    forall i, j | 0 <= i < j < |events| :: events[i].eventId != events[j].eventId
  }

  ghost predicate AllValid(events: seq<Event>) {
    forall e | e in events :: e.Valid()
  }

  function Ids(events: seq<Event>): (r: seq<string>)
    ensures |r| == |events|
    ensures forall i | 0 <= i < |events| :: r[i] == events[i].eventId
  {
    seq(|events|, i requires 0 <= i < |events| => events[i].eventId)
  }
}
