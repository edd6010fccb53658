/** Identifiers and sequence numbers handed out by the capture library. */
module Capture {
  import opened Basics
  import opened Contracts
  import opened Namespacing

  /** `eventSeq` is a `uint64`. */
  const U64 := 0x1_0000_0000_0000_0000

  class IdGenerator {
    const seed: int
    var nextSeq: int
    var eventSeq: nat

    constructor (seed: int)
      ensures this.seed == seed && nextSeq == seed && eventSeq == 0
    {
      this.seed, nextSeq, eventSeq := seed, seed, 0;
    }

    method Reset()
      modifies this
      ensures nextSeq == seed && eventSeq == 0
    {
      nextSeq, eventSeq := seed, 0;
    }

    method NextCheckoutSeq() returns (n: int)
      modifies `nextSeq
      ensures n == old(nextSeq) && nextSeq == n + 1
    {
      n := nextSeq;
      nextSeq := nextSeq + 1;
    }

    method NextEventId(component: string) returns (id: string)
      modifies `eventSeq
      ensures eventSeq == Advance(old(eventSeq)) && id == GeneratedId(component, eventSeq)
    {
      eventSeq := (eventSeq + 1) % U64;
      id := "evt-" + component + "-" + Decimal(eventSeq);
    }
  }

  function Advance(n: nat): nat {
    (n + 1) % U64
  }

  // ----- uniqueness over the life of a generator -----

  datatype Call = NextId(component: string) | ResetIds

  /** The generator's counter after a history of calls. */
  function CounterAfter(history: seq<Call>): nat {
    if |history| == 0 then 0
    else if history[|history| - 1].ResetIds? then 0
    else Advance(CounterAfter(history[..|history| - 1]))
  }

  /** The calls for an id since the last reset. */
  function Since(history: seq<Call>): nat {
    if |history| == 0 || history[|history| - 1].ResetIds? then 0 else Since(history[..|history| - 1]) + 1
  }

  /** The id handed out by call `i`. */
  function IdAt(history: seq<Call>, i: nat): string
    requires i < |history| && history[i].NextId?
  {
    GeneratedId(history[i].component, CounterAfter(history[..i + 1]))
  }

  lemma {:induction false} NumberExact(history: seq<Call>)
    ensures CounterAfter(history) == Since(history) % U64
    decreases |history|
  {
    if |history| > 0 && history[|history| - 1].NextId? {
      NumberExact(history[..|history| - 1]);
    }
  }

  /** An id determines component and number, whatever the component is called. */
  lemma GeneratedIdExact(c: string, m: nat, d: string, n: nat)
    ensures GeneratedId(c, m) == GeneratedId(d, n) <==> c == d && m == n
  {
    if GeneratedId(c, m) == GeneratedId(d, n) {
      LastDash(PREFIX + c, Decimal(m), PREFIX + d, Decimal(n));
      DecimalInjective(m, n);
      assert c == (PREFIX + c)[|PREFIX|..] && d == (PREFIX + d)[|PREFIX|..];
    }
  }

  /** Two ids of one generator coincide exactly when they were asked for by the
      same component and are equally far, modulo 2^64, from the last reset. */
  lemma RepeatsExactly(history: seq<Call>, i: nat, j: nat)
    requires i < j < |history| && history[i].NextId? && history[j].NextId?
    ensures IdAt(history, i) == IdAt(history, j) <==>
            history[i].component == history[j].component &&
            Since(history[..i + 1]) % U64 == Since(history[..j + 1]) % U64
  {
    GeneratedIdExact(history[i].component, CounterAfter(history[..i + 1]), history[j].component, CounterAfter(history[..j + 1]));
    NumberExact(history[..i + 1]);
    NumberExact(history[..j + 1]);
  }

  lemma {:induction false} SinceGrows(history: seq<Call>, i: nat, j: nat)
    requires i <= j <= |history| && forall k | i <= k < j :: history[k].NextId?
    ensures Since(history[..j]) == Since(history[..i]) + (j - i)
  {
    if i < j {
      SinceGrows(history, i, j - 1);
      assert history[..j][..j - 1] == history[..j - 1];
    }
  }

  /** Without a reset in between, and short of 2^64 calls, ids never repeat. */
  lemma UniqueBetweenResets(history: seq<Call>, i: nat, j: nat)
    requires i < j < |history| && j - i < U64 && forall k | i <= k <= j :: history[k].NextId?
    ensures IdAt(history, i) != IdAt(history, j)
  {
    SinceGrows(history, i + 1, j + 1);
    RepeatsExactly(history, i, j);
    SmallShift(Since(history[..i + 1]), j - i);
  }

  lemma SmallShift(n: nat, d: nat)
    requires 0 < d < U64
    ensures (n + d) % U64 != n % U64
  {
    var q, r := n / U64, n % U64;
    assert n + d == q * U64 + (r + d);
    if r + d < U64 {
      assert (n + d) / U64 == q;
    } else {
      assert n + d == (q + 1) * U64 + (r + d - U64);
      assert (n + d) / U64 == q + 1;
    }
  }

  /** The documentation promises unique ids for the life of the process; a reset
      breaks that: the first id after it repeats the first id before it. */
  lemma ResetRepeats(component: string)
    ensures var history := [NextId(component), ResetIds, NextId(component)];
            IdAt(history, 0) == IdAt(history, 2)
  {
    var history := [NextId(component), ResetIds, NextId(component)];
    assert history[..1][..0] == [] && CounterAfter(history[..1]) == 1;
    assert history[..3][..2] == [NextId(component), ResetIds] && CounterAfter(history[..3][..2]) == 0;
    assert CounterAfter(history[..3]) == 1;
  }

  // ----- recorders -----

  /** What a service supplies for one event. */
  datatype Input = Input(executionId: string, traceId: string, parentId: string, replayRunId: string, operation: string,
                         kind: OperationKind, eventType: EventType, attempt: int, logicalOp: string,
                         status: EventStatus, effectCommitted: Option<bool>)

  function Built(component: string, instance: string, id: string, sequence: int, now: int, otherChecks: bool,
                 in_: Input): Event
  {
    Event(id, in_.executionId, in_.traceId, in_.parentId, in_.replayRunId, component, instance, in_.operation, in_.kind,
          in_.eventType, in_.attempt, in_.logicalOp, now, sequence, in_.status, in_.effectCommitted, otherChecks)
  }

  /** What happens to an event the recorder hands on: there may be no sink, and a
      sink may refuse. */
  datatype Delivery = NoSink | Accepted | Rejected

  /** One component instance's recorder, with the events its sink received. */
  class Recorder {
    const component: string
    const instance: string
    const ids: IdGenerator
    var next: map<string, int>
    var emitted: seq<Event>

    constructor (component: string, instance: string, ids: IdGenerator)
      ensures this.component == component && this.instance == instance && this.ids == ids
      ensures next == map[] && emitted == [] && Valid()
    {
      this.component, this.instance, this.ids, next, emitted := component, instance, ids, map[], [];
    }

    function KeyFor(executionId: string): string {
      executionId + "|" + instance
    }

    function NextOf(executionId: string): int
      reads `next
    {
      if KeyFor(executionId) in next then next[KeyFor(executionId)] else 0
    }

    /** Within one execution sequence numbers rise strictly. */
    ghost predicate Valid()
      reads `next, `emitted
    {
      && (forall k | k in next :: next[k] >= 0)
      && (forall e | e in emitted :: e.Valid() && e.component == component && e.instance == instance)
      && (forall e | e in emitted :: 0 <= e.sequence < NextOf(e.executionId))
      && (forall i, j | 0 <= i < j < |emitted| && emitted[i].executionId == emitted[j].executionId ::
            emitted[i].sequence < emitted[j].sequence)
    }

    /** `nextSequence`. */
    method NextSequence(executionId: string) returns (n: int)
      modifies `next
      ensures n == old(NextOf(executionId)) && next == old(next)[KeyFor(executionId) := n + 1]
    {
      var key := executionId + "|" + instance;
      n := if key in next then next[key] else 0;
      next := next[key := n + 1];
    }

    lemma SameKey(x: string, y: string)
      ensures KeyFor(x) == KeyFor(y) <==> x == y
    {
      if KeyFor(x) == KeyFor(y) {
        assert |x| == |y|;
        assert x == KeyFor(x)[..|x|] && y == KeyFor(y)[..|y|];
      }
    }

    /** What `Record` builds for the input in the current state. */
    function EventFor(in_: Input, now: int, otherChecks: bool): Event
      reads `next, ids`eventSeq
    {
      Built(component, instance, GeneratedId(component, Advance(ids.eventSeq)), NextOf(in_.executionId), now, otherChecks, in_)
    }

    /** An event that is invalid or that the sink refuses still uses up its id and
        its sequence number; an attempt below 1 is refused before it does. */
    method Record(in_: Input, now: int, otherChecks: bool, delivery: Delivery) returns (r: Option<Event>)
      requires Valid()
      modifies this`next, this`emitted, ids`eventSeq
      ensures Valid()
      ensures in_.attempt < 1 ==>
                r == None && next == old(next) && emitted == old(emitted) && ids.eventSeq == old(ids.eventSeq)
      ensures in_.attempt >= 1 ==>
                && ids.eventSeq == Advance(old(ids.eventSeq))
                && next == old(next)[KeyFor(in_.executionId) := old(NextOf(in_.executionId)) + 1]
                && var e := old(EventFor(in_, now, otherChecks));
                   && r == (if e.Valid() && delivery != Rejected then Some(e) else None)
                   && emitted == old(emitted) + (if e.Valid() && delivery == Accepted then [e] else [])
    {
      if in_.attempt < 1 {
        return None;
      }
      var id := ids.NextEventId(component);
      var sequence := NextSequence(in_.executionId);
      var e := Built(component, instance, id, sequence, now, otherChecks, in_);
      forall x: string ensures KeyFor(x) == KeyFor(in_.executionId) <==> x == in_.executionId {
        SameKey(x, in_.executionId);
      }
      if !e.Valid() || delivery == Rejected {
        return None;
      }
      if delivery == Accepted {
        emitted := emitted + [e];
      }
      return Some(e);
    }
  }
}
