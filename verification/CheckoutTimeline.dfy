/** Where timeouts and retries stand in the timeline of a checkout. */
module CheckoutTimeline {
  import opened Contracts
  import opened Emission
  import opened Ordering
  import opened RunTimeline
  import opened Lineage
  import opened EndToEnd
  import Race = CheckoutRace

  /** Two entries with the note of the checkout's start are the same. */
  lemma OneStart(cfg: Race.Config, choices: seq<Race.Action>, x: Race.Entry, y: Race.Entry)
    requires Race.Run(cfg, choices).main.Done?
    requires x in Race.Run(cfg, choices).shared.trace && x.note == Race.CheckoutStarted
    requires y in Race.Run(cfg, choices).shared.trace && y.note == Race.CheckoutStarted
    ensures x == y
  {
    var trace := Race.Run(cfg, choices).shared.trace;
    Race.RunInv(cfg, choices);
    Race.FinishedTrace(cfg, Race.Run(cfg, choices), Race.CheckoutStarted);
    var i :| 0 <= i < |trace| && trace[i] == x;
    var j :| 0 <= j < |trace| && trace[j] == y;
    if i != j {
      TwiceCounted(Race.Notes(trace), i, j);
    }
  }

  lemma TwiceCounted<T>(s: seq<T>, i: nat, j: nat)
    requires i < |s| && j < |s| && i != j && s[i] == s[j]
    ensures multiset(s)[s[i]] >= 2
  {
    var a, b := if i < j then i else j, if i < j then j else i;
    assert s == s[..a] + [s[a]] + s[a + 1..b] + [s[b]] + s[b + 1..];
  }

  lemma SymptomEntry(cfg: Race.Config, choices: seq<Race.Action>, e: Event) returns (x: Race.Entry)
    requires e in Captured(cfg, choices) && (e.eventType == Timeout || e.eventType == Retry)
    ensures x in Race.Run(cfg, choices).shared.trace && e == Race.Recorded(cfg, x)
    ensures x.note == Race.CheckoutTimedOut || x.note == Race.CheckoutRetried
    ensures e.component == "checkout" && e.parentId == x.parentId
  {
    x := EntryOf(cfg, Race.Run(cfg, choices).shared.trace, e);
    Race.NoteFields(cfg, x);
  }

  /** Timeout and retry wait for the same event, the checkout's start. */
  lemma SameParent(cfg: Race.Config, choices: seq<Race.Action>, t: Event, r: Event)
    requires Race.Run(cfg, choices).main.Done? && t in Captured(cfg, choices) && r in Captured(cfg, choices)
    requires t.eventType == Timeout && r.eventType == Retry
    ensures t.parentId == r.parentId && t.component == r.component
  {
    var trace := Race.Run(cfg, choices).shared.trace;
    var x := SymptomEntry(cfg, choices, t);
    var y := SymptomEntry(cfg, choices, r);
    RunLineage(cfg, choices);
    WholeRooted(Race.Run(cfg, choices).shared);
    assert Rooted(trace, x) && Rooted(trace, y);
    var p :| p in trace && p.note == Race.CheckoutStarted && p.stamp.eventId == x.parentId;
    var q :| q in trace && q.note == Race.CheckoutStarted && q.stamp.eventId == y.parentId;
    OneStart(cfg, choices, p, q);
  }

  lemma SameConstraints(events: set<Event>, t: Event, r: Event, p: string)
    requires DistinctIdSet(events) && t in events && r in events && t.parentId == r.parentId
    requires (p, t.eventId) in ParentArcs(events)
    ensures (p, r.eventId) in ParentArcs(events)
  {
    var e :| e in events && e.parentId == p && e.eventId == t.eventId && e.parentId != "";
    assert e == t;
  }

  /** In every timeline that building can produce for a checkout the timeout stands
      before the retry that follows it, however close the clock puts them. */
  lemma TimeoutBeforeRetry(cfg: Race.Config, choices: seq<Race.Action>, order: seq<Event>, i: nat, j: nat)
    requires Race.Run(cfg, choices).main.Done? && DistinctIds(Captured(cfg, choices))
    requires forall e | e in Captured(cfg, choices) :: e.occurredAt != 0
    requires var all := Elements(Captured(cfg, choices)); Timeline(Possible(), all, ParentArcs(all), order)
    requires i < |order| && j < |order| && order[i].eventType == Timeout && order[j].eventType == Retry
    requires order[i].instance == order[j].instance && order[i].sequence < order[j].sequence
    requires order[i].occurredAt <= order[j].occurredAt ||
             forall e | e in Captured(cfg, choices) :: order[i].occurredAt <= e.occurredAt + 5_000_000
    ensures i < j
  {
    var all := Elements(Captured(cfg, choices));
    var arcs := ParentArcs(all);
    DistinctIdsAsSet(Captured(cfg, choices));
    EmitsEnumerates(Possible(), all, arcs, order, {});
    assert order[i] in order && order[j] in order;
    SameParent(cfg, choices, order[i], order[j]);
    forall p | (p, order[i].eventId) in arcs ensures (p, order[j].eventId) in arcs {
      SameConstraints(all, order[i], order[j], p);
    }
    EmittedIsCanonical(all, arcs, order);
    SequenceFirst(all, arcs, order, i, j);
  }
}
