/** From the race to the incident: which checkouts end up reported. */
module EndToEnd {
  import opened Contracts
  import opened CycleCheck
  import opened Emission
  import opened Ordering
  import opened Oracle
  import opened Incidents
  import opened Detection
  import opened Convergence
  import opened Reporting
  import opened Lineage
  import Race = CheckoutRace
  import Schedules

  /** No part of the events makes the oracle fire. */
  ghost predicate Clean(x: string, all: set<Event>) {
    && OfOne(x, all)
    && forall listing | Distinct(listing) && Elements(listing) <= all :: !Fires(listing)
  }

  lemma CleanNeverFails(x: string, all: set<Event>, seen: set<Event>)
    requires Clean(x, all) && seen <= all
    ensures !Failing(x, seen)
  {
    forall listing | Enumerates(listing, seen) ensures !Fires(listing) {
      assert Elements(listing) <= all;
    }
  }

  // ----- checkouts -----

  ghost function Captured(cfg: Race.Config, choices: seq<Race.Action>): seq<Event> {
    Race.Events(cfg, Race.Run(cfg, choices).shared.trace)
  }

  lemma OneOperation(cfg: Race.Config, choices: seq<Race.Action>)
    ensures Group(Captured(cfg, choices), cfg.logicalOp) == Captured(cfg, choices)
    ensures forall e | e in Captured(cfg, choices) ::
              e.executionId == cfg.executionId && e.traceId == cfg.traceId && e.logicalOp == cfg.logicalOp
  {
    var trace := Race.Run(cfg, choices).shared.trace;
    var events := Captured(cfg, choices);
    forall e | e in events ensures e.executionId == cfg.executionId && e.traceId == cfg.traceId && e.logicalOp == cfg.logicalOp {
      var i :| 0 <= i < |events| && events[i] == e;
      assert e == Race.Recorded(cfg, trace[i]);
    }
    FilterAll(OfOperation(cfg.logicalOp), events);
  }

  /** A successful checkout shows a duplicate exactly when it retried without
      deduplication. */
  lemma CapturedDuplicate(cfg: Race.Config, choices: seq<Race.Action>)
    requires Race.Run(cfg, choices).main.Done?
    ensures Duplicated(Captured(cfg, choices)) <==> Race.Run(cfg, choices).main.launched == 2 && !cfg.dedup
  {
    var s := Race.Run(cfg, choices);
    Race.RunInv(cfg, choices);
    Race.EveryAttemptReceived(cfg, s);
    Race.SymptomsOfTrace(cfg, s);
    Race.CommitsOfTrace(cfg, s);
    Race.EffectsWhenFinished(cfg, s);
  }

  lemma CapturedListed(events: seq<Event>)
    requires DistinctIds(events)
    ensures Enumerates(events, Elements(events))
  {
  }

  predicate Retried(cfg: Race.Config, choices: seq<Race.Action>) {
    Race.Run(cfg, choices).main.Done? && Race.Run(cfg, choices).main.launched == 2
  }

  /** A retried checkout without deduplication is a failing execution... */
  lemma RetriedCheckoutFails(cfg: Race.Config, choices: seq<Race.Action>)
    requires Retried(cfg, choices) && !cfg.dedup && DistinctIds(Captured(cfg, choices))
    ensures Failing(cfg.executionId, Elements(Captured(cfg, choices)))
  {
    var events := Captured(cfg, choices);
    OneOperation(cfg, choices);
    CapturedDuplicate(cfg, choices);
    CapturedListed(events);
    CapturedSettled(cfg, choices);
    DuplicateFires(events, cfg.logicalOp);
  }

  lemma DuplicateFires(events: seq<Event>, op: string)
    requires Duplicated(events) && Group(events, op) == events
    ensures Fires(events)
  {
    var e :| e in events && e.eventType == Timeout;
    assert e in Group(events, op) && e.logicalOp == op;
    assert op in LogicalIds(events) && Matches(events, op);
  }

  /** ... and every other successful checkout is clean, also while only part of
      its events has arrived. */
  lemma OtherCheckoutsClean(cfg: Race.Config, choices: seq<Race.Action>)
    requires Race.Run(cfg, choices).main.Done? && !(Retried(cfg, choices) && !cfg.dedup)
    ensures Clean(cfg.executionId, Elements(Captured(cfg, choices)))
  {
    var events := Captured(cfg, choices);
    OneOperation(cfg, choices);
    CapturedDuplicate(cfg, choices);
    forall listing | Distinct(listing) && Elements(listing) <= Elements(events) ensures !Fires(listing) {
      PartNeverFires(events, cfg.logicalOp, listing);
    }
  }

  lemma PartNeverFires(events: seq<Event>, op: string, listing: seq<Event>)
    requires !Duplicated(events) && (forall e | e in events :: e.logicalOp == op) && Group(events, op) == events
    requires Distinct(listing) && Elements(listing) <= Elements(events)
    ensures !Fires(listing)
  {
    if Fires(listing) {
      var id :| id in LogicalIds(listing) && Matches(listing, id);
      var e: Event :| e in listing && e.logicalOp == id;
      assert e in Elements(listing) && e in events;
      PartOfBag(listing, events);
      GroupMonotone(listing, events, op);
    }
  }

  // ----- the whole system -----

  /** For every schedule of the checkout, every order in which its events arrive
      and every interleaving of the handlers, with any recorded replay events
      that do not matter: once all its own events are stored and its handlers are
      done, an incident of the checkout exists if and only if two attempts ran
      without deduplication. */
  lemma ReportedExactly(cfg: Race.Config, choices: seq<Race.Action>, parts: set<set<Event>>, actions: seq<Action>)
    requires Race.Run(cfg, choices).main.Done? && DistinctIds(Captured(cfg, choices))
    requires var x, own := cfg.executionId, Elements(Captured(cfg, choices));
             && Growing(x, own, parts) && !RecordingsMatter(x, own, parts)
             && Admitted(EMPTY, x, own, parts, actions) && Quiescent(Run(EMPTY, actions), x, own)
    ensures Reported(Run(EMPTY, actions).archive, cfg.executionId) <==> Retried(cfg, choices) && !cfg.dedup
  {
    var x, own := cfg.executionId, Elements(Captured(cfg, choices));
    RecordingsMatterExactly(x, own, parts);
    if Retried(cfg, choices) && !cfg.dedup {
      RetriedCheckoutFails(cfg, choices);
      AlwaysByFit(x, own, parts);
      assert AlwaysReported(x, own, parts);
    } else if Reported(Run(EMPTY, actions).archive, x) {
      NoFalseAlarm(x, own, parts, actions);
      CheckoutNeverFails(cfg, choices);
    }
  }

  lemma CheckoutNeverFails(cfg: Race.Config, choices: seq<Race.Action>)
    requires Race.Run(cfg, choices).main.Done? && !(Retried(cfg, choices) && !cfg.dedup)
    ensures !SomeFails(cfg.executionId, Elements(Captured(cfg, choices)), NOTHING)
  {
    var x, own := cfg.executionId, Elements(Captured(cfg, choices));
    OtherCheckoutsClean(cfg, choices);
    forall seen | seen - own in NOTHING ensures !Failing(x, seen) {
      assert seen - own == {};
      assert forall e | e in seen :: e in own || e in seen - own;
      CleanNeverFails(x, own, seen);
    }
  }

  /** What is stored is valid and has an id of its own. */
  lemma StoredIsStorable(a: Archive, x: string, own: set<Event>)
    requires ArchiveInv(a) && AllStored(a, own) && OfOne(x, own)
    ensures Storable(x, own)
  {
    forall e | e in own ensures a.events[e.eventId] == e && e.Valid() {
      assert Stored(a, e);
    }
  }

  /** The same without replay events: then distinct ids are all it takes. */
  lemma ReportedWithoutReplays(cfg: Race.Config, choices: seq<Race.Action>, actions: seq<Action>)
    requires Race.Run(cfg, choices).main.Done? && DistinctIds(Captured(cfg, choices))
    requires Admitted(EMPTY, cfg.executionId, Elements(Captured(cfg, choices)), NOTHING, actions)
    requires Quiescent(Run(EMPTY, actions), cfg.executionId, Elements(Captured(cfg, choices)))
    ensures Reported(Run(EMPTY, actions).archive, cfg.executionId) <==> Retried(cfg, choices) && !cfg.dedup
  {
    var x, own := cfg.executionId, Elements(Captured(cfg, choices));
    SoundRun(EMPTY, actions);
    OneOperation(cfg, choices);
    StoredIsStorable(Run(EMPTY, actions).archive, x, own);
    NothingGrows(x, own);
    ReportedExactly(cfg, choices, NOTHING, actions);
  }

  /** Schedules and histories that meet every hypothesis exist, with and without
      a retry. */
  lemma WholeRunExists(cfg: Race.Config, retry: bool) returns (choices: seq<Race.Action>, actions: seq<Action>)
    requires Schedules.Named(cfg) && cfg.maxAttempts >= if retry then 2 else 1
    ensures Race.Run(cfg, choices).main.Done? && (Retried(cfg, choices) <==> retry)
    ensures EventsOk(Captured(cfg, choices))
    ensures Admitted(EMPTY, cfg.executionId, Elements(Captured(cfg, choices)), NOTHING, actions)
    ensures Quiescent(Run(EMPTY, actions), cfg.executionId, Elements(Captured(cfg, choices)))
  {
    choices := CheckoutExists(cfg, retry);
    var own := Elements(Captured(cfg, choices));
    CapturedStorable(cfg, choices);
    FinishedNotEmpty(cfg, choices);
    NothingGrows(cfg.executionId, own);
    actions := IngestThenFinish(cfg.executionId, own, NOTHING, {}, own);
  }

  lemma CheckoutExists(cfg: Race.Config, retry: bool) returns (choices: seq<Race.Action>)
    requires Schedules.Named(cfg) && cfg.maxAttempts >= if retry then 2 else 1
    ensures Race.Run(cfg, choices).main.Done? && (Retried(cfg, choices) <==> retry)
    ensures EventsOk(Captured(cfg, choices))
    ensures forall x | x in Race.Run(cfg, choices).shared.trace :: exists n: nat :: x.stamp == Schedules.StampAt(n)
  {
    var plain;
    if retry {
      plain := Schedules.TimerWins(cfg, Schedules.StampAt(0));
    } else {
      plain := Schedules.CompletionWins(cfg, Schedules.StampAt(0));
    }
    choices := Schedules.ProperTwin(cfg, plain);
  }

  lemma CapturedStorable(cfg: Race.Config, choices: seq<Race.Action>)
    requires EventsOk(Captured(cfg, choices))
    ensures Storable(cfg.executionId, Elements(Captured(cfg, choices)))
  {
    OneOperation(cfg, choices);
  }

  lemma FinishedNotEmpty(cfg: Race.Config, choices: seq<Race.Action>)
    requires Race.Run(cfg, choices).main.Done?
    ensures Elements(Captured(cfg, choices)) != {}
  {
    Race.RunInv(cfg, choices);
    Race.AttemptsOfTrace(cfg, Race.Run(cfg, choices));
    var e: Event :| e in Captured(cfg, choices) && e.attempt == 1;
    assert e in Elements(Captured(cfg, choices));
  }
}
