/** Any number of replays recorded under the execution id of a checkout, as
    workers record them: each in its own order, all of them interleaved. */
module Replays {
  import opened Basics
  import opened Contracts
  import opened CycleCheck
  import opened Emission
  import opened Ordering
  import opened Detection
  import opened Convergence
  import opened Namespacing
  import opened Lineage
  import opened Reporting
  import opened EndToEnd
  import opened Collision
  import Race = CheckoutRace
  import Schedules

  // ----- a beginning of each of several lists -----

  ghost function Unions(a: set<set<Event>>, b: set<set<Event>>): set<set<Event>> {
    set p, q | p in a && q in b :: p + q
  }

  /** What can have been recorded of the lists: a beginning of each. */
  ghost function Parts(lists: seq<seq<Event>>): set<set<Event>> {
    if |lists| == 0 then NOTHING else Unions(Prefixes(lists[0]), Parts(lists[1..]))
  }

  ghost function Everything(lists: seq<seq<Event>>): set<Event> {
    if |lists| == 0 then {} else Elements(lists[0]) + Everything(lists[1..])
  }

  /** No event is listed twice. */
  ghost predicate Separate(lists: seq<seq<Event>>) {
    |lists| > 0 ==>
      Distinct(lists[0]) && Elements(lists[0]) !! Everything(lists[1..]) && Separate(lists[1..])
  }

  lemma {:induction false} PartInside(lists: seq<seq<Event>>, part: set<Event>)
    requires part in Parts(lists)
    ensures part <= Everything(lists)
  {
    if |lists| > 0 {
      var p, q :| p in Prefixes(lists[0]) && q in Parts(lists[1..]) && part == p + q;
      PartInside(lists[1..], q);
      PrefixInside(lists[0], p);
    }
  }

  lemma PrefixInside(recorded: seq<Event>, part: set<Event>)
    requires part in Prefixes(recorded)
    ensures part <= Elements(recorded)
  {
  }

  lemma UnionsGrown(a: set<set<Event>>, b: set<set<Event>>)
    requires Grown(a) && Grown(b) && {} in a && {} in b
    requires forall p, q | p in a && q in b :: p !! q
    ensures Grown(Unions(a, b)) && {} in Unions(a, b)
  {
    var none: set<Event> := {};
    assert none + none == none;
    forall part | part in Unions(a, b) && part != {} ensures exists e :: Newest(Unions(a, b), part, e) {
      var p, q :| p in a && q in b && part == p + q;
      if p != {} {
        var e: Event :| Newest(a, p, e);
        assert part - {e} == (p - {e}) + q;
        assert Newest(Unions(a, b), part, e);
      } else {
        var e: Event :| Newest(b, q, e);
        assert part - {e} == p + (q - {e});
        assert Newest(Unions(a, b), part, e);
      }
    }
  }

  lemma {:induction false} PartsGrown(lists: seq<seq<Event>>)
    requires Separate(lists)
    ensures Grown(Parts(lists)) && {} in Parts(lists)
  {
    if |lists| > 0 {
      PrefixesGrown(lists[0]);
      PartsGrown(lists[1..]);
      forall p, q | p in Prefixes(lists[0]) && q in Parts(lists[1..]) ensures p !! q {
        PrefixInside(lists[0], p);
        PartInside(lists[1..], q);
      }
      UnionsGrown(Prefixes(lists[0]), Parts(lists[1..]));
    }
  }

  lemma PartsGrow(x: string, own: set<Event>, lists: seq<seq<Event>>)
    requires Separate(lists) && Storable(x, own + Everything(lists)) && Everything(lists) !! own
    ensures Growing(x, own, Parts(lists))
  {
    PartsGrown(lists);
    forall part | part in Parts(lists) ensures Storable(x, own + part) && part !! own {
      PartInside(lists, part);
      PartStorable(x, own, Everything(lists), part);
    }
  }

  lemma FitsInWider(own: set<Event>, part: set<Event>, wider: set<Event>, e: Event)
    requires FitsIn(own, part, e) && part <= wider
    ensures FitsIn(own, wider, e)
  {
    if e.parentId != "" {
      var p :| p in own + part && p != e && p.eventId == e.parentId;
      assert p in own + wider;
    }
  }

  /** What fits in beside the checkout alone fits in beside others, too. */
  lemma {:induction false} AllFitInParts(own: set<Event>, lists: seq<seq<Event>>)
    requires forall l | l in lists :: AllFitIn(own, Prefixes(l))
    ensures AllFitIn(own, Parts(lists))
  {
    if |lists| > 0 {
      AllFitInParts(own, lists[1..]);
      UnionsFitIn(own, Prefixes(lists[0]), Parts(lists[1..]));
    }
  }

  lemma UnionsFitIn(own: set<Event>, a: set<set<Event>>, b: set<set<Event>>)
    requires AllFitIn(own, a) && AllFitIn(own, b)
    ensures AllFitIn(own, Unions(a, b))
  {
    forall part | part in Unions(a, b) ensures PartFitsIn(own, part) {
      var p, q :| p in a && q in b && part == p + q;
      assert PartFitsIn(own, p) && PartFitsIn(own, q);
      forall e | e in part ensures FitsIn(own, part, e) {
        FitsInWider(own, if e in p then p else q, part, e);
      }
    }
  }

  /** One list can be there as a whole, and nothing of the others. */
  lemma {:induction false} WholeList(lists: seq<seq<Event>>, i: nat)
    requires Separate(lists) && i < |lists|
    ensures Elements(lists[i]) in Parts(lists) && Elements(lists[i]) <= Everything(lists)
  {
    var none: set<Event> := {};
    if i == 0 {
      PartsGrown(lists[1..]);
      assert lists[0][..|lists[0]|] == lists[0] && Elements(lists[0]) in Prefixes(lists[0]);
      assert Elements(lists[0]) + none == Elements(lists[0]);
    } else {
      WholeList(lists[1..], i - 1);
      PrefixesGrown(lists[0]);
      assert none + Elements(lists[i]) == Elements(lists[i]);
    }
  }

  lemma {:induction false} ListWith(lists: seq<seq<Event>>, e: Event) returns (i: nat)
    requires e in Everything(lists)
    ensures i < |lists| && e in lists[i]
  {
    if e in Elements(lists[0]) {
      i := 0;
    } else {
      i := ListWith(lists[1..], e);
      i := i + 1;
    }
  }

  // ----- a checkout and its replays -----

  /** What the workers record, replay by replay. */
  ghost function Lists(replays: seq<Replay>): (l: seq<seq<Event>>)
    ensures |l| == |replays| && forall i | 0 <= i < |l| :: l[i] == Replayed(replays[i])
  {
    seq(|replays|, i requires 0 <= i < |replays| => Replayed(replays[i]))
  }

  /** A successful checkout and replays of its identity; all their events are
      storable beside each other. */
  ghost predicate AllColliding(cfg: Race.Config, choices: seq<Race.Action>, replays: seq<Replay>) {
    && Race.Run(cfg, choices).main.Done? && DistinctIds(Captured(cfg, choices))
    && (forall r | r in replays :: Replays(cfg, r))
    && Separate(Lists(replays))
    && var own, extra := Elements(Captured(cfg, choices)), Everything(Lists(replays));
       extra !! own && Storable(cfg.executionId, own + extra)
  }

  ghost predicate SomeRetried(replays: seq<Replay>) {
    exists r :: r in replays && Retried(r.cfg, r.choices)
  }

  lemma EachCollides(cfg: Race.Config, choices: seq<Race.Action>, replays: seq<Replay>, i: nat)
    requires AllColliding(cfg, choices, replays) && i < |replays|
    ensures Colliding(cfg, choices, replays[i])
    ensures Elements(Lists(replays)[i]) == ReplayEvents(replays[i]) && ReplayEvents(replays[i]) in Parts(Lists(replays))
  {
    var own, r := Elements(Captured(cfg, choices)), replays[i];
    assert r in replays;
    WholeList(Lists(replays), i);
    StampedElements(r.runId, Captured(r.cfg, r.choices));
    PartStorable(cfg.executionId, own, Everything(Lists(replays)), ReplayEvents(r));
  }

  lemma AllFitBeside(cfg: Race.Config, choices: seq<Race.Action>, replays: seq<Replay>)
    requires AllColliding(cfg, choices, replays)
    ensures AllFitIn(Elements(Captured(cfg, choices)), Parts(Lists(replays)))
  {
    var own := Elements(Captured(cfg, choices));
    forall l | l in Lists(replays) ensures AllFitIn(own, Prefixes(l)) {
      var i :| 0 <= i < |replays| && Lists(replays)[i] == l;
      EachCollides(cfg, choices, replays, i);
      ReplayFitsIn(cfg, choices, replays[i]);
    }
    AllFitInParts(own, Lists(replays));
  }

  /** If the checkout or one of the replays retried, the two together fail. */
  lemma OneReplayFails(cfg: Race.Config, choices: seq<Race.Action>, replays: seq<Replay>, i: nat)
    requires AllColliding(cfg, choices, replays) && i < |replays|
    requires Retried(cfg, choices) || Retried(replays[i].cfg, replays[i].choices)
    ensures SomeFails(cfg.executionId, Elements(Captured(cfg, choices)), Parts(Lists(replays)))
  {
    EachCollides(cfg, choices, replays, i);
    CollisionFails(cfg, choices, replays[i]);
    FinishedNotEmpty(cfg, choices);
    TogetherFails(cfg.executionId, Elements(Captured(cfg, choices)), Parts(Lists(replays)), ReplayEvents(replays[i]));
  }

  lemma TogetherFails(x: string, own: set<Event>, parts: set<set<Event>>, part: set<Event>)
    requires Failing(x, own + part) && own != {} && own !! part && part in parts
    ensures SomeFails(x, own, parts)
  {
    assert (own + part) * own == own && (own + part) - own == part;
  }

  /** No event of the checkout or a replay is a retry if none of them retried. */
  lemma NoRetryRecorded(cfg: Race.Config, choices: seq<Race.Action>, replays: seq<Replay>, e: Event)
    requires AllColliding(cfg, choices, replays) && !Retried(cfg, choices) && !SomeRetried(replays)
    requires e in Elements(Captured(cfg, choices)) + Everything(Lists(replays))
    ensures e.eventType != Retry
  {
    if e in Elements(Captured(cfg, choices)) {
      FinishedCommits(cfg, choices);
    } else {
      var i := ListWith(Lists(replays), e);
      EachCollides(cfg, choices, replays, i);
      assert e in Elements(Lists(replays)[i]) && replays[i] in replays;
      BothIdentity(cfg, choices, replays[i], e);
    }
  }

  lemma NothingFails(cfg: Race.Config, choices: seq<Race.Action>, replays: seq<Replay>)
    requires AllColliding(cfg, choices, replays) && !Retried(cfg, choices) && !SomeRetried(replays)
    ensures !SomeFails(cfg.executionId, Elements(Captured(cfg, choices)), Parts(Lists(replays)))
  {
    var own := Elements(Captured(cfg, choices));
    forall seen | seen - own in Parts(Lists(replays)) ensures !Failing(cfg.executionId, seen) {
      PartInside(Lists(replays), seen - own);
      forall listing | Enumerates(listing, seen) ensures !Fires(listing) {
        NothingFires(cfg, choices, replays, seen, listing);
      }
    }
  }

  lemma NothingFires(cfg: Race.Config, choices: seq<Race.Action>, replays: seq<Replay>, seen: set<Event>,
                     listing: seq<Event>)
    requires AllColliding(cfg, choices, replays) && !Retried(cfg, choices) && !SomeRetried(replays)
    requires seen - Elements(Captured(cfg, choices)) <= Everything(Lists(replays)) && Enumerates(listing, seen)
    ensures !Fires(listing)
  {
    if Fires(listing) {
      FiringShowsRetry(listing);
      var e: Event :| e in listing && e.eventType == Retry;
      assert e in seen;
      NoRetryRecorded(cfg, choices, replays, e);
    }
  }

  /** The checkout retried and there is an effect more than its own, or a replay
      retried. */
  ghost predicate Suspicious(cfg: Race.Config, choices: seq<Race.Action>, replays: seq<Replay>) {
    (Retried(cfg, choices) && (!cfg.dedup || replays != [])) || SomeRetried(replays)
  }

  lemma SuspiciousFails(cfg: Race.Config, choices: seq<Race.Action>, replays: seq<Replay>)
    requires AllColliding(cfg, choices, replays)
    ensures SomeFails(cfg.executionId, Elements(Captured(cfg, choices)), Parts(Lists(replays))) <==>
            Suspicious(cfg, choices, replays)
  {
    if replays == [] {
      CheckoutAlone(cfg, choices);
    } else if Retried(cfg, choices) {
      OneReplayFails(cfg, choices, replays, 0);
    } else if SomeRetried(replays) {
      var r :| r in replays && Retried(r.cfg, r.choices);
      var i :| 0 <= i < |replays| && replays[i] == r;
      OneReplayFails(cfg, choices, replays, i);
    } else {
      NothingFails(cfg, choices, replays);
    }
  }

  /** Any replays recorded under a checkout's own execution id, each in the order
      in which its worker records, interleaved as they may be. A failing checkout
      is reported all the same. A clean one can be reported exactly when a replay
      retried, or it retried itself and there is a replay; and only then do the
      recordings matter. */
  lemma CollisionExactly(cfg: Race.Config, choices: seq<Race.Action>, replays: seq<Replay>)
    requires AllColliding(cfg, choices, replays)
    ensures var x, own, parts := cfg.executionId, Elements(Captured(cfg, choices)), Parts(Lists(replays));
            && (AlwaysReported(x, own, parts) <==> Retried(cfg, choices) && !cfg.dedup)
            && (CanBeReported(x, own, parts) <==> Suspicious(cfg, choices, replays))
            && (RecordingsMatter(x, own, parts) <==>
                  Suspicious(cfg, choices, replays) && !(Retried(cfg, choices) && !cfg.dedup))
  {
    var x, own, parts := cfg.executionId, Elements(Captured(cfg, choices)), Parts(Lists(replays));
    PartsGrow(x, own, Lists(replays));
    AllFitBeside(cfg, choices, replays);
    CanBeReportedExactly(x, own, parts);
    SuspiciousFails(cfg, choices, replays);
    RecordingsMatterExactly(x, own, parts);
    AlwaysByFit(x, own, parts);
    CheckoutAlone(cfg, choices);
  }

  // ----- distinct run ids are enough -----

  /** The generator made the id, for a component without a dash. */
  ghost predicate FromGenerator(id: string) {
    exists c: string, n: nat :: '-' !in c && id == GeneratedId(c, n)
  }

  ghost predicate Generated(events: seq<Event>) {
    forall e | e in events :: FromGenerator(e.eventId)
  }

  /** A successful replay of the identity whose sink kept valid events under
      generated ids. */
  ghost predicate Kept(cfg: Race.Config, r: Replay) {
    && r.cfg.executionId == cfg.executionId && r.cfg.traceId == cfg.traceId && r.cfg.logicalOp == cfg.logicalOp
    && Race.Run(r.cfg, r.choices).main.Done?
    && EventsOk(Captured(r.cfg, r.choices)) && Generated(Captured(r.cfg, r.choices))
  }

  ghost predicate DistinctRuns(replays: seq<Replay>) {
    forall i, j | 0 <= i < j < |replays| :: replays[i].runId != replays[j].runId
  }

  /** A namespaced id is none that the generator makes. */
  lemma OriginalApart(runId: string, c: string, n: nat, d: string, m: nat)
    requires '-' !in d
    ensures Namespace(runId, GeneratedId(c, n)) != GeneratedId(d, m)
  {
    var stamped := Namespace(runId, GeneratedId(c, n));
    assert TrimPrefix(GeneratedId(c, n), PREFIX) == c + "-" + Decimal(n);
    var head := PREFIX + runId + "-" + c;
    assert stamped == head + "-" + Decimal(n) && head[|PREFIX| + |runId|] == '-';
    if stamped == GeneratedId(d, m) {
      LastDash(head, Decimal(n), PREFIX + d, Decimal(m));
    }
  }

  lemma IdsApart(a: string, x: string, b: string, y: string)
    requires FromGenerator(x) && FromGenerator(y) && a != b
    ensures Namespace(a, x) != Namespace(b, y)
  {
    var c: string, m: nat :| '-' !in c && x == GeneratedId(c, m);
    var d: string, n: nat :| '-' !in d && y == GeneratedId(d, n);
    if Namespace(a, x) == Namespace(b, y) {
      NamespacesDisjoint(a, c, m, b, d, n);
    }
  }

  lemma OwnApart(runId: string, x: string, y: string)
    requires FromGenerator(x) && FromGenerator(y)
    ensures Namespace(runId, x) != y
  {
    var c: string, m: nat :| '-' !in c && x == GeneratedId(c, m);
    var d: string, n: nat :| '-' !in d && y == GeneratedId(d, n);
    OriginalApart(runId, c, m, d, n);
  }

  /** The captured id of a recorded event. */
  lemma RecordedId(r: Replay, e: Event) returns (id: string)
    requires e in Replayed(r) && Generated(Captured(r.cfg, r.choices))
    ensures FromGenerator(id) && e.eventId == Namespace(r.runId, id)
  {
    var i :| 0 <= i < |Replayed(r)| && Replayed(r)[i] == e;
    id := Captured(r.cfg, r.choices)[i].eventId;
    assert Captured(r.cfg, r.choices)[i] in Captured(r.cfg, r.choices);
  }

  lemma GeneratedPrefixed(cfg: Race.Config, choices: seq<Race.Action>)
    requires Generated(Captured(cfg, choices)) && DistinctIds(Captured(cfg, choices))
    ensures Prefixed(Elements(Captured(cfg, choices)))
  {
    CapturedSettled(cfg, choices);
    forall e | e in Elements(Captured(cfg, choices)) ensures PREFIX <= e.eventId {
      var c: string, n: nat :| '-' !in c && e.eventId == GeneratedId(c, n);
    }
  }

  lemma KeptStorable(cfg: Race.Config, r: Replay)
    requires Kept(cfg, r)
    ensures Replays(cfg, r) && Distinct(Replayed(r)) && Storable(cfg.executionId, Elements(Replayed(r)))
  {
    var events := Captured(r.cfg, r.choices);
    GeneratedPrefixed(r.cfg, r.choices);
    StampedListed(r.runId, events);
    CapturedStorable(r.cfg, r.choices);
    StampedStorable(cfg.executionId, r.runId, Elements(events));
  }

  lemma StampedStorable(x: string, runId: string, events: set<Event>)
    requires Storable(x, events) && Prefixed(events)
    ensures Storable(x, StampedSet(runId, events))
  {
    StampedDistinct(runId, events);
  }

  /** Events of different replays have different ids. */
  lemma OthersApart(cfg: Race.Config, replays: seq<Replay>, e: Event, f: Event)
    requires |replays| > 0 && DistinctRuns(replays) && forall r | r in replays :: Kept(cfg, r)
    requires e in Replayed(replays[0]) && f in Everything(Lists(replays[1..]))
    ensures e.eventId != f.eventId
  {
    var i := ListWith(Lists(replays[1..]), f);
    assert replays[1..][i] == replays[i + 1];
    assert replays[0] in replays && replays[i + 1] in replays;
    var x := RecordedId(replays[0], e);
    var y := RecordedId(replays[i + 1], f);
    IdsApart(replays[0].runId, x, replays[i + 1].runId, y);
  }

  lemma StorableUnion(x: string, a: set<Event>, b: set<Event>)
    requires Storable(x, a) && Storable(x, b) && forall e, f | e in a && f in b :: e.eventId != f.eventId
    ensures a !! b && Storable(x, a + b)
  {
  }

  lemma {:induction false} AllStorable(cfg: Race.Config, replays: seq<Replay>)
    requires DistinctRuns(replays) && forall r | r in replays :: Kept(cfg, r)
    ensures Separate(Lists(replays)) && Storable(cfg.executionId, Everything(Lists(replays)))
  {
    if |replays| > 0 {
      RestKept(cfg, replays);
      AllStorable(cfg, replays[1..]);
      KeptStorable(cfg, replays[0]);
      FirstSeparate(cfg, replays);
    }
  }

  lemma RestKept(cfg: Race.Config, replays: seq<Replay>)
    requires |replays| > 0 && DistinctRuns(replays) && forall r | r in replays :: Kept(cfg, r)
    ensures Kept(cfg, replays[0]) && DistinctRuns(replays[1..]) && forall r | r in replays[1..] :: Kept(cfg, r)
  {
    assert replays[0] in replays && forall r | r in replays[1..] :: r in replays;
  }

  lemma FirstSeparate(cfg: Race.Config, replays: seq<Replay>)
    requires |replays| > 0 && DistinctRuns(replays) && forall r | r in replays :: Kept(cfg, r)
    requires Separate(Lists(replays[1..])) && Storable(cfg.executionId, Everything(Lists(replays[1..])))
    requires Distinct(Replayed(replays[0])) && Storable(cfg.executionId, Elements(Replayed(replays[0])))
    ensures Separate(Lists(replays)) && Storable(cfg.executionId, Everything(Lists(replays)))
  {
    assert Lists(replays)[1..] == Lists(replays[1..]);
    forall e, f | e in Elements(Replayed(replays[0])) && f in Everything(Lists(replays[1..]))
      ensures e.eventId != f.eventId
    {
      OthersApart(cfg, replays, e, f);
    }
    StorableUnion(cfg.executionId, Elements(Replayed(replays[0])), Everything(Lists(replays[1..])));
  }

  /** Distinct run ids keep the events of the checkout and of all its replays
      apart. */
  lemma DistinctRunsCollide(cfg: Race.Config, choices: seq<Race.Action>, replays: seq<Replay>)
    requires Race.Run(cfg, choices).main.Done? && EventsOk(Captured(cfg, choices)) && Generated(Captured(cfg, choices))
    requires DistinctRuns(replays) && forall r | r in replays :: Kept(cfg, r)
    ensures AllColliding(cfg, choices, replays)
  {
    var own, extra := Elements(Captured(cfg, choices)), Everything(Lists(replays));
    AllStorable(cfg, replays);
    CapturedStorable(cfg, choices);
    forall r | r in replays ensures Replays(cfg, r) {
      KeptStorable(cfg, r);
    }
    forall e, f | e in own && f in extra ensures e.eventId != f.eventId {
      var i := ListWith(Lists(replays), f);
      assert replays[i] in replays;
      var id := RecordedId(replays[i], f);
      OwnApart(replays[i].runId, id, e.eventId);
    }
    StorableUnion(cfg.executionId, own, extra);
  }

  // ----- at checkout 8271 -----

  lemma TwinGenerated(cfg: Race.Config, choices: seq<Race.Action>)
    requires forall x | x in Race.Run(cfg, choices).shared.trace :: exists n: nat :: x.stamp == Schedules.StampAt(n)
    ensures Generated(Captured(cfg, choices))
  {
    forall e | e in Captured(cfg, choices) ensures FromGenerator(e.eventId) {
      var x := EntryOf(cfg, Race.Run(cfg, choices).shared.trace, e);
      var n: nat :| x.stamp == Schedules.StampAt(n);
      assert '-' !in "gateway" && e.eventId == GeneratedId("gateway", n);
    }
  }

  /** A checkout of that identity exists, with and without a retry. */
  lemma GeneratedCheckout(cfg: Race.Config, retry: bool) returns (choices: seq<Race.Action>)
    requires Schedules.Named(cfg) && cfg.maxAttempts >= if retry then 2 else 1
    ensures Race.Run(cfg, choices).main.Done? && (Retried(cfg, choices) <==> retry)
    ensures EventsOk(Captured(cfg, choices)) && Generated(Captured(cfg, choices))
  {
    choices := CheckoutExists(cfg, retry);
    TwinGenerated(cfg, choices);
  }

  /** At checkout 8271: the original is clean, and after its baseline replay, which
      retried, and its comparison it is reported. */
  lemma CleanReported(baselineId: string, comparisonId: string)
    returns (cfg: Race.Config, choices: seq<Race.Action>, replays: seq<Replay>, actions: seq<Action>)
    requires baselineId != comparisonId
    ensures Identified(cfg, Decimal(DEFAULT_SEED)) && Clean(cfg.executionId, Elements(Captured(cfg, choices)))
    ensures |replays| == 2 && replays[0].runId == baselineId && replays[1].runId == comparisonId
    ensures AllColliding(cfg, choices, replays)
    ensures Admitted(EMPTY, cfg.executionId, Elements(Captured(cfg, choices)), Parts(Lists(replays)), actions)
    ensures Reported(Run(EMPTY, actions).archive, cfg.executionId)
  {
    cfg := NamedConfig(Decimal(DEFAULT_SEED));
    choices := GeneratedCheckout(cfg, false);
    var retried := GeneratedCheckout(cfg, true);
    replays := [Replay(baselineId, cfg, retried), Replay(comparisonId, cfg, choices)];
    DistinctRunsCollide(cfg, choices, replays);
    OtherCheckoutsClean(cfg, choices);
    FirstRetried(replays);
    actions := SuspiciousReported(cfg, choices, replays);
  }

  lemma NamedConfig(checkoutId: string) returns (cfg: Race.Config)
    ensures Identified(cfg, checkoutId) && Schedules.Named(cfg) && cfg.maxAttempts == 2 && !cfg.dedup
  {
    cfg := Race.Config(2, false, "exec-original-" + checkoutId, "trace-" + checkoutId, "checkout-" + checkoutId);
  }

  lemma FirstRetried(replays: seq<Replay>)
    requires |replays| > 0 && Retried(replays[0].cfg, replays[0].choices)
    ensures SomeRetried(replays)
  {
    assert replays[0] in replays;
  }

  lemma SuspiciousReported(cfg: Race.Config, choices: seq<Race.Action>, replays: seq<Replay>)
    returns (actions: seq<Action>)
    requires AllColliding(cfg, choices, replays) && Suspicious(cfg, choices, replays)
    ensures Admitted(EMPTY, cfg.executionId, Elements(Captured(cfg, choices)), Parts(Lists(replays)), actions)
    ensures Reported(Run(EMPTY, actions).archive, cfg.executionId)
  {
    CollisionExactly(cfg, choices, replays);
    actions :| Admitted(EMPTY, cfg.executionId, Elements(Captured(cfg, choices)), Parts(Lists(replays)), actions)
               && Reported(Run(EMPTY, actions).archive, cfg.executionId);
  }
}
