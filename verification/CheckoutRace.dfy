/** One gateway checkout as a race: the checkout goroutine with its timer, up to
    two uncancelled payment attempts, the completion channel, the ledger and the
    capture sink. A run is a list of scheduling choices; every list is allowed,
    and a choice that is not enabled does nothing. */
module CheckoutRace {
  import opened Basics
  import opened Contracts
  import opened Oracle

  /** One checkout: the retry policy, the ledger's deduplication policy and the
      identifiers every event carries. */
  datatype Config = Config(maxAttempts: nat, dedup: bool, executionId: string, traceId: string, logicalOp: string)

  /** What a recorder fills in on its own. */
  datatype Stamp = Stamp(eventId: string, instance: string, occurredAt: int, sequence: int)

  /** What the services ask a recorder to record. Payment and ledger notes carry
      their attempt number, completions the number of attempts launched. */
  datatype Note =
    | GatewayStarted
    | CheckoutStarted
    | CheckoutTimedOut
    | CheckoutRetried
    | CheckoutCompleted(attempts: int)
    | GatewayCompleted(attempts: int)
    | PaymentStarted(n: int)
    | PaymentCompleted(n: int)
    | LedgerEffect(n: int, committed: bool)

  /** One recorded event, with the parent its caller names. */
  datatype Entry = Entry(note: Note, stamp: Stamp, parentId: string)

  function Filled(cfg: Config, entry: Entry, component: string, operation: string, kind: OperationKind,
                  eventType: EventType, attempt: int, status: EventStatus, committed: Option<bool>): Event
  {
    var stamp := entry.stamp;
    Event(stamp.eventId, cfg.executionId, cfg.traceId, entry.parentId, "", component, stamp.instance,
          operation, kind, eventType, attempt, cfg.logicalOp, stamp.occurredAt, stamp.sequence,
          status, committed, true)
  }

  function Recorded(cfg: Config, entry: Entry): Event {
    match entry.note
    case GatewayStarted => Filled(cfg, entry, "gateway", "checkout", Entrypoint, Start, 1, Running, None)
    case CheckoutStarted => Filled(cfg, entry, "checkout", "checkout.process", Internal, Start, 1, Running, None)
    case CheckoutTimedOut => Filled(cfg, entry, "checkout", "checkout.process", Control, Timeout, 1, TimedOut, None)
    case CheckoutRetried => Filled(cfg, entry, "checkout", "checkout.process", Control, Retry, 2, Running, None)
    case CheckoutCompleted(l) => Filled(cfg, entry, "checkout", "checkout.process", Internal, Complete, l, Succeeded, None)
    case GatewayCompleted(l) => Filled(cfg, entry, "gateway", "checkout", Entrypoint, Complete, l, Succeeded, None)
    case PaymentStarted(n) => Filled(cfg, entry, "payment", "authorize", Dependency, Start, n, Running, None)
    case PaymentCompleted(n) => Filled(cfg, entry, "payment", "authorize", Dependency, Complete, n, Succeeded, None)
    case LedgerEffect(n, c) =>
      Filled(cfg, entry, "ledger", "ledger.commit", SideEffect, Effect, n, if c then Succeeded else Blocked, Some(c))
  }

  /** The captured events. */
  function Events(cfg: Config, trace: seq<Entry>): (r: seq<Event>)
    ensures |r| == |trace|
    ensures forall i | 0 <= i < |trace| :: r[i] == Recorded(cfg, trace[i])
  {
    seq(|trace|, i requires 0 <= i < |trace| => Recorded(cfg, trace[i]))
  }

  function Notes(trace: seq<Entry>): (r: seq<Note>)
    ensures |r| == |trace|
    ensures forall i | 0 <= i < |trace| :: r[i] == trace[i].note
  {
    seq(|trace|, i requires 0 <= i < |trace| => trace[i].note)
  }

  // ----- program counters -----

  /** Where the request goroutine stands. */
  datatype Main =
    | AtGatewayStart
    | AtCheckoutStart
    | AtLaunch
    | AtSelect
    | AtTimeout
    | AtRetry
    | AtRelaunch
    | AtDrain(timedOut: bool, launched: nat)
    | AtComplete(timedOut: bool, launched: nat)
    | AtGatewayComplete(timedOut: bool, launched: nat)
    | Done(timedOut: bool, launched: nat)
    | Aborted

  /** Where one payment attempt stands. `committed` is the ledger's answer. */
  datatype Attempt =
    | Idle
    | Authorizing
    | Sleeping
    | Committing
    | Recording(committed: bool)
    | Sending(ok: bool, committed: bool)
    | Sent(ok: bool, committed: bool)

  datatype Outcome = Outcome(attempt: int, ok: bool)

  /** What the goroutines share: the buffered channel, the ledger, the sink, and
      the ids of the two start events, which the services pass on as parents. */
  datatype Shared = Shared(channel: seq<Outcome>, firstEffect: bool, effects: seq<int>, trace: seq<Entry>,
                           gatewayStart: string, checkoutStart: string)

  /** `outcomes` is the request goroutine's own list of received results. */
  datatype State = State(main: Main, outcomes: seq<Outcome>, first: Attempt, second: Attempt, shared: Shared)

  /** `ok` says whether a `Record` call of this step succeeds; `timer` which way
      an undecided `select` goes. */
  datatype Action =
    | MainAction(ok: bool, timer: bool, stamp: Stamp)
    | FirstAction(ok: bool, stamp: Stamp)
    | SecondAction(ok: bool, stamp: Stamp)

  function Initial(): State {
    State(AtGatewayStart, [], Idle, Idle, Shared([], false, [], [], "", ""))
  }

  // ----- steps -----

  /** The parent reference of an event: the gateway's start has none, the
      checkout's start and the gateway's completion name the gateway's start, all
      others the checkout's start. */
  function ParentFor(shared: Shared, p: Note): string {
    match p
    case GatewayStarted => ""
    case CheckoutStarted => shared.gatewayStart
    case GatewayCompleted(_) => shared.gatewayStart
    case _ => shared.checkoutStart
  }

  function Append(shared: Shared, p: Note, stamp: Stamp): Shared {
    shared.(trace := shared.trace + [Entry(p, stamp, ParentFor(shared, p))],
            gatewayStart := if p.GatewayStarted? then stamp.eventId else shared.gatewayStart,
            checkoutStart := if p.CheckoutStarted? then stamp.eventId else shared.checkoutStart)
  }

  /** A `Record` call: append the event and go on, or give up. */
  function MainRecord(s: State, ok: bool, stamp: Stamp, p: Note, next: Main): State {
    if ok then s.(shared := Append(s.shared, p, stamp), main := next) else s.(main := Aborted)
  }

  function Receive(s: State, next: Main): State
    requires |s.shared.channel| > 0
  {
    s.(shared := s.shared.(channel := s.shared.channel[1..]), outcomes := s.outcomes + [s.shared.channel[0]], main := next)
  }

  predicate AllOk(outcomes: seq<Outcome>) {
    forall o | o in outcomes :: o.ok
  }

  /** The `Record` call the request goroutine stands at, and where it goes when
      the call succeeds. */
  function NextRecord(cfg: Config, m: Main): Option<(Note, Main)> {
    match m
    case AtGatewayStart => Some((GatewayStarted, AtCheckoutStart))
    case AtCheckoutStart => Some((CheckoutStarted, AtLaunch))
    case AtTimeout => Some((CheckoutTimedOut, if cfg.maxAttempts > 1 then AtRetry else AtDrain(true, 1)))
    case AtRetry => Some((CheckoutRetried, AtRelaunch))
    case AtComplete(timedOut, launched) => Some((CheckoutCompleted(launched), AtGatewayComplete(timedOut, launched)))
    case AtGatewayComplete(timedOut, launched) => Some((GatewayCompleted(launched), Done(timedOut, launched)))
    case _ => None
  }

  /** The request goroutine's other steps: launches, the `select` between timer
      and completion, and the draining loop. */
  function MainMove(s: State, timer: bool): State {
    match s.main
    case AtLaunch => s.(first := Authorizing, main := AtSelect)
    case AtSelect =>
      if timer then s.(main := AtTimeout)
      else if |s.shared.channel| > 0 then Receive(s, AtDrain(false, 1))
      else s
    case AtRelaunch => s.(second := Authorizing, main := AtDrain(true, 2))
    case AtDrain(timedOut, launched) =>
      if |s.outcomes| < launched then
        if |s.shared.channel| > 0 then Receive(s, s.main) else s
      else if AllOk(s.outcomes) then s.(main := AtComplete(timedOut, launched))
      else s.(main := Aborted)
    case _ => s
  }

  function MainStep(cfg: Config, s: State, ok: bool, timer: bool, stamp: Stamp): State {
    match NextRecord(cfg, s.main)
    case Some((note, next)) => MainRecord(s, ok, stamp, note, next)
    case None => MainMove(s, timer)
  }

  /** A send is enabled only while the buffered channel has room. */
  predicate CanSend(cfg: Config, shared: Shared) {
    |shared.channel| < cfg.maxAttempts
  }

  /** One step of attempt `n`: payment, ledger, then the send. A failed `Record`
      turns into a failed outcome. */
  function AttemptStep(cfg: Config, shared: Shared, n: int, a: Attempt, ok: bool, stamp: Stamp): (Shared, Attempt) {
    match a
    case Idle => (shared, a)
    case Authorizing =>
      if ok then (Append(shared, PaymentStarted(n), stamp), Sleeping) else (shared, Sending(false, false))
    case Sleeping =>
      if ok then (Append(shared, PaymentCompleted(n), stamp), Committing) else (shared, Sending(false, false))
    case Committing =>
      var committed := !cfg.dedup || !shared.firstEffect;
      (shared.(firstEffect := cfg.dedup || shared.firstEffect,
               effects := if committed then shared.effects + [n] else shared.effects),
       Recording(committed))
    case Recording(committed) =>
      if ok then (Append(shared, LedgerEffect(n, committed), stamp), Sending(true, committed))
      else (shared, Sending(false, committed))
    case Sending(sent, committed) =>
      if CanSend(cfg, shared) then
        (shared.(channel := shared.channel + [Outcome(n, sent)]), Sent(sent, committed))
      else (shared, a)
    case Sent(_, _) => (shared, a)
  }

  function Apply(cfg: Config, s: State, action: Action): State {
    match action
    case MainAction(ok, timer, stamp) => MainStep(cfg, s, ok, timer, stamp)
    case FirstAction(ok, stamp) =>
      var (shared, a) := AttemptStep(cfg, s.shared, 1, s.first, ok, stamp);
      s.(shared := shared, first := a)
    case SecondAction(ok, stamp) =>
      var (shared, a) := AttemptStep(cfg, s.shared, 2, s.second, ok, stamp);
      s.(shared := shared, second := a)
  }

  /** The state after a list of choices. */
  function Run(cfg: Config, actions: seq<Action>): State {
    if |actions| == 0 then Initial()
    else Apply(cfg, Run(cfg, actions[..|actions| - 1]), actions[|actions| - 1])
  }

  // ----- the channel -----

  /** 1 when the two values are the same. */
  function Is<T(==)>(x: T, y: T): nat {
    if x == y then 1 else 0
  }

  function ResultCount(n: int, a: Attempt, o: Outcome): nat {
    if a.Sent? then Is(o, Outcome(n, a.ok)) else 0
  }

  /** Channel and outcomes together hold exactly one result per finished attempt. */
  ghost predicate ChannelAt(s: State, o: Outcome) {
    multiset(s.shared.channel)[o] + multiset(s.outcomes)[o] == ResultCount(1, s.first, o) + ResultCount(2, s.second, o)
  }

  lemma ReceiveKeepsChannel(s: State, next: Main, o: Outcome)
    requires |s.shared.channel| > 0 && ChannelAt(s, o)
    ensures ChannelAt(Receive(s, next), o)
  {
    assert s.shared.channel == [s.shared.channel[0]] + s.shared.channel[1..];
  }

  lemma MainKeepsChannel(cfg: Config, s: State, ok: bool, timer: bool, stamp: Stamp, o: Outcome)
    requires ChannelAt(s, o) && MainInv(cfg, s)
    ensures ChannelAt(MainStep(cfg, s, ok, timer, stamp), o)
  {
    if |s.shared.channel| > 0 {
      match s.main
      case AtSelect => ReceiveKeepsChannel(s, AtDrain(false, 1), o);
      case AtDrain(_, _) => ReceiveKeepsChannel(s, s.main, o);
      case _ =>
    }
  }

  lemma AttemptKeepsChannel(cfg: Config, shared: Shared, n: int, a: Attempt, ok: bool, stamp: Stamp, o: Outcome)
    ensures var (shared', a') := AttemptStep(cfg, shared, n, a, ok, stamp);
            multiset(shared'.channel)[o] + ResultCount(n, a, o) == multiset(shared.channel)[o] + ResultCount(n, a', o)
  {
  }

  lemma ChannelStep(cfg: Config, s: State, action: Action, o: Outcome)
    requires ChannelAt(s, o) && MainInv(cfg, s)
    ensures ChannelAt(Apply(cfg, s, action), o)
  {
    match action
    case MainAction(ok, timer, stamp) => MainKeepsChannel(cfg, s, ok, timer, stamp, o);
    case FirstAction(ok, stamp) => AttemptKeepsChannel(cfg, s.shared, 1, s.first, ok, stamp, o);
    case SecondAction(ok, stamp) => AttemptKeepsChannel(cfg, s.shared, 2, s.second, ok, stamp, o);
  }

  // ----- the ledger -----

  /** The attempt's effect was committed. */
  predicate HoldsEffect(a: Attempt) {
    (a.Recording? || a.Sending? || a.Sent?) && a.committed
  }

  /** The attempt has certainly passed the ledger. */
  predicate PastLedger(a: Attempt) {
    a.Recording? || ((a.Sending? || a.Sent?) && a.ok)
  }

  ghost predicate LedgerInv(cfg: Config, s: State) {
    && |s.shared.effects| == Number(HoldsEffect(s.first)) + Number(HoldsEffect(s.second))
    && (!cfg.dedup && PastLedger(s.first) ==> HoldsEffect(s.first))
    && (!cfg.dedup && PastLedger(s.second) ==> HoldsEffect(s.second))
    && (cfg.dedup ==> |s.shared.effects| == Number(s.shared.firstEffect))
    && (cfg.dedup && (PastLedger(s.first) || PastLedger(s.second)) ==> s.shared.firstEffect)
  }

  lemma LedgerStep(cfg: Config, s: State, action: Action)
    requires LedgerInv(cfg, s)
    requires s.main.AtLaunch? ==> s.first.Idle?
    requires s.main.AtRelaunch? ==> s.second.Idle?
    ensures LedgerInv(cfg, Apply(cfg, s, action))
  {
  }

  // ----- the request goroutine -----

  /** How many attempts a decided race launches. */
  predicate Plan(cfg: Config, timedOut: bool, launched: nat) {
    launched == if timedOut && cfg.maxAttempts > 1 then 2 else 1
  }

  ghost predicate MainInv(cfg: Config, s: State) {
    match s.main
    case AtGatewayStart => s.first.Idle? && s.second.Idle? && s.outcomes == []
    case AtCheckoutStart => s.first.Idle? && s.second.Idle? && s.outcomes == []
    case AtLaunch => s.first.Idle? && s.second.Idle? && s.outcomes == []
    case AtSelect => !s.first.Idle? && s.second.Idle? && s.outcomes == []
    case AtTimeout => !s.first.Idle? && s.second.Idle? && s.outcomes == []
    case AtRetry => !s.first.Idle? && s.second.Idle? && s.outcomes == [] && cfg.maxAttempts > 1
    case AtRelaunch => !s.first.Idle? && s.second.Idle? && s.outcomes == [] && cfg.maxAttempts > 1
    case AtDrain(t, l) => Decided(cfg, s, t, l) && |s.outcomes| <= l
    case AtComplete(t, l) => Decided(cfg, s, t, l) && |s.outcomes| == l && AllOk(s.outcomes)
    case AtGatewayComplete(t, l) => Decided(cfg, s, t, l) && |s.outcomes| == l && AllOk(s.outcomes)
    case Done(t, l) => Decided(cfg, s, t, l) && |s.outcomes| == l && AllOk(s.outcomes)
    case Aborted => !s.first.Idle? || s.second.Idle?
  }

  ghost predicate Decided(cfg: Config, s: State, timedOut: bool, launched: nat) {
    Plan(cfg, timedOut, launched) && !s.first.Idle? && (s.second.Idle? <==> launched == 1)
  }

  lemma MainInvStep(cfg: Config, s: State, action: Action)
    requires MainInv(cfg, s)
    ensures MainInv(cfg, Apply(cfg, s, action))
  {
  }

  // ----- the trace -----

  /** How often the request goroutine has recorded `p` by the time it stands at
      `m`. */
  function MainCount(m: Main, p: Note): nat {
    match m
    case AtGatewayStart => 0
    case AtCheckoutStart => Is(p, GatewayStarted)
    case AtRetry => Opening(p) + Is(p, CheckoutTimedOut)
    case AtRelaunch => Opening(p) + Is(p, CheckoutTimedOut) + Is(p, CheckoutRetried)
    case AtDrain(t, l) => RequestCount(t, l, p)
    case AtComplete(t, l) => RequestCount(t, l, p)
    case AtGatewayComplete(t, l) => RequestCount(t, l, p) + Is(p, CheckoutCompleted(l))
    case Done(t, l) => RequestCount(t, l, p) + Is(p, CheckoutCompleted(l)) + Is(p, GatewayCompleted(l))
    case _ => Opening(p)
  }

  function Opening(p: Note): nat {
    Is(p, GatewayStarted) + Is(p, CheckoutStarted)
  }

  function RequestCount(timedOut: bool, launched: nat, p: Note): nat {
    Opening(p) + (if timedOut then Is(p, CheckoutTimedOut) else 0) + (if launched == 2 then Is(p, CheckoutRetried) else 0)
  }

  /** How often attempt `n` has recorded `p`, if none of its own `Record` calls
      failed. */
  function AttemptCount(n: int, a: Attempt, p: Note): nat {
    match a
    case Idle => 0
    case Authorizing => 0
    case Sleeping => Is(p, PaymentStarted(n))
    case Committing => Is(p, PaymentStarted(n)) + Is(p, PaymentCompleted(n))
    case Recording(_) => Is(p, PaymentStarted(n)) + Is(p, PaymentCompleted(n))
    case Sending(_, c) => Is(p, PaymentStarted(n)) + Is(p, PaymentCompleted(n)) + Is(p, LedgerEffect(n, c))
    case Sent(_, c) => Is(p, PaymentStarted(n)) + Is(p, PaymentCompleted(n)) + Is(p, LedgerEffect(n, c))
  }

  predicate Broken(a: Attempt) {
    (a.Sending? || a.Sent?) && !a.ok
  }

  predicate Intact(s: State) {
    !s.main.Aborted? && !Broken(s.first) && !Broken(s.second)
  }

  function TraceCount(shared: Shared, p: Note): nat {
    multiset(Notes(shared.trace))[p]
  }

  /** While nothing has failed, the trace holds what the goroutines recorded, in
      some interleaving. */
  ghost predicate TraceAt(s: State, p: Note) {
    Intact(s) ==>
      TraceCount(s.shared, p) == MainCount(s.main, p) + AttemptCount(1, s.first, p) + AttemptCount(2, s.second, p)
  }

  lemma AppendCount(shared: Shared, q: Note, stamp: Stamp, p: Note)
    ensures TraceCount(Append(shared, q, stamp), p) == TraceCount(shared, p) + Is(p, q)
  {
    assert Notes(Append(shared, q, stamp).trace) == Notes(shared.trace) + [q];
  }

  /** The `Record` call an attempt stands at. */
  function AttemptNote(n: int, a: Attempt): Option<Note> {
    match a
    case Authorizing => Some(PaymentStarted(n))
    case Sleeping => Some(PaymentCompleted(n))
    case Recording(c) => Some(LedgerEffect(n, c))
    case _ => None
  }

  lemma AttemptRecords(cfg: Config, shared: Shared, n: int, a: Attempt, stamp: Stamp, p: Note)
    requires AttemptNote(n, a).Some?
    ensures var (shared', a') := AttemptStep(cfg, shared, n, a, true, stamp);
            shared' == Append(shared, AttemptNote(n, a).value, stamp) && !Broken(a') &&
            AttemptCount(n, a', p) == AttemptCount(n, a, p) + Is(p, AttemptNote(n, a).value)
  {
  }

  lemma AttemptMoves(cfg: Config, shared: Shared, n: int, a: Attempt, ok: bool, stamp: Stamp, p: Note)
    requires !ok || AttemptNote(n, a).None?
    ensures var (shared', a') := AttemptStep(cfg, shared, n, a, ok, stamp);
            shared'.trace == shared.trace && (Broken(a) ==> Broken(a')) &&
            (!Broken(a') ==> AttemptCount(n, a', p) == AttemptCount(n, a, p))
  {
  }

  lemma AttemptTrace(cfg: Config, shared: Shared, n: int, a: Attempt, ok: bool, stamp: Stamp, p: Note)
    ensures var (shared', a') := AttemptStep(cfg, shared, n, a, ok, stamp);
            && (Broken(a) ==> Broken(a'))
            && (!Broken(a') ==>
                  TraceCount(shared', p) + AttemptCount(n, a, p) == TraceCount(shared, p) + AttemptCount(n, a', p))
  {
    if ok && AttemptNote(n, a).Some? {
      AttemptRecords(cfg, shared, n, a, stamp, p);
      AppendCount(shared, AttemptNote(n, a).value, stamp, p);
    } else {
      AttemptMoves(cfg, shared, n, a, ok, stamp, p);
    }
  }

  ghost predicate MainCounts(s: State, t: State, p: Note) {
    !t.main.Aborted? ==>
      TraceCount(t.shared, p) + MainCount(s.main, p) == TraceCount(s.shared, p) + MainCount(t.main, p)
  }

  lemma RecordCounts(cfg: Config, m: Main, p: Note)
    requires NextRecord(cfg, m).Some?
    ensures MainCount(NextRecord(cfg, m).value.1, p) == MainCount(m, p) + Is(p, NextRecord(cfg, m).value.0)
  {
  }

  lemma MoveCounts(cfg: Config, s: State, timer: bool, p: Note)
    requires MainInv(cfg, s) && NextRecord(cfg, s.main).None?
    ensures MainCounts(s, MainMove(s, timer), p)
  {
  }

  lemma MainTrace(cfg: Config, s: State, ok: bool, timer: bool, stamp: Stamp, p: Note)
    requires MainInv(cfg, s)
    ensures MainCounts(s, MainStep(cfg, s, ok, timer, stamp), p)
  {
    if NextRecord(cfg, s.main).None? {
      MoveCounts(cfg, s, timer, p);
    } else {
      RecordCounts(cfg, s.main, p);
      AppendCount(s.shared, NextRecord(cfg, s.main).value.0, stamp, p);
    }
  }

  /** The request goroutine touches an attempt only to launch it. */
  lemma MainKeepsAttempts(cfg: Config, s: State, ok: bool, timer: bool, stamp: Stamp)
    requires MainInv(cfg, s)
    ensures var t := MainStep(cfg, s, ok, timer, stamp);
            && (t.first == s.first || (s.first.Idle? && t.first.Authorizing?))
            && (t.second == s.second || (s.second.Idle? && t.second.Authorizing?))
            && (s.main.Aborted? ==> t.main.Aborted?)
  {
  }

  lemma TraceStep(cfg: Config, s: State, action: Action, p: Note)
    requires TraceAt(s, p) && MainInv(cfg, s)
    ensures TraceAt(Apply(cfg, s, action), p)
  {
    match action
    case MainAction(ok, timer, stamp) =>
      MainTrace(cfg, s, ok, timer, stamp, p);
      MainKeepsAttempts(cfg, s, ok, timer, stamp);
    case FirstAction(ok, stamp) => AttemptTrace(cfg, s.shared, 1, s.first, ok, stamp, p);
    case SecondAction(ok, stamp) => AttemptTrace(cfg, s.shared, 2, s.second, ok, stamp, p);
  }

  // ----- every run -----

  ghost predicate Inv(cfg: Config, s: State) {
    && MainInv(cfg, s) && LedgerInv(cfg, s)
    && (forall o :: ChannelAt(s, o))
    && (forall p :: TraceAt(s, p))
  }

  lemma {:induction false} RunInv(cfg: Config, actions: seq<Action>)
    ensures Inv(cfg, Run(cfg, actions))
    decreases |actions|
  {
    if |actions| > 0 {
      var s, action := Run(cfg, actions[..|actions| - 1]), actions[|actions| - 1];
      RunInv(cfg, actions[..|actions| - 1]);
      MainInvStep(cfg, s, action);
      LedgerStep(cfg, s, action);
      forall o ensures ChannelAt(Apply(cfg, s, action), o) {
        ChannelStep(cfg, s, action, o);
      }
      forall p ensures TraceAt(Apply(cfg, s, action), p) {
        TraceStep(cfg, s, action, p);
      }
    }
  }

  /** Results sent and not yet received, plus results received, are the finished
      attempts. */
  lemma ChannelTotal(s: State)
    requires forall o :: ChannelAt(s, o)
    ensures |s.shared.channel| + |s.outcomes| == Number(s.first.Sent?) + Number(s.second.Sent?)
    ensures forall o | o in s.outcomes :: ResultCount(1, s.first, o) + ResultCount(2, s.second, o) > 0
  {
    var one := if s.first.Sent? then multiset{Outcome(1, s.first.ok)} else multiset{};
    var two := if s.second.Sent? then multiset{Outcome(2, s.second.ok)} else multiset{};
    var all := multiset(s.shared.channel) + multiset(s.outcomes);
    forall o ensures all[o] == (one + two)[o] {
      assert ChannelAt(s, o);
    }
    assert all == one + two;
    assert |all| == |s.shared.channel| + |s.outcomes|;
    assert |one| == Number(s.first.Sent?) && |two| == Number(s.second.Sent?);
    forall o | o in s.outcomes ensures ResultCount(1, s.first, o) + ResultCount(2, s.second, o) > 0 {
      assert o in multiset(s.outcomes);
      assert ChannelAt(s, o);
    }
  }

  /** No send ever blocks: the channel has room whenever an attempt sends, in
      every run, also after the request goroutine has given up. */
  lemma SendNeverBlocks(cfg: Config, actions: seq<Action>)
    requires cfg.maxAttempts >= 1
    ensures var s := Run(cfg, actions); s.first.Sending? || s.second.Sending? ==> CanSend(cfg, s.shared)
  {
    RunInv(cfg, actions);
    ChannelTotal(Run(cfg, actions));
    if cfg.maxAttempts == 1 {
      OneAttempt(cfg, actions);
    }
  }

  /** With one allowed attempt the second is never launched. */
  lemma {:induction false} OneAttempt(cfg: Config, actions: seq<Action>)
    requires cfg.maxAttempts <= 1
    ensures Run(cfg, actions).second.Idle?
    decreases |actions|
  {
    if |actions| > 0 {
      OneAttempt(cfg, actions[..|actions| - 1]);
      RunInv(cfg, actions[..|actions| - 1]);
    }
  }

  /** The request goroutine has responded with success. */
  ghost predicate Finished(cfg: Config, s: State) {
    Inv(cfg, s) && s.main.Done?
  }

  /** When the request succeeds every launched attempt has been received exactly
      once, with success, and nothing is left in the channel. */
  lemma EveryAttemptReceived(cfg: Config, s: State)
    requires Finished(cfg, s)
    ensures s.shared.channel == [] && Plan(cfg, s.main.timedOut, s.main.launched)
    ensures s.first.Sent? && s.first.ok
    ensures if s.main.launched == 2 then s.second.Sent? && s.second.ok else s.second.Idle?
    ensures multiset(s.outcomes) ==
            multiset{Outcome(1, true)} + (if s.main.launched == 2 then multiset{Outcome(2, true)} else multiset{})
  {
    ChannelTotal(s);
    assert s.first.Sent? && (s.main.launched == 2 ==> s.second.Sent?);
    forall o ensures multiset(s.outcomes)[o] == ResultCount(1, s.first, o) + ResultCount(2, s.second, o) {
      assert ChannelAt(s, o);
    }
    var o1 := Outcome(1, s.first.ok);
    assert o1 in multiset(s.outcomes);
    assert o1 in s.outcomes && o1.ok;
    if s.main.launched == 2 {
      var o2 := Outcome(2, s.second.ok);
      assert o2 in multiset(s.outcomes);
      assert o2 in s.outcomes && o2.ok;
    }
  }

  // ----- completion -----

  function MainRank(s: State): int {
    match s.main
    case AtGatewayStart => 12
    case AtCheckoutStart => 11
    case AtLaunch => 10
    case AtSelect => 9
    case AtTimeout => 8
    case AtRetry => 7
    case AtRelaunch => 6
    case AtDrain(_, launched) => 3 + launched - |s.outcomes|
    case AtComplete(_, _) => 2
    case AtGatewayComplete(_, _) => 1
    case Done(_, _) => 0
    case Aborted => 0
  }

  function AttemptRank(a: Attempt): nat {
    match a
    case Idle => 6
    case Authorizing => 5
    case Sleeping => 4
    case Committing => 3
    case Recording(_) => 2
    case Sending(_, _) => 1
    case Sent(_, _) => 0
  }

  /** Bounds the steps still to come. */
  function Rank(s: State): int {
    MainRank(s) + AttemptRank(s.first) + AttemptRank(s.second)
  }

  /** A step that does anything brings the checkout nearer to its end. */
  lemma StepLowersRank(cfg: Config, s: State, action: Action)
    requires MainInv(cfg, s)
    ensures 0 <= MainRank(s)
    ensures Apply(cfg, s, action) == s || Rank(Apply(cfg, s, action)) < Rank(s)
  {
    match action
    case MainAction(ok, timer, stamp) => MainLowersRank(cfg, s, ok, timer, stamp);
    case FirstAction(_, _) =>
    case SecondAction(_, _) =>
  }

  lemma MainLowersRank(cfg: Config, s: State, ok: bool, timer: bool, stamp: Stamp)
    requires MainInv(cfg, s)
    ensures MainStep(cfg, s, ok, timer, stamp) == s || Rank(MainStep(cfg, s, ok, timer, stamp)) < Rank(s)
  {
  }

  /** Until the request goroutine has responded or given up, some step can
      still be taken: nothing waits for ever. */
  lemma NoDeadlock(cfg: Config, s: State)
    requires cfg.maxAttempts >= 1 && Inv(cfg, s) && !s.main.Done? && !s.main.Aborted?
    ensures exists action :: Apply(cfg, s, action) != s
  {
    var stamp := Stamp("", "", 0, 0);
    ChannelTotal(s);
    if s.main.AtDrain? && |s.outcomes| < s.main.launched && s.shared.channel == [] {
      if !s.first.Sent? {
        assert Apply(cfg, s, FirstAction(true, stamp)) != s;
      } else {
        assert Apply(cfg, s, SecondAction(true, stamp)) != s;
      }
    } else {
      assert Apply(cfg, s, MainAction(true, true, stamp)) != s;
    }
  }

  // ----- the oracle on a finished checkout -----

  predicate CommittedNote(p: Note) {
    p.LedgerEffect? && p.committed
  }

  /** How the fields the oracle reads follow from the note. */
  lemma NoteFields(cfg: Config, entry: Entry)
    ensures var e := Recorded(cfg, entry);
            && (e.Committed() <==> CommittedNote(entry.note))
            && (e.eventType == Start && e.kind == Dependency <==> entry.note.PaymentStarted?)
            && (entry.note.PaymentStarted? ==> e.attempt == entry.note.n)
            && (e.eventType == Timeout <==> entry.note == CheckoutTimedOut)
            && (e.eventType == Retry <==> entry.note == CheckoutRetried)
            && (entry.note == CheckoutRetried ==> e.attempt == 2)
  {
  }

  /** Kind, status and attempt of a recorded event follow from its component, its
      type and the attempt or count it is about. */
  lemma RecordedFields(cfg: Config, entry: Entry)
    ensures var e := Recorded(cfg, entry);
            && e.component in {"gateway", "checkout", "payment", "ledger"}
            && (e.kind == Entrypoint <==> e.component == "gateway") && (e.kind == Dependency <==> e.component == "payment")
            && (e.kind == SideEffect <==> e.component == "ledger")
            && (e.kind == Control <==> e.eventType == Timeout || e.eventType == Retry)
            && (e.kind == Internal <==> e.component == "checkout" && (e.eventType == Start || e.eventType == Complete))
            && (e.status == Running <==> e.eventType == Start || e.eventType == Retry)
            && (e.status == TimedOut <==> e.eventType == Timeout)
            && (e.status == Succeeded <==> e.eventType == Complete || e.Committed())
            && (e.status == Blocked <==> e.eventType == Effect && !e.Committed())
    ensures var e := Recorded(cfg, entry);
            && e.operation == (match e.component
                               case "gateway" => "checkout"
                               case "checkout" => "checkout.process"
                               case "payment" => "authorize"
                               case _ => "ledger.commit")
            && (e.component in {"gateway", "checkout"} && e.eventType in {Start, Timeout} ==> e.attempt == 1)
            && (e.eventType == Retry ==> e.attempt == 2)
            && (entry.note.CheckoutCompleted? || entry.note.GatewayCompleted? ==> e.attempt == entry.note.attempts)
            && (entry.note.PaymentStarted? || entry.note.PaymentCompleted? || entry.note.LedgerEffect? ==>
                  e.attempt == entry.note.n)
            && (e.effectCommitted.Some? <==> entry.note.LedgerEffect?)
            && e.executionId == cfg.executionId && e.traceId == cfg.traceId && e.logicalOp == cfg.logicalOp
            && e.eventId == entry.stamp.eventId && e.parentId == entry.parentId && e.replayRunId == ""
            && e.instance == entry.stamp.instance && e.occurredAt == entry.stamp.occurredAt && e.sequence == entry.stamp.sequence
  {
  }

  lemma {:induction false} CommitsByNote(cfg: Config, trace: seq<Entry>)
    ensures |Commits(Events(cfg, trace))| == |Filter(CommittedNote, Notes(trace))|
    decreases |trace|
  {
    if |trace| > 0 {
      CommitsByNote(cfg, trace[1..]);
      assert Events(cfg, trace)[1..] == Events(cfg, trace[1..]);
      assert Notes(trace)[1..] == Notes(trace[1..]);
      NoteFields(cfg, trace[0]);
    }
  }

  /** Counting the elements that satisfy `p` when only `a` and `b` do. */
  lemma {:induction false} CountTwo<T(!new)>(p: T -> bool, s: seq<T>, a: T, b: T)
    requires a != b && p(a) && p(b) && forall x | x in s && p(x) :: x == a || x == b
    ensures |Filter(p, s)| == multiset(s)[a] + multiset(s)[b]
  {
    if |s| > 0 {
      CountTwo(p, s[1..], a, b);
      assert s == [s[0]] + s[1..];
    }
  }

  ghost predicate Noted(trace: seq<Entry>, p: Note) {
    exists x :: x in trace && x.note == p
  }

  lemma NotedIff(trace: seq<Entry>, p: Note)
    ensures Noted(trace, p) <==> multiset(Notes(trace))[p] > 0
  {
    if Noted(trace, p) {
      var x :| x in trace && x.note == p;
      var i :| 0 <= i < |trace| && trace[i] == x;
      assert Notes(trace)[i] == p && p in Notes(trace);
    }
    if p in multiset(Notes(trace)) {
      assert p in Notes(trace);
      var i :| 0 <= i < |trace| && Notes(trace)[i] == p;
      assert trace[i] in trace;
    }
  }

  /** How often a finished checkout records `p`. */
  function FinishedCount(timedOut: bool, launched: nat, first: Attempt, second: Attempt, p: Note): nat {
    RequestCount(timedOut, launched, p) + Is(p, CheckoutCompleted(launched)) + Is(p, GatewayCompleted(launched)) +
    AttemptCount(1, first, p) + AttemptCount(2, second, p)
  }

  lemma AttemptsSent(cfg: Config, s: State)
    requires Finished(cfg, s)
    ensures s.first.Sent? && s.first.ok
    ensures if s.main.launched == 2 then s.second.Sent? && s.second.ok else s.second.Idle?
  {
    EveryAttemptReceived(cfg, s);
  }

  /** The whole trace of a successful checkout: which notes it holds, how often.
      The order in which they were recorded is free. */
  lemma FinishedTrace(cfg: Config, s: State, p: Note)
    requires Finished(cfg, s)
    ensures TraceCount(s.shared, p) == FinishedCount(s.main.timedOut, s.main.launched, s.first, s.second, p)
  {
    EveryAttemptReceived(cfg, s);
    assert TraceAt(s, p);
  }

  /** The ledger holds one effect per attempt, or only one under deduplication. */
  lemma EffectsWhenFinished(cfg: Config, s: State)
    requires Finished(cfg, s)
    ensures |s.shared.effects| == if cfg.dedup then 1 else s.main.launched
  {
    EveryAttemptReceived(cfg, s);
  }

  lemma FinishedLedgerCount(timedOut: bool, launched: nat, first: Attempt, second: Attempt, n: int)
    requires first.Sent? && (second.Sent? || second.Idle?)
    ensures FinishedCount(timedOut, launched, first, second, LedgerEffect(n, true)) ==
            Number(n == 1 && HoldsEffect(first)) + Number(n == 2 && HoldsEffect(second))
  {
  }

  lemma CommitCount(cfg: Config, s: State, n: int)
    requires Finished(cfg, s)
    ensures TraceCount(s.shared, LedgerEffect(n, true)) ==
            Number(n == 1 && HoldsEffect(s.first)) + Number(n == 2 && HoldsEffect(s.second))
  {
    AttemptsSent(cfg, s);
    FinishedTrace(cfg, s, LedgerEffect(n, true));
    FinishedLedgerCount(s.main.timedOut, s.main.launched, s.first, s.second, n);
  }

  lemma CommitNotes(cfg: Config, s: State, q: Note)
    requires Finished(cfg, s) && q in Notes(s.shared.trace) && CommittedNote(q)
    ensures q == LedgerEffect(1, true) || q == LedgerEffect(2, true)
  {
    CommitCount(cfg, s, q.n);
    assert q in multiset(Notes(s.shared.trace));
  }

  lemma CommitsOfTrace(cfg: Config, s: State)
    requires Finished(cfg, s)
    ensures |Commits(Events(cfg, s.shared.trace))| == |s.shared.effects|
  {
    CommitsByNote(cfg, s.shared.trace);
    CommitCount(cfg, s, 1);
    CommitCount(cfg, s, 2);
    forall q | q in Notes(s.shared.trace) && CommittedNote(q)
      ensures q == LedgerEffect(1, true) || q == LedgerEffect(2, true)
    {
      CommitNotes(cfg, s, q);
    }
    CountTwo(CommittedNote, Notes(s.shared.trace), LedgerEffect(1, true), LedgerEffect(2, true));
  }

  lemma AttemptsOfTrace(cfg: Config, s: State)
    requires Finished(cfg, s)
    ensures Attempts(Events(cfg, s.shared.trace)) == if s.main.launched == 2 then {1, 2} else {1}
  {
    var trace := s.shared.trace;
    EveryAttemptReceived(cfg, s);
    forall n ensures n in Attempts(Events(cfg, trace)) <==> n == 1 || (n == 2 && s.main.launched == 2) {
      AttemptNoted(cfg, trace, n);
      NotedIff(trace, PaymentStarted(n));
      FinishedTrace(cfg, s, PaymentStarted(n));
    }
  }

  lemma AttemptNoted(cfg: Config, trace: seq<Entry>, n: int)
    ensures n in Attempts(Events(cfg, trace)) <==> Noted(trace, PaymentStarted(n))
  {
    var events := Events(cfg, trace);
    if n in Attempts(events) {
      var e :| e in events && e.eventType == Start && e.kind == Dependency && e.attempt == n;
      var i :| 0 <= i < |events| && events[i] == e;
      NoteFields(cfg, trace[i]);
      assert trace[i] in trace && trace[i].note == PaymentStarted(n);
    }
    if Noted(trace, PaymentStarted(n)) {
      var x :| x in trace && x.note == PaymentStarted(n);
      var i :| 0 <= i < |trace| && trace[i] == x;
      NoteFields(cfg, x);
      assert events[i] in events;
    }
  }

  lemma TypeNoted(cfg: Config, trace: seq<Entry>, p: Note)
    requires p == CheckoutTimedOut || p == CheckoutRetried
    ensures Has(Events(cfg, trace), if p.CheckoutRetried? then Retry else Timeout) <==> Noted(trace, p)
  {
    var events, t := Events(cfg, trace), if p.CheckoutRetried? then Retry else Timeout;
    if Has(events, t) {
      var e :| e in events && e.eventType == t;
      var i :| 0 <= i < |events| && events[i] == e;
      NoteFields(cfg, trace[i]);
      assert trace[i] in trace && trace[i].note == p;
    }
    if Noted(trace, p) {
      var x :| x in trace && x.note == p;
      var i :| 0 <= i < |trace| && trace[i] == x;
      NoteFields(cfg, x);
      assert events[i] in events && events[i].eventType == t;
    }
  }

  lemma RetryIsSecond(cfg: Config, trace: seq<Entry>)
    requires Has(Events(cfg, trace), Retry)
    ensures exists e :: e in Events(cfg, trace) && e.attempt >= 2
  {
    var e :| e in Events(cfg, trace) && e.eventType == Retry;
    var i :| 0 <= i < |trace| && Events(cfg, trace)[i] == e;
    NoteFields(cfg, trace[i]);
  }

  /** Timeouts, retries and second attempts show in the trace exactly when a
      retry was launched. */
  lemma SymptomsOfTrace(cfg: Config, s: State)
    requires Finished(cfg, s)
    ensures var events := Events(cfg, s.shared.trace);
            && (Has(events, Retry) <==> s.main.launched == 2)
            && (s.main.launched == 2 ==> Has(events, Timeout) && exists e :: e in events && e.attempt >= 2)
  {
    EveryAttemptReceived(cfg, s);
    TypeNoted(cfg, s.shared.trace, CheckoutRetried);
    NotedIff(s.shared.trace, CheckoutRetried);
    FinishedTrace(cfg, s, CheckoutRetried);
    TypeNoted(cfg, s.shared.trace, CheckoutTimedOut);
    NotedIff(s.shared.trace, CheckoutTimedOut);
    FinishedTrace(cfg, s, CheckoutTimedOut);
    if s.main.launched == 2 {
      RetryIsSecond(cfg, s.shared.trace);
    }
  }

  /** All events belong to the one operation under judgement. */
  lemma WholeTraceJudged(cfg: Config, trace: seq<Entry>, chosen: string)
    requires Chosen(Events(cfg, trace), chosen)
    ensures Group(Events(cfg, trace), chosen) == Events(cfg, trace)
  {
    var events := Events(cfg, trace);
    forall e | e in events ensures e.logicalOp == cfg.logicalOp {
      var i :| 0 <= i < |events| && events[i] == e;
    }
    assert chosen in LogicalIds(events);
    FilterAll(OfOperation(chosen), events);
  }

  lemma AttemptTotal(cfg: Config, s: State)
    requires Finished(cfg, s)
    ensures |Attempts(Events(cfg, s.shared.trace))| == s.main.launched
  {
    AttemptsOfTrace(cfg, s);
    assert Plan(cfg, s.main.timedOut, s.main.launched);
  }

  lemma EffectsJudged(cfg: Config, s: State, r: OracleResult)
    requires Finished(cfg, s) && Judges(Events(cfg, s.shared.trace), r)
    ensures r.effects == EffectSummary(s.main.launched, if cfg.dedup then 1 else s.main.launched)
    ensures r.effects.ledgerCommits == |s.shared.effects|
  {
    EffectsWhenFinished(cfg, s);
    CommitsOfTrace(cfg, s);
    AttemptTotal(cfg, s);
  }

  /** The composed result. Whatever the scheduler, the timer, payment and ledger
      did, and in whatever order the sink saw the events: judged by the oracle,
      a successful checkout shows a duplicate exactly when two attempts ran and
      the ledger did not deduplicate, and the effect summary counts the attempts
      and the effects the ledger really committed. */
  lemma DuplicateExactly(cfg: Config, actions: seq<Action>, s: State, chosen: string, r: OracleResult)
    requires s == Run(cfg, actions) && s.main.Done?
    requires Chosen(Events(cfg, s.shared.trace), chosen)
    requires Judges(Group(Events(cfg, s.shared.trace), chosen), r)
    ensures r.matched <==> s.main.launched == 2 && !cfg.dedup
    ensures r.effects == EffectSummary(s.main.launched, if cfg.dedup then 1 else s.main.launched)
    ensures r.effects.ledgerCommits == |s.shared.effects|
  {
    RunInv(cfg, actions);
    WholeTraceJudged(cfg, s.shared.trace, chosen);
    EffectsJudged(cfg, s, r);
    SymptomsOfTrace(cfg, s);
  }
}
