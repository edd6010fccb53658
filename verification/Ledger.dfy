/** The demo ledger: committed effects and the deduplication policy. */
module Ledger {
  import opened Basics
  import Contracts
  import Namespacing
  import Capture
  import CheckoutRace

  /** The ledger's state as a value. */
  datatype Book = Book(dedup: bool, effects: seq<string>, first: map<string, string>)

  datatype Request = Request(checkout: string, attempt: int)

  /** The answer to a commit; an attempt below 1 and an effect event that could
      not be recorded are errors. */
  datatype Receipt = Refused | Receipt(effect: string, committed: bool)

  function EffectKey(checkout: string, attempt: nat): string {
    checkout + "-" + Decimal(attempt)
  }

  function CommitTo(b: Book, r: Request): (Book, Receipt) {
    if r.attempt < 1 then (b, Refused)
    else if b.dedup && r.checkout in b.first then (b, Receipt(EffectKey(r.checkout, r.attempt), false))
    else
      var key := EffectKey(r.checkout, r.attempt);
      (Book(b.dedup, b.effects + [key], if b.dedup then b.first[r.checkout := key] else b.first), Receipt(key, true))
  }

  /** What changes the ledger. */
  datatype Call = ResetLedger | Toggle(enabled: bool) | Ask(request: Request)

  const FRESH := Book(false, [], map[])

  function Perform(b: Book, c: Call): Book {
    match c
    case ResetLedger => FRESH
    case Toggle(enabled) => b.(dedup := enabled)
    case Ask(r) => CommitTo(b, r).0
  }

  /** The identifiers a request carries besides. */
  datatype Origin = Origin(executionId: string, traceId: string, parentId: string, logicalOp: string)

  /** The effect event of a commit. */
  function EffectInput(r: Request, o: Origin, committed: bool): Capture.Input {
    Capture.Input(o.executionId, o.traceId, o.parentId, "", "ledger.commit", Contracts.SideEffect, Contracts.Effect,
                  r.attempt, o.logicalOp, if committed then Contracts.Succeeded else Contracts.Blocked, Some(committed))
  }

  class Service {
    const recorder: Capture.Recorder?
    var dedupEnabled: bool
    var effects: seq<string>
    var firstEffectByCheckout: map<string, string>

    ghost function Value(): Book
      reads `dedupEnabled, `effects, `firstEffectByCheckout
    {
      Book(dedupEnabled, effects, firstEffectByCheckout)
    }

    constructor (recorder: Capture.Recorder?)
      ensures this.recorder == recorder && Value() == Book(false, [], map[])
    {
      this.recorder, dedupEnabled, effects, firstEffectByCheckout := recorder, false, [], map[];
    }

    method Reset()
      modifies `dedupEnabled, `effects, `firstEffectByCheckout
      ensures Value() == Perform(old(Value()), ResetLedger)
    {
      dedupEnabled, effects, firstEffectByCheckout := false, [], map[];
    }

    method SetDeduplicationEnabled(enabled: bool)
      modifies `dedupEnabled
      ensures Value() == Perform(old(Value()), Toggle(enabled))
    {
      dedupEnabled := enabled;
    }

    /** The part of `Commit` under the mutex. */
    method Enter(r: Request) returns (receipt: Receipt)
      requires r.attempt >= 1
      modifies `effects, `firstEffectByCheckout
      ensures (Value(), receipt) == CommitTo(old(Value()), r)
    {
      var effectId := EffectKey(r.checkout, r.attempt);
      var committed := true;
      if dedupEnabled {
        if r.checkout in firstEffectByCheckout {
          committed := false;
        } else {
          firstEffectByCheckout := firstEffectByCheckout[r.checkout := effectId];
        }
      }
      if committed {
        effects := effects + [effectId];
      }
      return Receipt(effectId, committed);
    }

    /** `Commit`. The effect stays on the books even when its event could not be
        recorded, which the caller sees as an error. */
    method Commit(r: Request, o: Origin, now: int, otherChecks: bool, delivery: Capture.Delivery) returns (receipt: Receipt)
      requires recorder != null ==> recorder.Valid()
      modifies `effects, `firstEffectByCheckout
      modifies recorder, if recorder == null then {} else {recorder.ids}
      ensures recorder != null ==> recorder.Valid()
      ensures Value() == Perform(old(Value()), Ask(r))
      ensures r.attempt < 1 ==> receipt == Refused && (recorder != null ==> recorder.emitted == old(recorder.emitted))
      ensures r.attempt >= 1 && recorder == null ==> receipt == CommitTo(old(Value()), r).1
      ensures r.attempt >= 1 && recorder != null ==>
                var answer := CommitTo(old(Value()), r).1;
                var e := old(recorder.EventFor(EffectInput(r, o, answer.committed), now, otherChecks));
                && receipt == (if e.Valid() && delivery != Capture.Rejected then answer else Refused)
                && recorder.emitted == old(recorder.emitted) + (if e.Valid() && delivery == Capture.Accepted then [e] else [])
    {
      if r.attempt < 1 {
        return Refused;
      }
      receipt := Enter(r);
      if recorder != null {
        var recorded := recorder.Record(EffectInput(r, o, receipt.committed), now, otherChecks, delivery);
        if recorded.None? {
          return Refused;
        }
      }
    }
  }

  // ----- histories of one policy -----

  /** The book after a list of commits on a fresh ledger. */
  function After(dedup: bool, requests: seq<Request>): Book {
    if |requests| == 0 then Book(dedup, [], map[])
    else CommitTo(After(dedup, requests[..|requests| - 1]), requests[|requests| - 1]).0
  }

  predicate Proper(r: Request) {
    r.attempt >= 1
  }

  /** `r` is a proper request and none before it was for its checkout. */
  ghost predicate FirstFor(requests: seq<Request>, i: nat) {
    i < |requests| && Proper(requests[i]) &&
    forall j | 0 <= j < i && requests[j].checkout == requests[i].checkout :: !Proper(requests[j])
  }

  function Keys(requests: seq<Request>): seq<string> {
    if |requests| == 0 then [] else
    var last := requests[|requests| - 1];
    Keys(requests[..|requests| - 1]) + (if Proper(last) then [EffectKey(last.checkout, last.attempt)] else [])
  }

  /** Which checkouts have an effect on record. */
  lemma {:induction false} FirstRecorded(requests: seq<Request>, checkout: string)
    ensures After(true, requests).dedup
    ensures checkout in After(true, requests).first <==>
            exists j :: 0 <= j < |requests| && Proper(requests[j]) && requests[j].checkout == checkout
    decreases |requests|
  {
    if |requests| > 0 {
      var init := requests[..|requests| - 1];
      FirstRecorded(init, checkout);
      if j :| 0 <= j < |requests| && Proper(requests[j]) && requests[j].checkout == checkout {
        assert j < |init| ==> init[j] == requests[j];
      }
    }
  }

  /** With deduplication a request commits exactly when it is the first proper
      one for its checkout: each checkout gets one effect, never two. */
  lemma OncePerCheckout(requests: seq<Request>, i: nat)
    requires i < |requests| && Proper(requests[i])
    ensures CommitTo(After(true, requests[..i]), requests[i]).1 ==
            Receipt(EffectKey(requests[i].checkout, requests[i].attempt), FirstFor(requests, i))
  {
    FirstRecorded(requests[..i], requests[i].checkout);
    var book := After(true, requests[..i]);
    if requests[i].checkout in book.first {
      var j :| 0 <= j < i && Proper(requests[..i][j]) && requests[..i][j].checkout == requests[i].checkout;
      assert Proper(requests[j]) && requests[j].checkout == requests[i].checkout;
    } else {
      forall j | 0 <= j < i && requests[j].checkout == requests[i].checkout ensures !Proper(requests[j]) {
        assert requests[..i][j] == requests[j];
      }
    }
  }

  /** So there are as many effects as checkouts. */
  lemma {:induction false} OneEffectEach(requests: seq<Request>)
    ensures |After(true, requests).effects| == |After(true, requests).first|
    ensures After(true, requests).dedup
    decreases |requests|
  {
    if |requests| > 0 {
      OneEffectEach(requests[..|requests| - 1]);
    }
  }

  /** Without deduplication every proper request commits, in order. */
  lemma {:induction false} AllCommitted(requests: seq<Request>)
    ensures After(false, requests) == Book(false, Keys(requests), map[])
    decreases |requests|
  {
    if |requests| > 0 {
      AllCommitted(requests[..|requests| - 1]);
    }
  }

  /** An effect key tells checkout and attempt apart, dashes or not. */
  lemma EffectKeyExact(c: string, m: nat, d: string, n: nat)
    ensures EffectKey(c, m) == EffectKey(d, n) <==> c == d && m == n
  {
    if EffectKey(c, m) == EffectKey(d, n) {
      Namespacing.LastDash(c, Decimal(m), d, Decimal(n));
      DecimalInjective(m, n);
    }
  }

  // ----- histories of any calls -----

  /** The ledger after a history of commits, policy changes and resets. */
  function Play(calls: seq<Call>): Book {
    if |calls| == 0 then FRESH else Perform(Play(calls[..|calls| - 1]), calls[|calls| - 1])
  }

  /** Call `j` took a proper request for the checkout while deduplication was on,
      and the ledger has not been reset since. */
  ghost predicate Remembered(calls: seq<Call>, j: nat, checkout: string) {
    && j < |calls| && calls[j].Ask? && Proper(calls[j].request) && calls[j].request.checkout == checkout
    && Play(calls[..j]).dedup && forall k | j < k < |calls| :: !calls[k].ResetLedger?
  }

  /** Call `j` switched deduplication on, and nothing has touched the policy
      since. */
  ghost predicate SwitchedOn(calls: seq<Call>, j: nat) {
    j < |calls| && calls[j] == Toggle(true) && forall k | j < k < |calls| :: calls[k].Ask?
  }

  lemma RememberedInit(calls: seq<Call>, j: nat, checkout: string)
    requires |calls| > 0 && j < |calls| - 1
    ensures Remembered(calls, j, checkout) <==>
            Remembered(calls[..|calls| - 1], j, checkout) && !calls[|calls| - 1].ResetLedger?
  {
    assert calls[..|calls| - 1][..j] == calls[..j];
  }

  lemma {:induction false} RememberedExactly(calls: seq<Call>, checkout: string)
    ensures checkout in Play(calls).first <==> exists j: nat :: Remembered(calls, j, checkout)
    decreases |calls|
  {
    if |calls| > 0 {
      var n: nat := |calls| - 1;
      RememberedExactly(calls[..n], checkout);
      if j: nat :| Remembered(calls, j, checkout) {
        if j < n {
          RememberedInit(calls, j, checkout);
        }
      }
      if checkout in Play(calls).first {
        if j: nat :| Remembered(calls[..n], j, checkout) {
          RememberedInit(calls, j, checkout);
        } else {
          assert Remembered(calls, n, checkout);
        }
      }
    }
  }

  lemma {:induction false} PolicyExactly(calls: seq<Call>)
    ensures Play(calls).dedup <==> exists j: nat :: SwitchedOn(calls, j)
    decreases |calls|
  {
    if |calls| > 0 {
      var n: nat := |calls| - 1;
      PolicyExactly(calls[..n]);
      if j: nat :| SwitchedOn(calls[..n], j) {
        assert calls[n].Ask? ==> SwitchedOn(calls, j);
      }
      if j: nat :| SwitchedOn(calls, j) {
        assert j < n ==> SwitchedOn(calls[..n], j);
      }
      if calls[n] == Toggle(true) {
        assert SwitchedOn(calls, n);
      }
    }
  }

  /** In any history a proper request commits exactly unless deduplication is on
      and has been on for an earlier request of its checkout since the last
      reset: an effect committed while it was off is not remembered. */
  lemma CommitsExactly(calls: seq<Call>, r: Request)
    requires Proper(r)
    ensures CommitTo(Play(calls), r).1 ==
            Receipt(EffectKey(r.checkout, r.attempt),
                    !((exists j: nat :: SwitchedOn(calls, j)) && exists j: nat :: Remembered(calls, j, r.checkout)))
  {
    PolicyExactly(calls);
    RememberedExactly(calls, r.checkout);
  }

  function Asks(requests: seq<Request>): (calls: seq<Call>)
    ensures |calls| == |requests| && forall i | 0 <= i < |calls| :: calls[i] == Ask(requests[i])
  {
    seq(|requests|, i requires 0 <= i < |requests| => Ask(requests[i]))
  }

  /** A history of commits under one policy is the special case in which the
      policy is set first. */
  lemma {:induction false} OnePolicy(dedup: bool, requests: seq<Request>)
    ensures Play([Toggle(dedup)] + Asks(requests)) == After(dedup, requests)
    decreases |requests|
  {
    var calls := [Toggle(dedup)] + Asks(requests);
    if |requests| == 0 {
      assert calls == [Toggle(dedup)] && calls[..0] == [];
      assert Play(calls) == Perform(Play([]), Toggle(dedup));
    } else {
      var init := requests[..|requests| - 1];
      OnePolicy(dedup, init);
      assert calls[..|calls| - 1] == [Toggle(dedup)] + Asks(init);
    }
  }

  // ----- the ledger inside the checkout race -----

  function KeysFor(checkout: string, attempts: seq<int>): seq<string>
    requires forall n | n in attempts :: n >= 1
  {
    seq(|attempts|, i requires 0 <= i < |attempts| => assert attempts[i] in attempts; EffectKey(checkout, attempts[i]))
  }

  /** The race keeps of the ledger what concerns its one checkout. */
  ghost predicate Abstracts(cfg: CheckoutRace.Config, checkout: string, shared: CheckoutRace.Shared, b: Book) {
    && (forall n | n in shared.effects :: n >= 1)
    && b.dedup == cfg.dedup && b.effects == KeysFor(checkout, shared.effects)
    && (b.dedup ==> (checkout in b.first <==> shared.firstEffect))
  }

  /** The race's commit step is the ledger's commit. */
  lemma RaceCommits(cfg: CheckoutRace.Config, checkout: string, shared: CheckoutRace.Shared, b: Book, n: int,
                    ok: bool, stamp: CheckoutRace.Stamp)
    requires Abstracts(cfg, checkout, shared, b) && n >= 1
    ensures var (after, next) := CheckoutRace.AttemptStep(cfg, shared, n, CheckoutRace.Committing, ok, stamp);
            var (b', receipt) := CommitTo(b, Request(checkout, n));
            Abstracts(cfg, checkout, after, b') && receipt.Receipt? && next == CheckoutRace.Recording(receipt.committed)
  {
    var after := CheckoutRace.AttemptStep(cfg, shared, n, CheckoutRace.Committing, ok, stamp).0;
    forall m | m in after.effects ensures m >= 1 {
    }
    if after.effects != shared.effects {
      assert KeysFor(checkout, after.effects) == KeysFor(checkout, shared.effects) + [EffectKey(checkout, n)];
    }
  }

  /** The effect event the race records is the one the ledger builds: SUCCESS and
      committed, or BLOCKED and not. */
  lemma RaceRecords(cfg: CheckoutRace.Config, checkout: string, n: int, committed: bool, stamp: CheckoutRace.Stamp,
                    parentId: string)
    ensures var origin := Origin(cfg.executionId, cfg.traceId, parentId, cfg.logicalOp);
            var e := Capture.Built("ledger", stamp.instance, stamp.eventId, stamp.sequence, stamp.occurredAt, true,
                                   EffectInput(Request(checkout, n), origin, committed));
            && e == CheckoutRace.Recorded(cfg, CheckoutRace.Entry(CheckoutRace.LedgerEffect(n, committed), stamp, parentId))
            && e.eventType == Contracts.Effect && e.effectCommitted == Some(committed) && e.attempt == n
            && e.status == (if committed then Contracts.Succeeded else Contracts.Blocked)
            && e.eventId == stamp.eventId && e.parentId == parentId && e.sequence == stamp.sequence
            && e.occurredAt == stamp.occurredAt && e.component == "ledger" && e.operation == "ledger.commit"
  {
  }
}
