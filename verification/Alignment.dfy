/** Aligning a baseline and a comparison run by semantic key. */
module Alignment {
  import opened Basics
  import opened Contracts

  /** Events correspond by component, operation, type, logical operation and
      attempt. */
  datatype Key = Key(component: string, operation: string, eventType: EventType, logicalOp: string, attempt: int)

  function KeyOf(e: Event): Key {
    Key(e.component, e.operation, e.eventType, e.logicalOp, e.attempt)
  }

  function HasKey(k: Key): Event -> bool {
    (e: Event) => KeyOf(e) == k
  }

  /** The events with key `k`, in order. */
  function Bucket(s: seq<Event>, k: Key): seq<Event> {
    Filter(HasKey(k), s)
  }

  /** How many earlier events share the key of event `i`. */
  function Occurrence(s: seq<Event>, i: nat): nat
    requires i < |s|
  {
    |Bucket(s[..i], KeyOf(s[i]))|
  }

  /** The correspondence asked for: the n-th occurrence of a key on one side
      belongs to the n-th occurrence of that key on the other. */
  ghost predicate Corresponds(b: seq<Event>, c: seq<Event>, i: nat, j: nat) {
    i < |b| && j < |c| && KeyOf(b[i]) == KeyOf(c[j]) && Occurrence(b, i) == Occurrence(c, j)
  }

  datatype EventChange = EventChange(baselineId: string, comparisonId: string, field: string,
                                     baselineValue: string, comparisonValue: string)

  function StatusName(s: EventStatus): string {
    match s
    case Running => "RUNNING"
    case Succeeded => "SUCCESS"
    case Failed => "FAILED"
    case TimedOut => "TIMEOUT"
    case Blocked => "BLOCKED"
  }

  datatype AlignResult = AlignResult(matched: seq<(string, string)>, added: seq<string>, removed: seq<string>,
                                     changed: seq<EventChange>)

  /** The five fields by which events correspond. */
  predicate SameFields(x: Event, y: Event) {
    && x.component == y.component && x.operation == y.operation && x.eventType == y.eventType
    && x.logicalOp == y.logicalOp && x.attempt == y.attempt
  }

  lemma CorrespondOnFields(b: seq<Event>, c: seq<Event>, i: nat, j: nat)
    requires Corresponds(b, c, i, j)
    ensures SameFields(b[i], c[j])
  {
  }

  /** Two events without a counterpart differ in one of the fields. */
  lemma UnmatchedDiffer(b: seq<Event>, c: seq<Event>, i: nat, j: nat)
    requires i < |b| && j < |c| && !HasCounterpart(b, c, i) && !HasCounterpart(c, b, j)
    ensures !SameFields(b[i], c[j])
  {
    if SameFields(b[i], c[j]) {
      var k := KeyOf(b[i]);
      assert KeyOf(c[j]) == k;
      CounterpartExists(b, c, i);
      CounterpartExists(c, b, j);
      OccurrenceBelow(b, i);
      OccurrenceBelow(c, j);
    }
  }

  // ----- occurrences -----

  lemma BucketSnoc(s: seq<Event>, i: nat, k: Key)
    requires i < |s|
    ensures Bucket(s[..i + 1], k) == Bucket(s[..i], k) + (if KeyOf(s[i]) == k then [s[i]] else [])
  {
    assert s[..i + 1] == s[..i] + [s[i]];
    FilterSnoc(HasKey(k), s[..i], s[i]);
  }

  lemma BucketPrefix(s: seq<Event>, i: nat, k: Key)
    requires i <= |s|
    ensures |Bucket(s[..i], k)| <= |Bucket(s, k)|
  {
    assert s == s[..i] + s[i..];
    FilterAppend(HasKey(k), s[..i], s[i..]);
  }

  /** Distinct positions with one key are distinct occurrences. */
  lemma {:induction false} OccurrenceInjective(s: seq<Event>, i: nat, j: nat)
    requires i < j < |s| && KeyOf(s[i]) == KeyOf(s[j])
    ensures Occurrence(s, i) < Occurrence(s, j)
    decreases j - i
  {
    var k := KeyOf(s[i]);
    BucketSnoc(s, i, k);
    var t := s[..j];
    assert t[..i + 1] == s[..i + 1];
    BucketPrefix(t, i + 1, k);
  }

  lemma OccurrenceBelow(s: seq<Event>, i: nat)
    requires i < |s|
    ensures Occurrence(s, i) < |Bucket(s, KeyOf(s[i]))|
  {
    BucketSnoc(s, i, KeyOf(s[i]));
    BucketPrefix(s, i + 1, KeyOf(s[i]));
  }

  /** The n-th element of a bucket has a position, as its n-th occurrence. */
  lemma {:induction false} BucketPosition(s: seq<Event>, k: Key, n: nat) returns (j: nat)
    requires n < |Bucket(s, k)|
    ensures j < |s| && KeyOf(s[j]) == k && Occurrence(s, j) == n && s[j] == Bucket(s, k)[n]
    decreases |s|
  {
    var m := |s| - 1;
    assert s[..m + 1] == s;
    BucketSnoc(s, m, k);
    if n < |Bucket(s[..m], k)| {
      j := BucketPosition(s[..m], k, n);
      assert s[..m][..j] == s[..j];
    } else {
      j := m;
    }
  }

  /** Both directions of the correspondence are one-to-one. */
  lemma CorrespondsOneToOne(b: seq<Event>, c: seq<Event>, i: nat, j: nat, i': nat, j': nat)
    requires Corresponds(b, c, i, j) && Corresponds(b, c, i', j')
    ensures i == i' <==> j == j'
  {
    if i < i' && j == j' { OccurrenceInjective(b, i, i'); }
    if i' < i && j == j' { OccurrenceInjective(b, i', i); }
    if j < j' && i == i' { OccurrenceInjective(c, j, j'); }
    if j' < j && i == i' { OccurrenceInjective(c, j', j); }
  }

  ghost predicate HasCounterpart(b: seq<Event>, c: seq<Event>, i: nat) {
    exists j :: Corresponds(b, c, i, j)
  }

  /** An event has a counterpart exactly when the other side has enough
      occurrences of its key. */
  lemma CounterpartExists(b: seq<Event>, c: seq<Event>, i: nat)
    requires i < |b|
    ensures HasCounterpart(b, c, i) <==> Occurrence(b, i) < |Bucket(c, KeyOf(b[i]))|
  {
    if Occurrence(b, i) < |Bucket(c, KeyOf(b[i]))| {
      var j := BucketPosition(c, KeyOf(b[i]), Occurrence(b, i));
      assert Corresponds(b, c, i, j);
    }
    if j :| Corresponds(b, c, i, j) {
      OccurrenceBelow(c, j);
    }
  }

  // ----- the alignment method -----

  /** `pairs` lists the correspondence of the first `n` baseline events in
      baseline order. */
  ghost predicate PairsUpTo(b: seq<Event>, c: seq<Event>, n: nat, pairs: seq<(nat, nat)>) {
    && (forall x, y | 0 <= x < y < |pairs| :: pairs[x].0 < pairs[y].0)
    && (forall x | 0 <= x < |pairs| :: pairs[x].0 < n && Corresponds(b, c, pairs[x].0, pairs[x].1))
    && (forall i: nat, j: nat | i < n && Corresponds(b, c, i, j) :: (i, j) in pairs)
  }

  /** `at` lists the positions below `n` that satisfy `p`, in order. */
  ghost predicate Positions(p: nat -> bool, n: nat, at: seq<nat>) {
    && (forall x, y | 0 <= x < y < |at| :: at[x] < at[y])
    && (forall x | 0 <= x < |at| :: at[x] < n && p(at[x]))
    && (forall i: nat | i < n && p(i) :: i in at)
  }

  ghost function Lost(b: seq<Event>, c: seq<Event>): nat -> bool {
    (i: nat) => !HasCounterpart(b, c, i)
  }

  ghost function Unused(c: seq<Event>, used: set<string>): nat -> bool {
    (j: nat) => j < |c| && c[j].eventId !in used
  }

  /** The ids of the paired events. */
  function PairIds(b: seq<Event>, c: seq<Event>, pairs: seq<(nat, nat)>): seq<(string, string)>
    requires forall x | 0 <= x < |pairs| :: pairs[x].0 < |b| && pairs[x].1 < |c|
  {
    seq(|pairs|, x requires 0 <= x < |pairs| => (b[pairs[x].0].eventId, c[pairs[x].1].eventId))
  }

  function IdsAt(s: seq<Event>, at: seq<nat>): seq<string>
    requires forall x | 0 <= x < |at| :: at[x] < |s|
  {
    seq(|at|, x requires 0 <= x < |at| => s[at[x]].eventId)
  }

  /** One change per pair whose status differs. */
  function ChangesOf(b: seq<Event>, c: seq<Event>, pairs: seq<(nat, nat)>): seq<EventChange>
    requires forall x | 0 <= x < |pairs| :: pairs[x].0 < |b| && pairs[x].1 < |c|
  {
    if |pairs| == 0 then [] else
    var (i, j) := pairs[|pairs| - 1];
    ChangesOf(b, c, pairs[..|pairs| - 1]) + Change(b[i], c[j])
  }

  function Change(x: Event, y: Event): seq<EventChange> {
    if x.status != y.status
    then [EventChange(x.eventId, y.eventId, "status", StatusName(x.status), StatusName(y.status))]
    else []
  }

  ghost function UsedIds(c: seq<Event>, pairs: seq<(nat, nat)>): set<string>
    requires forall x | 0 <= x < |pairs| :: pairs[x].1 < |c|
  {
    set x | 0 <= x < |pairs| :: c[pairs[x].1].eventId
  }

  /** The whole result: `pairs` is the correspondence, `lost` the baseline
      positions without a counterpart, `gained` the comparison positions whose
      event id no pair uses. */
  ghost predicate Aligned(b: seq<Event>, c: seq<Event>, r: AlignResult,
                          pairs: seq<(nat, nat)>, lost: seq<nat>, gained: seq<nat>)
  {
    && PairsUpTo(b, c, |b|, pairs)
    && Positions(Lost(b, c), |b|, lost)
    && Positions(Unused(c, UsedIds(c, pairs)), |c|, gained)
    && r == AlignResult(PairIds(b, c, pairs), IdsAt(c, gained), IdsAt(b, lost), ChangesOf(b, c, pairs))
  }

  /** The text reported for a status. */
  ghost predicate ReadsAs(s: EventStatus, text: string) {
    && (s == Running ==> text == "RUNNING") && (s == Succeeded ==> text == "SUCCESS") && (s == Failed ==> text == "FAILED")
    && (s == TimedOut ==> text == "TIMEOUT") && (s == Blocked ==> text == "BLOCKED")
  }

  ghost predicate IsChange(b: seq<Event>, c: seq<Event>, i: nat, j: nat, ch: EventChange) {
    && i < |b| && j < |c| && b[i].status != c[j].status
    && ch.baselineId == b[i].eventId && ch.comparisonId == c[j].eventId && ch.field == "status"
    && ReadsAs(b[i].status, ch.baselineValue) && ReadsAs(c[j].status, ch.comparisonValue)
  }

  lemma {:induction false} ChangesFromPairs(b: seq<Event>, c: seq<Event>, pairs: seq<(nat, nat)>, ch: EventChange)
    requires forall x | 0 <= x < |pairs| :: pairs[x].0 < |b| && pairs[x].1 < |c|
    ensures ch in ChangesOf(b, c, pairs) <==> exists p :: p in pairs && ch in Change(b[p.0], c[p.1])
    decreases |pairs|
  {
    if |pairs| > 0 {
      var init, last := pairs[..|pairs| - 1], pairs[|pairs| - 1];
      ChangesFromPairs(b, c, init, ch);
      assert pairs == init + [last];
    }
  }

  lemma ChangeOnFields(b: seq<Event>, c: seq<Event>, i: nat, j: nat, ch: EventChange)
    requires i < |b| && j < |c|
    ensures ch in Change(b[i], c[j]) <==> IsChange(b, c, i, j, ch)
  {
  }

  /** The changes are the pairs whose status differs, each reported by its two ids,
      the field and the two texts, old before new. */
  lemma ChangesOnFields(b: seq<Event>, c: seq<Event>, pairs: seq<(nat, nat)>, ch: EventChange)
    requires forall x | 0 <= x < |pairs| :: pairs[x].0 < |b| && pairs[x].1 < |c|
    ensures ch in ChangesOf(b, c, pairs) <==> exists p :: p in pairs && IsChange(b, c, p.0, p.1, ch)
  {
    ChangesFromPairs(b, c, pairs, ch);
    forall p | p in pairs ensures ch in Change(b[p.0], c[p.1]) <==> IsChange(b, c, p.0, p.1, ch) {
      ChangeOnFields(b, c, p.0, p.1, ch);
    }
  }

  ghost predicate AlignedAs(b: seq<Event>, c: seq<Event>, r: AlignResult) {
    exists pairs, lost, gained :: Aligned(b, c, r, pairs, lost, gained)
  }

  function Min(x: nat, y: nat): nat {
    if x < y then x else y
  }

  function Consumed(consumed: map<Key, nat>, k: Key): nat {
    if k in consumed then consumed[k] else 0
  }

  function Candidates(byKey: map<Key, seq<Event>>, k: Key): seq<Event> {
    if k in byKey then byKey[k] else []
  }

  ghost predicate Grouped(byKey: map<Key, seq<Event>>, c: seq<Event>) {
    forall k :: Candidates(byKey, k) == Bucket(c, k)
  }

  lemma GroupStep(byKey: map<Key, seq<Event>>, c: seq<Event>, i: nat)
    requires i < |c| && Grouped(byKey, c[..i])
    ensures Grouped(byKey[KeyOf(c[i]) := Candidates(byKey, KeyOf(c[i])) + [c[i]]], c[..i + 1])
  {
    var grown := byKey[KeyOf(c[i]) := Candidates(byKey, KeyOf(c[i])) + [c[i]]];
    forall k ensures Candidates(grown, k) == Bucket(c[..i + 1], k) {
      BucketSnoc(c, i, k);
      assert Candidates(byKey, k) == Bucket(c[..i], k);
      assert KeyOf(c[i]) != k ==> Candidates(grown, k) == Candidates(byKey, k);
    }
  }

  /** The loop that groups the comparison events by key. */
  method GroupByKey(c: seq<Event>) returns (byKey: map<Key, seq<Event>>)
    ensures Grouped(byKey, c)
  {
    byKey := map[];
    for i := 0 to |c|
      invariant Grouped(byKey, c[..i])
    {
      GroupStep(byKey, c, i);
      byKey := byKey[KeyOf(c[i]) := Candidates(byKey, KeyOf(c[i])) + [c[i]]];
    }
    assert c[..|c|] == c;
  }

  lemma PairsSnoc(b: seq<Event>, c: seq<Event>, n: nat, pairs: seq<(nat, nat)>, j: nat)
    requires PairsUpTo(b, c, n, pairs) && Corresponds(b, c, n, j)
    ensures PairsUpTo(b, c, n + 1, pairs + [(n, j)])
  {
    var grown := pairs + [(n, j)];
    forall i': nat, j': nat | i' < n + 1 && Corresponds(b, c, i', j') ensures (i', j') in grown {
      if i' == n {
        CorrespondsOneToOne(b, c, n, j, i', j');
        assert (i', j') == grown[|pairs|];
      } else {
        var x :| 0 <= x < |pairs| && pairs[x] == (i', j');
        assert grown[x] == (i', j');
      }
    }
  }

  lemma PairsSkip(b: seq<Event>, c: seq<Event>, n: nat, pairs: seq<(nat, nat)>)
    requires PairsUpTo(b, c, n, pairs) && !HasCounterpart(b, c, n)
    ensures PairsUpTo(b, c, n + 1, pairs)
  {
  }

  lemma OutputsSnoc(b: seq<Event>, c: seq<Event>, pairs: seq<(nat, nat)>, n: nat, j: nat)
    requires (forall x | 0 <= x < |pairs| :: pairs[x].0 < |b| && pairs[x].1 < |c|) && n < |b| && j < |c|
    ensures PairIds(b, c, pairs + [(n, j)]) == PairIds(b, c, pairs) + [(b[n].eventId, c[j].eventId)]
    ensures ChangesOf(b, c, pairs + [(n, j)]) ==
            if b[n].status != c[j].status
            then ChangesOf(b, c, pairs) +
                 [EventChange(b[n].eventId, c[j].eventId, "status", StatusName(b[n].status), StatusName(c[j].status))]
            else ChangesOf(b, c, pairs)
    ensures UsedIds(c, pairs + [(n, j)]) == UsedIds(c, pairs) + {c[j].eventId}
  {
    var grown := pairs + [(n, j)];
    assert grown[..|pairs|] == pairs && grown[|pairs|] == (n, j);
    forall id ensures id in UsedIds(c, grown) <==> id in UsedIds(c, pairs) + {c[j].eventId} {
      if id in UsedIds(c, pairs) {
        var x :| 0 <= x < |pairs| && c[pairs[x].1].eventId == id;
        assert grown[x] == pairs[x];
      }
      assert c[grown[|pairs|].1].eventId in UsedIds(c, grown);
    }
  }

  lemma PositionsSnoc(p: nat -> bool, n: nat, at: seq<nat>)
    requires Positions(p, n, at)
    ensures p(n) ==> Positions(p, n + 1, at + [n])
    ensures !p(n) ==> Positions(p, n + 1, at)
  {
    if p(n) {
      var grown := at + [n];
      forall i: nat | i < n + 1 && p(i) ensures i in grown {
        if i == n {
          assert grown[|at|] == n;
        } else {
          assert i in at;
        }
      }
    }
  }

  lemma IdsAtSnoc(s: seq<Event>, at: seq<nat>, n: nat)
    requires (forall x | 0 <= x < |at| :: at[x] < |s|) && n < |s|
    ensures IdsAt(s, at + [n]) == IdsAt(s, at) + [s[n].eventId]
  {
  }

  ghost predicate ConsumedUpTo(b: seq<Event>, c: seq<Event>, n: nat, consumed: map<Key, nat>)
    requires n <= |b|
  {
    forall k :: Consumed(consumed, k) == Min(|Bucket(b[..n], k)|, |Bucket(c, k)|)
  }

  lemma ConsumedStep(b: seq<Event>, c: seq<Event>, n: nat, consumed: map<Key, nat>)
    requires n < |b| && ConsumedUpTo(b, c, n, consumed)
    ensures var k := KeyOf(b[n]); var idx := Consumed(consumed, k);
            && (idx >= |Bucket(c, k)| ==> ConsumedUpTo(b, c, n + 1, consumed))
            && (idx < |Bucket(c, k)| ==> ConsumedUpTo(b, c, n + 1, consumed[k := idx + 1]))
            && (idx < |Bucket(c, k)| <==> Occurrence(b, n) < |Bucket(c, k)|)
            && (idx < |Bucket(c, k)| ==> idx == Occurrence(b, n))
  {
    forall k ensures |Bucket(b[..n + 1], k)| == |Bucket(b[..n], k)| + (if KeyOf(b[n]) == k then 1 else 0) {
      BucketSnoc(b, n, k);
    }
  }

  /** The variables of the loop over the baseline. */
  datatype Progress = Progress(consumed: map<Key, nat>, used: set<string>, matched: seq<(string, string)>,
                               removed: seq<string>, changed: seq<EventChange>)

  /** What the loop has produced after `n` baseline events. */
  ghost predicate ProgressInv(b: seq<Event>, c: seq<Event>, n: nat, s: Progress, pairs: seq<(nat, nat)>, lost: seq<nat>) {
    && n <= |b| && ConsumedUpTo(b, c, n, s.consumed)
    && PairsUpTo(b, c, n, pairs) && Positions(Lost(b, c), n, lost)
    && OutputsOf(b, c, s, pairs, lost)
  }

  ghost predicate OutputsOf(b: seq<Event>, c: seq<Event>, s: Progress, pairs: seq<(nat, nat)>, lost: seq<nat>)
    requires forall x | 0 <= x < |pairs| :: pairs[x].0 < |b| && pairs[x].1 < |c|
    requires forall x | 0 <= x < |lost| :: lost[x] < |b|
  {
    && s.matched == PairIds(b, c, pairs) && s.changed == ChangesOf(b, c, pairs)
    && s.used == UsedIds(c, pairs) && s.removed == IdsAt(b, lost)
  }

  lemma HitOutputs(b: seq<Event>, c: seq<Event>, s: Progress, pairs: seq<(nat, nat)>, lost: seq<nat>, n: nat, j: nat)
    requires forall x | 0 <= x < |pairs| :: pairs[x].0 < |b| && pairs[x].1 < |c|
    requires forall x | 0 <= x < |lost| :: lost[x] < |b|
    requires OutputsOf(b, c, s, pairs, lost) && n < |b| && j < |c|
    ensures OutputsOf(b, c, Hit(s, b[n], c[j]), pairs + [(n, j)], lost)
  {
    OutputsSnoc(b, c, pairs, n, j);
  }

  function Miss(s: Progress, x: Event): Progress {
    s.(removed := s.removed + [x.eventId])
  }

  function Hit(s: Progress, x: Event, y: Event): Progress {
    Progress(s.consumed[KeyOf(x) := Consumed(s.consumed, KeyOf(x)) + 1], s.used + {y.eventId},
             s.matched + [(x.eventId, y.eventId)], s.removed,
             if x.status != y.status
             then s.changed + [EventChange(x.eventId, y.eventId, "status", StatusName(x.status), StatusName(y.status))]
             else s.changed)
  }

  lemma MissStep(b: seq<Event>, c: seq<Event>, n: nat, s: Progress, pairs: seq<(nat, nat)>, lost: seq<nat>)
    requires ProgressInv(b, c, n, s, pairs, lost) && n < |b|
    requires Consumed(s.consumed, KeyOf(b[n])) >= |Bucket(c, KeyOf(b[n]))|
    ensures ProgressInv(b, c, n + 1, Miss(s, b[n]), pairs, lost + [n])
  {
    ConsumedStep(b, c, n, s.consumed);
    CounterpartExists(b, c, n);
    PositionsSnoc(Lost(b, c), n, lost);
    PairsSkip(b, c, n, pairs);
    IdsAtSnoc(b, lost, n);
  }

  lemma HitStep(b: seq<Event>, c: seq<Event>, n: nat, s: Progress, pairs: seq<(nat, nat)>, lost: seq<nat>, y: Event)
    returns (j: nat)
    requires ProgressInv(b, c, n, s, pairs, lost) && n < |b|
    requires Consumed(s.consumed, KeyOf(b[n])) < |Bucket(c, KeyOf(b[n]))|
    requires y == Bucket(c, KeyOf(b[n]))[Consumed(s.consumed, KeyOf(b[n]))]
    ensures ProgressInv(b, c, n + 1, Hit(s, b[n], y), pairs + [(n, j)], lost)
  {
    ConsumedStep(b, c, n, s.consumed);
    j := BucketPosition(c, KeyOf(b[n]), Consumed(s.consumed, KeyOf(b[n])));
    assert Corresponds(b, c, n, j) && HasCounterpart(b, c, n);
    PositionsSnoc(Lost(b, c), n, lost);
    HitOutputs(b, c, s, pairs, lost, n, j);
    PairsSnoc(b, c, n, pairs, j);
  }

  /** The loop over the baseline: the counters choose, for each event, its
      counterpart if it has one. */
  method MatchBaseline(b: seq<Event>, c: seq<Event>, byKey: map<Key, seq<Event>>)
    returns (s: Progress, ghost pairs: seq<(nat, nat)>, ghost lost: seq<nat>)
    requires Grouped(byKey, c)
    ensures ProgressInv(b, c, |b|, s, pairs, lost)
  {
    s, pairs, lost := Progress(map[], {}, [], [], []), [], [];
    var i: nat := 0;
    while i < |b|
      invariant ProgressInv(b, c, i, s, pairs, lost)
    {
      var candidates := Candidates(byKey, KeyOf(b[i]));
      var idx := Consumed(s.consumed, KeyOf(b[i]));
      assert candidates == Bucket(c, KeyOf(b[i]));
      if idx >= |candidates| {
        MissStep(b, c, i, s, pairs, lost);
        s, lost := Miss(s, b[i]), lost + [i];
      } else {
        ghost var j := HitStep(b, c, i, s, pairs, lost, candidates[idx]);
        s, pairs := Hit(s, b[i], candidates[idx]), pairs + [(i, j)];
      }
      i := i + 1;
    }
  }

  /** The loop that collects comparison events whose id was not used. */
  method CollectAdded(c: seq<Event>, used: set<string>) returns (added: seq<string>, ghost gained: seq<nat>)
    ensures Positions(Unused(c, used), |c|, gained) && added == IdsAt(c, gained)
  {
    added, gained := [], [];
    for j := 0 to |c|
      invariant Positions(Unused(c, used), j, gained) && added == IdsAt(c, gained)
    {
      PositionsSnoc(Unused(c, used), j, gained);
      if c[j].eventId !in used {
        IdsAtSnoc(c, gained, j);
        added, gained := added + [c[j].eventId], gained + [j];
      }
    }
  }

  /** `Align`. */
  method Align(b: seq<Event>, c: seq<Event>)
    returns (r: AlignResult, ghost pairs: seq<(nat, nat)>, ghost lost: seq<nat>, ghost gained: seq<nat>)
    ensures Aligned(b, c, r, pairs, lost, gained) && AlignedAs(b, c, r)
  {
    var byKey := GroupByKey(c);
    var s, added;
    s, pairs, lost := MatchBaseline(b, c, byKey);
    added, gained := CollectAdded(c, s.used);
    r := AlignResult(s.matched, added, s.removed, s.changed);
    assert Aligned(b, c, r, pairs, lost, gained);
  }
}
