/** The first meaningful divergence between two aligned runs. */
module Divergence {
  import opened Basics
  import opened Contracts
  import opened Emission
  import opened Ordering
  import opened Alignment

  datatype FirstDivergence = FirstDivergence(baselineId: string, comparisonId: string, rule: string,
                                             baselineValue: string, comparisonValue: string,
                                             baselineIndex: nat, comparisonIndex: nat)

  /** A change whose two events were found in the timelines. */
  datatype Candidate = Candidate(change: EventChange, baselineIndex: nat, comparisonIndex: nat)

  // ----- index maps -----

  /** Where an id occurs last. */
  function LastIndex(events: seq<Event>, id: string): Option<nat> {
    if |events| == 0 then None
    else if events[|events| - 1].eventId == id then Some(|events| - 1)
    else LastIndex(events[..|events| - 1], id)
  }

  function Lookup(index: map<string, nat>, id: string): Option<nat> {
    if id in index then Some(index[id]) else None
  }

  ghost predicate Indexes(events: seq<Event>, index: map<string, nat>) {
    forall id :: Lookup(index, id) == LastIndex(events, id)
  }

  /** `indexByEventID`. */
  method IndexByEventId(events: seq<Event>) returns (index: map<string, nat>)
    ensures Indexes(events, index)
  {
    index := map[];
    var i: nat := 0;
    while i < |events|
      invariant i <= |events| && Indexes(events[..i], index)
    {
      assert events[..i + 1][..i] == events[..i];
      index := index[events[i].eventId := i];
      i := i + 1;
    }
    assert events[..|events|] == events;
  }

  ghost predicate At(s: seq<Event>, i: nat, id: string) {
    i < |s| && s[i].eventId == id
  }

  /** With distinct ids the last occurrence is the only one. */
  lemma {:induction false} LastIndexExact(s: seq<Event>, id: string, i: nat)
    requires DistinctIds(s)
    ensures LastIndex(s, id) == Some(i) <==> At(s, i, id)
    decreases |s|
  {
    if |s| > 0 {
      LastIndexExact(s[..|s| - 1], id, i);
    }
  }

  // ----- the order of candidates -----

  /** Baseline position, then comparison position, then field name. */
  predicate CandidateLess(a: Candidate, b: Candidate) {
    if a.baselineIndex != b.baselineIndex then a.baselineIndex < b.baselineIndex
    else if a.comparisonIndex != b.comparisonIndex then a.comparisonIndex < b.comparisonIndex
    else StrLess(a.change.field, b.change.field)
  }

  lemma CandidateLessStrictWeak(s: seq<Candidate>)
    ensures StrictWeak(CandidateLess, s)
  {
    forall x: Candidate, y: Candidate, z: Candidate
      ensures CandidateLess(x, y) ==> !CandidateLess(y, x)
      ensures !CandidateLess(y, x) && !CandidateLess(z, y) ==> !CandidateLess(z, x)
    {
      StrLessTotal(x.change.field, y.change.field);
      StrLessNotBack(x.change.field, y.change.field, z.change.field);
    }
  }

  /** Both events of the change are in the timelines. */
  predicate Resolves(b: seq<Event>, c: seq<Event>, ch: EventChange) {
    LastIndex(b, ch.baselineId).Some? && LastIndex(c, ch.comparisonId).Some?
  }

  function Resolved(b: seq<Event>, c: seq<Event>, ch: EventChange): Candidate
    requires Resolves(b, c, ch)
  {
    Candidate(ch, LastIndex(b, ch.baselineId).value, LastIndex(c, ch.comparisonId).value)
  }

  function Report(k: Candidate): FirstDivergence {
    FirstDivergence(k.change.baselineId, k.change.comparisonId, k.change.field,
                    k.change.baselineValue, k.change.comparisonValue, k.baselineIndex, k.comparisonIndex)
  }

  /** `k` is a resolvable change and no other resolvable change comes before it. */
  ghost predicate LeastCandidate(b: seq<Event>, c: seq<Event>, changes: seq<EventChange>, k: Candidate) {
    && k.change in changes && Resolves(b, c, k.change) && k == Resolved(b, c, k.change)
    && forall o | o in changes && Resolves(b, c, o) :: !CandidateLess(Resolved(b, c, o), k)
  }

  /** The report is the least resolvable change, or none when none resolves. */
  ghost predicate LeastDivergence(b: seq<Event>, c: seq<Event>, changes: seq<EventChange>, d: Option<FirstDivergence>) {
    match d
    case None => forall ch | ch in changes :: !Resolves(b, c, ch)
    case Some(r) => exists k :: LeastCandidate(b, c, changes, k) && r == Report(k)
  }

  ghost predicate CandidatesOf(b: seq<Event>, c: seq<Event>, changes: seq<EventChange>, s: seq<Candidate>) {
    && (forall k | k in s :: k.change in changes && Resolves(b, c, k.change) && k == Resolved(b, c, k.change))
    && (forall ch | ch in changes && Resolves(b, c, ch) :: Resolved(b, c, ch) in s)
  }

  /** The loop that keeps the changes whose events are known. */
  method Collect(b: seq<Event>, c: seq<Event>, baseIndex: map<string, nat>, compIndex: map<string, nat>,
                 changes: seq<EventChange>) returns (s: seq<Candidate>)
    requires Indexes(b, baseIndex) && Indexes(c, compIndex)
    ensures CandidatesOf(b, c, changes, s)
  {
    s := [];
    for i := 0 to |changes|
      invariant CandidatesOf(b, c, changes[..i], s)
    {
      var ch := changes[i];
      assert changes[..i + 1] == changes[..i] + [ch];
      assert Lookup(baseIndex, ch.baselineId) == LastIndex(b, ch.baselineId);
      assert Lookup(compIndex, ch.comparisonId) == LastIndex(c, ch.comparisonId);
      if ch.baselineId in baseIndex && ch.comparisonId in compIndex {
        var k := Candidate(ch, baseIndex[ch.baselineId], compIndex[ch.comparisonId]);
        assert k in s + [k];
        s := s + [k];
      }
    }
    assert changes[..|changes|] == changes;
  }

  lemma FirstIsLeast(b: seq<Event>, c: seq<Event>, changes: seq<EventChange>, s: seq<Candidate>, sorted: seq<Candidate>)
    requires CandidatesOf(b, c, changes, s) && |sorted| > 0
    requires SortedBy(CandidateLess, sorted) && forall k :: k in sorted <==> k in s
    ensures LeastCandidate(b, c, changes, sorted[0])
  {
    var first := sorted[0];
    assert first in sorted;
    StrLessTotal(first.change.field, first.change.field);
    forall o | o in changes && Resolves(b, c, o) ensures !CandidateLess(Resolved(b, c, o), first) {
      assert Resolved(b, c, o) in sorted;
    }
  }

  /** `FirstDivergenceFrom`. */
  method FirstDivergenceFrom(b: seq<Event>, c: seq<Event>, changes: seq<EventChange>) returns (d: Option<FirstDivergence>)
    ensures LeastDivergence(b, c, changes, d)
  {
    if |changes| == 0 {
      return None;
    }
    var baseIndex := IndexByEventId(b);
    var compIndex := IndexByEventId(c);
    var candidates := Collect(b, c, baseIndex, compIndex, changes);
    if |candidates| == 0 {
      return None;
    }
    var sorted := Sort(CandidateLess, candidates);
    CandidateLessStrictWeak(candidates);
    SortSorted(CandidateLess, candidates);
    FirstIsLeast(b, c, changes, candidates, sorted);
    return Some(Report(sorted[0]));
  }

  ghost predicate Before(i: nat, j: nat, field: string, d: FirstDivergence) {
    i < d.baselineIndex ||
    (i == d.baselineIndex && (j < d.comparisonIndex || (j == d.comparisonIndex && StrLess(field, d.rule))))
  }

  /** The reported divergence is the lexicographically first one: with distinct
      ids on both sides there is a report exactly when the events of some change
      are in the timelines, the report gives their positions, and no such change
      lies before it. */
  lemma DivergenceExact(b: seq<Event>, c: seq<Event>, changes: seq<EventChange>, d: Option<FirstDivergence>)
    requires DistinctIds(b) && DistinctIds(c) && LeastDivergence(b, c, changes, d)
    ensures d.None? ==> forall ch, i: nat, j: nat | ch in changes && At(b, i, ch.baselineId) :: !At(c, j, ch.comparisonId)
    ensures d.Some? ==> At(b, d.value.baselineIndex, d.value.baselineId) && At(c, d.value.comparisonIndex, d.value.comparisonId)
    ensures d.Some? ==>
              forall ch, i: nat, j: nat | ch in changes && At(b, i, ch.baselineId) && At(c, j, ch.comparisonId) ::
                !Before(i, j, ch.field, d.value)
  {
    forall ch, i: nat, j: nat | ch in changes && At(b, i, ch.baselineId) && At(c, j, ch.comparisonId)
      ensures Resolves(b, c, ch) && Resolved(b, c, ch) == Candidate(ch, i, j)
    {
      LastIndexExact(b, ch.baselineId, i);
      LastIndexExact(c, ch.comparisonId, j);
    }
    if d.Some? {
      var k :| LeastCandidate(b, c, changes, k) && d.value == Report(k);
      LastIndexExact(b, k.change.baselineId, k.baselineIndex);
      LastIndexExact(c, k.change.comparisonId, k.comparisonIndex);
    }
  }

  // ----- the System Pack's structural divergence -----

  predicate IsRemovedTimeout(e: Event, removed: set<string>) {
    e.eventType == Timeout && e.eventId in removed
  }

  predicate IsPaymentComplete(e: Event) {
    e.component == "payment" && e.eventType == Complete
  }

  const TIMEOUT_RULE := "PAYMENT_COMPLETES_BEFORE_TIMEOUT"

  /** The first position that holds such an event, or the length. */
  method Find(s: seq<Event>, p: Event -> bool) returns (i: nat)
    ensures i <= |s| && (i < |s| ==> p(s[i]))
    ensures forall j | 0 <= j < i :: !p(s[j])
  {
    i := 0;
    while i < |s| && !p(s[i])
      invariant i <= |s|
      invariant forall j | 0 <= j < i :: !p(s[j])
    {
      i := i + 1;
    }
  }

  ghost predicate FirstAt(s: seq<Event>, p: Event -> bool, i: nat) {
    i < |s| && p(s[i]) && forall j | 0 <= j < i :: !p(s[j])
  }

  /** A removed timeout, reported against the first completed payment of the
      comparison, or position 0 and no id when there is none. */
  ghost predicate StructuralDivergence(b: seq<Event>, c: seq<Event>, removed: set<string>, d: FirstDivergence) {
    && d.rule == TIMEOUT_RULE && d.baselineValue == "TIMEOUT" && d.comparisonValue == "SUCCESS"
    && FirstAt(b, e => IsRemovedTimeout(e, removed), d.baselineIndex) && d.baselineId == b[d.baselineIndex].eventId
    && (|| (FirstAt(c, IsPaymentComplete, d.comparisonIndex) && d.comparisonId == c[d.comparisonIndex].eventId)
        || ((forall e | e in c :: !IsPaymentComplete(e)) && d.comparisonIndex == 0 && d.comparisonId == ""))
  }

  /** The first removed timeout, or none when no timeout was removed. */
  ghost predicate Structural(b: seq<Event>, c: seq<Event>, removed: set<string>, d: Option<FirstDivergence>) {
    match d
    case None => forall e | e in b :: !IsRemovedTimeout(e, removed)
    case Some(v) => StructuralDivergence(b, c, removed, v)
  }

  ghost predicate SomeResolvable(b: seq<Event>, c: seq<Event>, changes: seq<EventChange>) {
    exists ch :: ch in changes && Resolves(b, c, ch)
  }

  /** The field-level divergence where some change resolves; otherwise the
      structural one. */
  ghost predicate MeaningfulDivergence(b: seq<Event>, c: seq<Event>, r: AlignResult, d: Option<FirstDivergence>) {
    if SomeResolvable(b, c, r.changed) then LeastDivergence(b, c, r.changed, d)
    else Structural(b, c, Elements(r.removed), d)
  }

  /** `firstMeaningfulDivergence`: the field-level divergence if there is one,
      else the first removed timeout, else nothing. */
  method FirstMeaningfulDivergence(b: seq<Event>, c: seq<Event>, r: AlignResult) returns (d: Option<FirstDivergence>)
    ensures MeaningfulDivergence(b, c, r, d)
  {
    d := FirstDivergenceFrom(b, c, r.changed);
    if d.Some? {
      FieldDivergence(b, c, r, d);
    } else {
      ghost var field := d;
      d := RemovedTimeout(b, c, r.removed);
      OtherDivergence(b, c, r, field, d);
    }
  }

  /** The field-level rule has precedence over the structural one. */
  lemma FieldDivergence(b: seq<Event>, c: seq<Event>, r: AlignResult, d: Option<FirstDivergence>)
    requires LeastDivergence(b, c, r.changed, d) && d.Some?
    ensures MeaningfulDivergence(b, c, r, d)
  {
    SomeResolves(b, c, r.changed, d);
  }

  lemma OtherDivergence(b: seq<Event>, c: seq<Event>, r: AlignResult, field: Option<FirstDivergence>,
                        d: Option<FirstDivergence>)
    requires LeastDivergence(b, c, r.changed, field) && field.None? && Structural(b, c, Elements(r.removed), d)
    ensures MeaningfulDivergence(b, c, r, d)
  {
  }

  /** The structural report, field by field. */
  lemma StructuralOnFields(b: seq<Event>, c: seq<Event>, removed: set<string>, d: Option<FirstDivergence>)
    requires Structural(b, c, removed, d)
    ensures d.None? <==> forall e | e in b :: e.eventType != Timeout || e.eventId !in removed
    ensures d.Some? ==>
              var v := d.value;
              && v.rule == "PAYMENT_COMPLETES_BEFORE_TIMEOUT" && v.baselineValue == "TIMEOUT" && v.comparisonValue == "SUCCESS"
              && At(b, v.baselineIndex, v.baselineId)
              && b[v.baselineIndex].eventType == Timeout && v.baselineId in removed
              && (forall i | 0 <= i < v.baselineIndex :: b[i].eventType != Timeout || b[i].eventId !in removed)
    ensures d.Some? ==>
              var v := d.value;
              if exists e :: e in c && e.component == "payment" && e.eventType == Complete
              then && At(c, v.comparisonIndex, v.comparisonId)
                   && c[v.comparisonIndex].component == "payment" && c[v.comparisonIndex].eventType == Complete
                   && (forall j | 0 <= j < v.comparisonIndex :: c[j].component != "payment" || c[j].eventType != Complete)
              else v.comparisonIndex == 0 && v.comparisonId == ""
  {
    if d.Some? {
      assert b[d.value.baselineIndex] in b && IsRemovedTimeout(b[d.value.baselineIndex], removed);
      if FirstAt(c, IsPaymentComplete, d.value.comparisonIndex) {
        assert c[d.value.comparisonIndex] in c && IsPaymentComplete(c[d.value.comparisonIndex]);
      } else {
        assert forall e | e in c :: !IsPaymentComplete(e);
      }
    } else {
      forall e | e in b ensures e.eventType != Timeout || e.eventId !in removed {
        assert !IsRemovedTimeout(e, removed);
      }
    }
  }

  lemma SomeResolves(b: seq<Event>, c: seq<Event>, changes: seq<EventChange>, d: Option<FirstDivergence>)
    requires LeastDivergence(b, c, changes, d) && d.Some?
    ensures SomeResolvable(b, c, changes)
  {
    var k :| LeastCandidate(b, c, changes, k) && d.value == Report(k);
  }

  /** The System Pack's own rule: the loop for the first removed timeout and, inside it,
      the loop for the first completed payment. */
  method RemovedTimeout(b: seq<Event>, c: seq<Event>, ids: seq<string>) returns (d: Option<FirstDivergence>)
    ensures Structural(b, c, Elements(ids), d)
  {
    d := None;
    var removed := set x | x in ids;
    assert removed == Elements(ids);
    var i := Find(b, e => IsRemovedTimeout(e, removed));
    if i == |b| {
      return;
    }
    var k := Find(c, IsPaymentComplete);
    if k < |c| {
      d := Some(FirstDivergence(b[i].eventId, c[k].eventId, TIMEOUT_RULE, "TIMEOUT", "SUCCESS", i, k));
    } else {
      d := Some(FirstDivergence(b[i].eventId, "", TIMEOUT_RULE, "TIMEOUT", "SUCCESS", i, 0));
    }
  }
}
