/** What an alignment guarantees: a partition of both sides, a converse, an
    identity, the largest possible key-respecting matching, and conservation of
    committed effects. */
module AlignmentLaws {
  import opened Basics
  import opened Contracts
  import opened CycleCheck
  import opened Emission
  import opened Ordering
  import opened Oracle
  import opened Alignment
  import opened Diffs

  /** The correspondence as a set of index pairs. */
  ghost function Pairing(b: seq<Event>, c: seq<Event>): set<(nat, nat)> {
    set i: nat, j: nat | i < |b| && j < |c| && Corresponds(b, c, i, j) :: (i, j)
  }

  ghost function LostSet(b: seq<Event>, c: seq<Event>): set<nat> {
    set i: nat | i < |b| && !HasCounterpart(b, c, i)
  }

  /** Comparison positions that no baseline event corresponds to. */
  ghost function GainedSet(b: seq<Event>, c: seq<Event>): set<nat> {
    set j: nat | j < |c| && !HasCounterpart(c, b, j)
  }

  /** The correspondence does not care which side is called the baseline. */
  lemma ConverseMatching(b: seq<Event>, c: seq<Event>)
    ensures forall i: nat, j: nat :: (i, j) in Pairing(b, c) <==> (j, i) in Pairing(c, b)
    ensures LostSet(b, c) == GainedSet(c, b)
  {
    forall i: nat, j: nat ensures Corresponds(b, c, i, j) <==> Corresponds(c, b, j, i) {
    }
  }

  lemma PairsArePairing(b: seq<Event>, c: seq<Event>, pairs: seq<(nat, nat)>)
    requires PairsUpTo(b, c, |b|, pairs)
    ensures Distinct(pairs) && forall p :: p in pairs <==> p in Pairing(b, c)
  {
    forall p | p in Pairing(b, c) ensures p in pairs {
      assert Corresponds(b, c, p.0, p.1);
    }
  }

  /** With distinct comparison ids the unused comparison events are exactly the
      ones without a counterpart. */
  lemma GainedExact(b: seq<Event>, c: seq<Event>, pairs: seq<(nat, nat)>, j: nat)
    requires PairsUpTo(b, c, |b|, pairs) && DistinctIds(c) && j < |c|
    ensures c[j].eventId !in UsedIds(c, pairs) <==> j in GainedSet(b, c)
  {
    if c[j].eventId in UsedIds(c, pairs) {
      var x :| 0 <= x < |pairs| && c[pairs[x].1].eventId == c[j].eventId;
      assert pairs[x].1 == j;
      assert Corresponds(c, b, j, pairs[x].0);
    }
    if HasCounterpart(c, b, j) {
      var i: nat :| Corresponds(c, b, j, i);
      assert Corresponds(b, c, i, j);
      var x :| 0 <= x < |pairs| && pairs[x] == (i, j);
      assert c[pairs[x].1].eventId in UsedIds(c, pairs);
    }
  }

  lemma PositionsAsSet(p: nat -> bool, n: nat, at: seq<nat>)
    requires Positions(p, n, at)
    ensures Distinct(at) && forall i: nat :: i in at <==> i < n && p(i)
  {
  }

  /** Matched and removed positions partition the baseline, matched and added
      positions the comparison. */
  lemma Partition(b: seq<Event>, c: seq<Event>, r: AlignResult,
                  pairs: seq<(nat, nat)>, lost: seq<nat>, gained: seq<nat>)
    requires Aligned(b, c, r, pairs, lost, gained) && DistinctIds(c)
    ensures Elements(lost) == LostSet(b, c) && Elements(gained) == GainedSet(b, c)
    ensures |r.matched| + |r.removed| == |b| && |r.matched| + |r.added| == |c|
    ensures forall i: nat | i < |b| :: i in lost <==> !exists j: nat :: (i, j) in pairs
    ensures forall j: nat | j < |c| :: j in gained <==> !exists i: nat :: (i, j) in pairs
  {
    PositionsAsSet(Lost(b, c), |b|, lost);
    PositionsAsSet(Unused(c, UsedIds(c, pairs)), |c|, gained);
    PairsArePairing(b, c, pairs);
    forall j: nat | j < |c| ensures j in gained <==> j in GainedSet(b, c) {
      GainedExact(b, c, pairs, j);
    }
    forall i: nat | i < |b| ensures i in lost <==> !exists j: nat :: (i, j) in pairs {
      LostIsUnpaired(b, c, pairs, i);
    }
    forall j: nat | j < |c| ensures j in gained <==> !exists i: nat :: (i, j) in pairs {
      GainedIsUnpaired(b, c, pairs, j);
    }
    assert Elements(lost) == LostSet(b, c) && Elements(gained) == GainedSet(b, c);
    PartitionCounts(b, c, pairs, lost, gained);
  }

  lemma LostIsUnpaired(b: seq<Event>, c: seq<Event>, pairs: seq<(nat, nat)>, i: nat)
    requires PairsUpTo(b, c, |b|, pairs) && i < |b|
    ensures HasCounterpart(b, c, i) <==> exists j: nat :: (i, j) in pairs
  {
    PairsArePairing(b, c, pairs);
    if j: nat :| Corresponds(b, c, i, j) {
      assert (i, j) in pairs;
    }
    if j: nat :| (i, j) in pairs {
      assert (i, j) in Pairing(b, c);
    }
  }

  lemma GainedIsUnpaired(b: seq<Event>, c: seq<Event>, pairs: seq<(nat, nat)>, j: nat)
    requires PairsUpTo(b, c, |b|, pairs) && j < |c|
    ensures j in GainedSet(b, c) <==> !exists i: nat :: (i, j) in pairs
  {
    PairsArePairing(b, c, pairs);
    if i: nat :| Corresponds(c, b, j, i) {
      assert Corresponds(b, c, i, j);
      assert (i, j) in pairs;
    }
    if i: nat :| (i, j) in pairs {
      assert (i, j) in Pairing(b, c);
      assert Corresponds(c, b, j, i);
    }
  }

  // ----- counting through projections -----

  ghost predicate OneToOne(r: set<(nat, nat)>) {
    forall p, q | p in r && q in r :: p.0 == q.0 <==> p.1 == q.1
  }

  ghost function First(r: set<(nat, nat)>): set<nat> {
    set p | p in r :: p.0
  }

  ghost function Second(r: set<(nat, nat)>): set<nat> {
    set p | p in r :: p.1
  }

  /** A one-to-one relation is as large as either projection. */
  lemma {:induction false} ProjectionSize(r: set<(nat, nat)>)
    requires OneToOne(r)
    ensures |First(r)| == |r| == |Second(r)|
    decreases |r|
  {
    if r != {} {
      var p :| p in r;
      var rest := r - {p};
      ProjectionSize(rest);
      assert First(r) == First(rest) + {p.0} && p.0 !in First(rest);
      assert Second(r) == Second(rest) + {p.1} && p.1 !in Second(rest);
    }
  }

  lemma MatchingOneToOne(b: seq<Event>, c: seq<Event>)
    ensures OneToOne(Pairing(b, c))
  {
    forall p, q | p in Pairing(b, c) && q in Pairing(b, c) ensures p.0 == q.0 <==> p.1 == q.1 {
      CorrespondsOneToOne(b, c, p.0, p.1, q.0, q.1);
    }
  }

  lemma BaselineSplit(b: seq<Event>, c: seq<Event>)
    ensures UpTo(|b|) == First(Pairing(b, c)) + LostSet(b, c) && First(Pairing(b, c)) !! LostSet(b, c)
  {
    forall i: nat | i < |b| ensures i in First(Pairing(b, c)) <==> HasCounterpart(b, c, i) {
      if j: nat :| Corresponds(b, c, i, j) {
        assert (i, j) in Pairing(b, c);
      }
    }
  }

  /** The comparison side by way of the converse. */
  lemma SidesSplit(b: seq<Event>, c: seq<Event>)
    ensures UpTo(|b|) == First(Pairing(b, c)) + LostSet(b, c) && First(Pairing(b, c)) !! LostSet(b, c)
    ensures UpTo(|c|) == Second(Pairing(b, c)) + GainedSet(b, c) && Second(Pairing(b, c)) !! GainedSet(b, c)
  {
    BaselineSplit(b, c);
    BaselineSplit(c, b);
    ConverseMatching(b, c);
    ConverseMatching(c, b);
    SwapSides(Pairing(c, b), Pairing(b, c));
  }

  lemma SwapSides(r: set<(nat, nat)>, s: set<(nat, nat)>)
    requires forall i: nat, j: nat :: (i, j) in r <==> (j, i) in s
    ensures First(r) == Second(s)
  {
    forall i | i in First(r) ensures i in Second(s) {
      var p :| p in r && p.0 == i;
      assert (p.0, p.1) in r;
      assert (p.1, p.0) in s;
    }
    forall i | i in Second(s) ensures i in First(r) {
      var p :| p in s && p.1 == i;
      assert (p.0, p.1) in s;
      assert (p.1, p.0) in r;
    }
  }

  lemma PartitionCounts(b: seq<Event>, c: seq<Event>, pairs: seq<(nat, nat)>, lost: seq<nat>, gained: seq<nat>)
    requires PairsUpTo(b, c, |b|, pairs) && Distinct(lost) && Distinct(gained)
    requires Elements(lost) == LostSet(b, c) && Elements(gained) == GainedSet(b, c)
    ensures |pairs| + |lost| == |b| && |pairs| + |gained| == |c|
  {
    PairsArePairing(b, c, pairs);
    DistinctSize(pairs);
    DistinctSize(lost);
    DistinctSize(gained);
    assert Elements(pairs) == Pairing(b, c);
    MatchingOneToOne(b, c);
    ProjectionSize(Pairing(b, c));
    SidesSplit(b, c);
  }

  // ----- identity -----

  /** A stream corresponds to itself position by position. */
  lemma IdentityMatching(b: seq<Event>)
    ensures Pairing(b, b) == set i: nat | i < |b| :: (i, i)
    ensures LostSet(b, b) == {} && GainedSet(b, b) == {}
  {
    forall i: nat, j: nat | i < |b| && j < |b| ensures Corresponds(b, b, i, j) <==> i == j {
      if Corresponds(b, b, i, j) {
        if i < j { OccurrenceInjective(b, i, j); }
        if j < i { OccurrenceInjective(b, j, i); }
      }
    }
    forall i: nat | i < |b| ensures HasCounterpart(b, b, i) {
      assert Corresponds(b, b, i, i);
    }
  }

  /** Aligning a stream with itself reports no difference at all. */
  lemma {:induction false} SelfAlignment(b: seq<Event>, r: AlignResult,
                                         pairs: seq<(nat, nat)>, lost: seq<nat>, gained: seq<nat>)
    requires Aligned(b, b, r, pairs, lost, gained) && DistinctIds(b)
    ensures r.added == [] && r.removed == [] && r.changed == []
    ensures |r.matched| == |b| && forall i | 0 <= i < |b| :: r.matched[i] == (b[i].eventId, b[i].eventId)
  {
    NothingMoves(b, r, pairs, lost, gained);
    SelfPairs(b, pairs);
    NoSelfChange(b, pairs);
    DiagonalInOrder(b, pairs);
    forall i | 0 <= i < |b| ensures r.matched[i] == (b[i].eventId, b[i].eventId) {
      assert pairs[i] == (i, i);
    }
  }

  lemma NothingMoves(b: seq<Event>, r: AlignResult, pairs: seq<(nat, nat)>, lost: seq<nat>, gained: seq<nat>)
    requires Aligned(b, b, r, pairs, lost, gained) && DistinctIds(b)
    ensures lost == [] && gained == [] && |pairs| == |b|
  {
    IdentityMatching(b);
    Partition(b, b, r, pairs, lost, gained);
    NoPositions(Lost(b, b), |b|, lost);
    NoPositions(Unused(b, UsedIds(b, pairs)), |b|, gained);
    assert |r.matched| == |pairs|;
  }

  lemma SelfPairs(b: seq<Event>, pairs: seq<(nat, nat)>)
    requires PairsUpTo(b, b, |b|, pairs)
    ensures forall x | 0 <= x < |pairs| :: pairs[x].0 == pairs[x].1 < |b|
  {
    IdentityMatching(b);
    PairsArePairing(b, b, pairs);
    forall x | 0 <= x < |pairs| ensures pairs[x].0 == pairs[x].1 < |b| {
      assert pairs[x] in Pairing(b, b);
    }
  }

  lemma NoPositions(p: nat -> bool, n: nat, at: seq<nat>)
    requires Positions(p, n, at) && Elements(at) == {}
    ensures at == []
  {
    PositionsAsSet(p, n, at);
    DistinctSize(at);
  }

  lemma {:induction false} NoSelfChange(b: seq<Event>, pairs: seq<(nat, nat)>)
    requires forall x | 0 <= x < |pairs| :: pairs[x].0 == pairs[x].1 < |b|
    ensures ChangesOf(b, b, pairs) == []
    decreases |pairs|
  {
    if |pairs| > 0 {
      NoSelfChange(b, pairs[..|pairs| - 1]);
    }
  }

  lemma {:induction false} DiagonalInOrder(b: seq<Event>, pairs: seq<(nat, nat)>)
    requires |pairs| == |b| && forall x | 0 <= x < |pairs| :: pairs[x].0 == pairs[x].1 < |b|
    requires forall x, y | 0 <= x < y < |pairs| :: pairs[x].0 < pairs[y].0
    ensures forall x | 0 <= x < |pairs| :: pairs[x] == (x, x)
  {
    var x := 0;
    while x < |pairs|
      invariant 0 <= x <= |pairs|
      invariant forall y | 0 <= y < x :: pairs[y].0 >= y
    {
      assert x > 0 ==> pairs[x - 1].0 < pairs[x].0;
      x := x + 1;
    }
    var z := |pairs|;
    while z > 0
      invariant 0 <= z <= |pairs|
      invariant forall y | z <= y < |pairs| :: pairs[y].0 <= y
    {
      z := z - 1;
      assert z + 1 < |pairs| ==> pairs[z].0 < pairs[z + 1].0;
    }
  }

  /** Swapping baseline and comparison swaps the reported sides. */
  lemma ConverseAlignment(b: seq<Event>, c: seq<Event>,
                          r: AlignResult, pairs: seq<(nat, nat)>, lost: seq<nat>, gained: seq<nat>,
                          r': AlignResult, pairs': seq<(nat, nat)>, lost': seq<nat>, gained': seq<nat>)
    requires DistinctIds(b) && DistinctIds(c)
    requires Aligned(b, c, r, pairs, lost, gained) && Aligned(c, b, r', pairs', lost', gained')
    ensures r'.added == r.removed && r'.removed == r.added
    ensures forall x, y :: (x, y) in r'.matched <==> (y, x) in r.matched
  {
    Partition(b, c, r, pairs, lost, gained);
    Partition(c, b, r', pairs', lost', gained');
    ConverseMatching(b, c);
    ConverseMatching(c, b);
    SamePositions(lost, gained');
    SamePositions(gained, lost');
    ConverseIds(b, c, pairs, pairs');
    ConverseIds(c, b, pairs', pairs);
  }

  /** Two increasing lists of the same positions are the same list. */
  lemma SamePositions(a: seq<nat>, b: seq<nat>)
    requires Ascending(a) && Ascending(b) && Elements(a) == Elements(b)
    ensures a == b
  {
    var less := (x: nat, y: nat) => x < y;
    AscendingDistinct(a);
    AscendingDistinct(b);
    ListsItself(a);
    ListsItself(b);
    EnumerationsAgree(a, b, Elements(a));
    SortedUnique(less, a, b);
  }

  ghost predicate Ascending(s: seq<nat>) {
    forall x, y | 0 <= x < y < |s| :: s[x] < s[y]
  }

  lemma AscendingDistinct(s: seq<nat>)
    requires Ascending(s)
    ensures Distinct(s)
  {
  }

  lemma ListsItself<T(!new)>(s: seq<T>)
    requires Distinct(s)
    ensures Enumerates(s, Elements(s))
  {
    assert forall x :: x in s <==> x in Elements(s);
  }

  /** The alignment is determined by the two streams. */
  lemma AlignmentDetermined(b: seq<Event>, c: seq<Event>,
                            r: AlignResult, pairs: seq<(nat, nat)>, lost: seq<nat>, gained: seq<nat>,
                            r': AlignResult, pairs': seq<(nat, nat)>, lost': seq<nat>, gained': seq<nat>)
    requires Aligned(b, c, r, pairs, lost, gained) && Aligned(b, c, r', pairs', lost', gained')
    ensures r == r'
  {
    SamePairs(b, c, pairs, pairs');
    SameSelection(Lost(b, c), |b|, lost, lost');
    SameSelection(Unused(c, UsedIds(c, pairs)), |c|, gained, gained');
  }

  lemma SamePairs(b: seq<Event>, c: seq<Event>, pairs: seq<(nat, nat)>, pairs': seq<(nat, nat)>)
    requires PairsUpTo(b, c, |b|, pairs) && PairsUpTo(b, c, |b|, pairs')
    ensures pairs == pairs'
  {
    PairsArePairing(b, c, pairs);
    PairsArePairing(b, c, pairs');
    EnumerationsAgree(pairs, pairs', Pairing(b, c));
    var less := (p: (nat, nat), q: (nat, nat)) => p.0 < q.0;
    forall p, q | p in pairs && q in pairs && p != q ensures less(p, q) || less(q, p) {
      CorrespondsOneToOne(b, c, p.0, p.1, q.0, q.1);
    }
    SortedUnique(less, pairs, pairs');
  }

  lemma SameSelection(p: nat -> bool, n: nat, at: seq<nat>, at': seq<nat>)
    requires Positions(p, n, at) && Positions(p, n, at')
    ensures at == at'
  {
    PositionsAsSet(p, n, at);
    PositionsAsSet(p, n, at');
    assert Elements(at) == Elements(at');
    SamePositions(at, at');
  }

  lemma ConverseIds(b: seq<Event>, c: seq<Event>, pairs: seq<(nat, nat)>, pairs': seq<(nat, nat)>)
    requires PairsUpTo(b, c, |b|, pairs) && PairsUpTo(c, b, |c|, pairs')
    ensures forall x, y | (x, y) in PairIds(b, c, pairs) :: (y, x) in PairIds(c, b, pairs')
  {
    forall x, y | (x, y) in PairIds(b, c, pairs) ensures (y, x) in PairIds(c, b, pairs') {
      var n :| 0 <= n < |pairs| && PairIds(b, c, pairs)[n] == (x, y);
      var (i, j) := pairs[n];
      assert Corresponds(c, b, j, i);
      var m :| 0 <= m < |pairs'| && pairs'[m] == (j, i);
      assert PairIds(c, b, pairs')[m] == (y, x);
    }
  }

  // ----- the matching is as large as possible -----

  /** A relation that only joins events with the same key. */
  ghost predicate RespectsKeys(b: seq<Event>, c: seq<Event>, r: set<(nat, nat)>) {
    forall p | p in r :: p.0 < |b| && p.1 < |c| && KeyOf(b[p.0]) == KeyOf(c[p.1])
  }

  ghost function WithKey(b: seq<Event>, r: set<(nat, nat)>, k: Key): set<(nat, nat)>
    requires forall p | p in r :: p.0 < |b|
  {
    set p | p in r && KeyOf(b[p.0]) == k
  }

  ghost function PositionsOf(s: seq<Event>, k: Key): set<nat> {
    set i: nat | i < |s| && KeyOf(s[i]) == k
  }

  /** Where the key is no rarer on the comparison side, every baseline
      occurrence is matched. */
  lemma BaselineCovered(b: seq<Event>, c: seq<Event>, k: Key)
    requires |Bucket(b, k)| <= |Bucket(c, k)|
    ensures PositionsOf(b, k) <= First(WithKey(b, Pairing(b, c), k))
  {
    forall i | i in PositionsOf(b, k) ensures i in First(WithKey(b, Pairing(b, c), k)) {
      OccurrenceBelow(b, i);
      CounterpartExists(b, c, i);
      var j: nat :| Corresponds(b, c, i, j);
      assert (i, j) in WithKey(b, Pairing(b, c), k);
    }
  }

  lemma ComparisonCovered(b: seq<Event>, c: seq<Event>, k: Key)
    requires |Bucket(b, k)| > |Bucket(c, k)|
    ensures PositionsOf(c, k) <= Second(WithKey(b, Pairing(b, c), k))
  {
    forall j | j in PositionsOf(c, k) ensures j in Second(WithKey(b, Pairing(b, c), k)) {
      OccurrenceBelow(c, j);
      CounterpartExists(c, b, j);
      var i: nat :| Corresponds(c, b, j, i);
      assert Corresponds(b, c, i, j);
      assert (i, j) in WithKey(b, Pairing(b, c), k);
    }
  }

  /** For one key the correspondence exhausts the side with fewer occurrences. */
  lemma LargestPerKey(b: seq<Event>, c: seq<Event>, r: set<(nat, nat)>, k: Key)
    requires RespectsKeys(b, c, r) && OneToOne(r)
    ensures |WithKey(b, r, k)| <= |WithKey(b, Pairing(b, c), k)|
  {
    var rk, mk := WithKey(b, r, k), WithKey(b, Pairing(b, c), k);
    MatchingOneToOne(b, c);
    ProjectionSize(rk);
    ProjectionSize(mk);
    if |Bucket(b, k)| <= |Bucket(c, k)| {
      BaselineCovered(b, c, k);
      SubsetSize(First(rk), First(mk));
    } else {
      ComparisonCovered(b, c, k);
      SubsetSize(Second(rk), Second(mk));
    }
  }

  lemma {:induction false} KeyByKey(b: seq<Event>, r: set<(nat, nat)>, m: set<(nat, nat)>, keys: set<Key>)
    requires forall p | p in r + m :: p.0 < |b|
    requires forall p | p in r :: KeyOf(b[p.0]) in keys
    requires forall k | k in keys :: |WithKey(b, r, k)| <= |WithKey(b, m, k)|
    ensures |r| <= |m|
    decreases keys
  {
    if keys == {} {
      assert r == {};
    } else {
      var k :| k in keys;
      var r', m' := r - WithKey(b, r, k), m - WithKey(b, m, k);
      forall h | h in keys - {k} ensures |WithKey(b, r', h)| <= |WithKey(b, m', h)| {
        OtherKey(b, r, k, h);
        OtherKey(b, m, k, h);
      }
      KeyByKey(b, r', m', keys - {k});
      WithoutKey(b, r, k);
      WithoutKey(b, m, k);
    }
  }

  lemma OtherKey(b: seq<Event>, r: set<(nat, nat)>, k: Key, h: Key)
    requires (forall p | p in r :: p.0 < |b|) && h != k
    ensures WithKey(b, r - WithKey(b, r, k), h) == WithKey(b, r, h)
  {
  }

  lemma WithoutKey(b: seq<Event>, r: set<(nat, nat)>, k: Key)
    requires forall p | p in r :: p.0 < |b|
    ensures |r| == |r - WithKey(b, r, k)| + |WithKey(b, r, k)|
  {
    assert r == (r - WithKey(b, r, k)) + WithKey(b, r, k);
  }

  /** No one-to-one relation between events with equal keys has more pairs than
      the alignment. */
  lemma MaximumMatching(b: seq<Event>, c: seq<Event>, pairs: seq<(nat, nat)>, r: set<(nat, nat)>)
    requires PairsUpTo(b, c, |b|, pairs)
    requires RespectsKeys(b, c, r) && OneToOne(r)
    ensures |r| <= |pairs|
  {
    PairsArePairing(b, c, pairs);
    DistinctSize(pairs);
    assert Elements(pairs) == Pairing(b, c);
    var keys := set p | p in r :: KeyOf(b[p.0]);
    forall k | k in keys ensures |WithKey(b, r, k)| <= |WithKey(b, Pairing(b, c), k)| {
      LargestPerKey(b, c, r, k);
    }
    KeyByKey(b, r, Pairing(b, c), keys);
  }

  // ----- conservation of committed effects -----

  /** The positions in `at` that hold a committed effect. */
  ghost function CommittedAt(s: seq<Event>, at: set<nat>): set<nat> {
    set i | i in at && i < |s| && s[i].Committed()
  }

  lemma CommittedGrows(s: seq<Event>, at: set<nat>, n: nat)
    requires n < |s| && n !in at
    ensures |CommittedAt(s, at + {n})| == |CommittedAt(s, at)| + (if s[n].Committed() then 1 else 0)
  {
    assert CommittedAt(s, at + {n}) == CommittedAt(s, at) + (if s[n].Committed() then {n} else {});
  }

  lemma CommitsNext(s: seq<Event>, n: nat)
    requires n < |s|
    ensures |Commits(s[..n + 1])| == |Commits(s[..n])| + (if s[n].Committed() then 1 else 0)
  {
    assert s[..n + 1] == s[..n] + [s[n]];
    FilterSnoc(IsCommitted(), s[..n], s[n]);
  }

  lemma UpToNext(n: nat)
    ensures UpTo(n + 1) == UpTo(n) + {n}
  {
  }

  lemma CommitsByPosition(s: seq<Event>)
    ensures |Commits(s)| == |CommittedAt(s, UpTo(|s|))|
  {
    var n: nat := 0;
    assert CommittedAt(s, UpTo(0)) == {};
    while n < |s|
      invariant n <= |s| && |Commits(s[..n])| == |CommittedAt(s, UpTo(n))|
    {
      CommitsNext(s, n);
      UpToNext(n);
      CommittedGrows(s, UpTo(n), n);
      n := n + 1;
    }
    assert s[..|s|] == s;
  }

  lemma CommitsSplit(s: seq<Event>, at: set<nat>, rest: set<nat>)
    requires UpTo(|s|) == at + rest && at !! rest
    ensures (forall i | i in at :: i < |s|) && forall i | i in rest :: i < |s|
    ensures |Commits(s)| == |CommittedAt(s, at)| + |CommittedAt(s, rest)|
  {
    forall i | i in at + rest ensures i < |s| {
      assert i in UpTo(|s|);
    }
    CommitsByPosition(s);
    assert CommittedAt(s, UpTo(|s|)) == CommittedAt(s, at) + CommittedAt(s, rest);
  }

  /** How many pairs have a committed effect on the baseline or the comparison
      side. */
  ghost function CommittedPairs(s: seq<Event>, r: set<(nat, nat)>, first: bool): set<(nat, nat)>
    requires forall p | p in r :: if first then p.0 < |s| else p.1 < |s|
  {
    set p | p in r && s[if first then p.0 else p.1].Committed()
  }

  lemma CommittedPairsFirst(s: seq<Event>, r: set<(nat, nat)>)
    requires OneToOne(r) && forall p | p in r :: p.0 < |s|
    ensures |CommittedPairs(s, r, true)| == |CommittedAt(s, First(r))|
  {
    ProjectionSize(CommittedPairs(s, r, true));
    assert CommittedAt(s, First(r)) == First(CommittedPairs(s, r, true));
  }

  lemma CommittedPairsSecond(s: seq<Event>, r: set<(nat, nat)>)
    requires OneToOne(r) && forall p | p in r :: p.1 < |s|
    ensures |CommittedPairs(s, r, false)| == |CommittedAt(s, Second(r))|
  {
    ProjectionSize(CommittedPairs(s, r, false));
    assert CommittedAt(s, Second(r)) == Second(CommittedPairs(s, r, false));
  }

  /** The change in committed effects between two streams is what the added
      events commit, minus what the removed ones did, plus the net change over
      the matched pairs. */
  lemma CommitConservation(b: seq<Event>, c: seq<Event>)
    ensures |Commits(c)| - |Commits(b)| ==
            |CommittedAt(c, GainedSet(b, c))| - |CommittedAt(b, LostSet(b, c))| +
            |CommittedPairs(c, Pairing(b, c), false)| - |CommittedPairs(b, Pairing(b, c), true)|
  {
    SidesSplit(b, c);
    MatchingOneToOne(b, c);
    CommitsSplit(b, First(Pairing(b, c)), LostSet(b, c));
    CommitsSplit(c, Second(Pairing(b, c)), GainedSet(b, c));
    CommittedPairsFirst(b, Pairing(b, c));
    CommittedPairsSecond(c, Pairing(b, c));
  }

  /** The same law for the oracle's own counts: on streams over one logical
      operation the reported ledger-commit delta is accounted for completely by
      the alignment. */
  lemma LedgerDeltaConservation(b: seq<Event>, c: seq<Event>, opB: string, opC: string, rb: OracleResult, rc: OracleResult)
    requires LogicalIds(b) == {opB} && LogicalIds(c) == {opC}
    requires Judges(Group(b, opB), rb) && Judges(Group(c, opC), rc)
    ensures rc.effects.ledgerCommits - rb.effects.ledgerCommits ==
            |CommittedAt(c, GainedSet(b, c))| - |CommittedAt(b, LostSet(b, c))| +
            |CommittedPairs(c, Pairing(b, c), false)| - |CommittedPairs(b, Pairing(b, c), true)|
  {
    OneGroup(b, opB);
    OneGroup(c, opC);
    CommitConservation(b, c);
  }

  /** So a valid diff's ledger-commit delta is accounted for completely by the
      alignment of the streams its verdicts are about. */
  lemma DeltaConservation(b: seq<Event>, c: seq<Event>, opB: string, opC: string, d: ReplayDiff)
    requires LogicalIds(b) == {opB} && LogicalIds(c) == {opC} && d.Valid()
    requires Judges(Group(b, opB), d.baselineVerdict) && Judges(Group(c, opC), d.comparisonVerdict)
    ensures d.delta.ledgerCommits ==
            |CommittedAt(c, GainedSet(b, c))| - |CommittedAt(b, LostSet(b, c))| +
            |CommittedPairs(c, Pairing(b, c), false)| - |CommittedPairs(b, Pairing(b, c), true)|
  {
    ValidDelta(d);
    LedgerDeltaConservation(b, c, opB, opC, d.baselineVerdict, d.comparisonVerdict);
  }

  lemma OneGroup(s: seq<Event>, op: string)
    requires LogicalIds(s) == {op}
    ensures Group(s, op) == s
  {
    forall e | e in s ensures e.logicalOp == op {
      assert e.logicalOp in LogicalIds(s);
    }
    FilterAll(OfOperation(op), s);
  }
}
