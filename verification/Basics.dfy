/** Shared vocabulary: options, results and store errors, byte-wise string
    order, decimal rendering, filtering, and the sorting routine behind
    `sort.Slice`. */
module Basics {

  datatype Option<+T> = None | Some(value: T)

  datatype Result<+T, +E> = Success(value: T) | Failure(error: E)

  /** How a store call fails: the record breaks its contract, or one of the
      repository's sentinel errors. */
  datatype StoreError = InvalidRecord | NotFound | Conflict | InvalidLifecycle | InternalError

  /** 1 for true. */
  function Number(b: bool): nat {
    if b then 1 else 0
  }

  // ----- strings -----

  /** Go's `<` on strings: lexicographic by character. */
  predicate StrLess(a: string, b: string) {
    |b| > 0 && (|a| == 0 || a[0] < b[0] || (a[0] == b[0] && StrLess(a[1..], b[1..])))
  }

  lemma {:induction false} StrLessTransitive(a: string, b: string, c: string)
    requires StrLess(a, b) && StrLess(b, c)
    ensures StrLess(a, c)
  {
    if |a| > 0 && a[0] == b[0] && b[0] == c[0] {
      StrLessTransitive(a[1..], b[1..], c[1..]);
    }
  }

  lemma {:induction false} StrLessTotal(a: string, b: string)
    ensures !(StrLess(a, b) && StrLess(b, a))
    ensures StrLess(a, b) || StrLess(b, a) || a == b
    ensures a == b ==> !StrLess(a, b)
  {
    if |a| > 0 && |b| > 0 && a[0] == b[0] {
      StrLessTotal(a[1..], b[1..]);
      assert a == [a[0]] + a[1..] && b == [b[0]] + b[1..];
    }
  }

  /** A common prefix does not change the order of two strings. */
  lemma {:induction false} StrLessPrefix(p: string, a: string, b: string)
    ensures StrLess(p + a, p + b) == StrLess(a, b)
  {
    if |p| == 0 {
      assert p + a == a && p + b == b;
    } else {
      assert (p + a)[1..] == p[1..] + a && (p + b)[1..] == p[1..] + b;
      StrLessPrefix(p[1..], a, b);
    }
  }

  /** `strings.TrimPrefix`. */
  function TrimPrefix(s: string, prefix: string): string {
    if prefix <= s then s[|prefix|..] else s
  }

  /** Nothing is left after `strings.TrimSpace`. */
  predicate Blank(s: string) {
    forall c | c in s :: c in " \t\n\r" || c in ['\U{000B}', '\U{000C}', '\U{0085}', '\U{00A0}']
  }

  function Digit(d: nat): char
    requires d < 10
  {
    "0123456789"[d]
  }

  /** `fmt.Sprintf("%d", n)` for a non-negative number. */
  function Decimal(n: nat): (s: string)
    ensures |s| > 0
    ensures '-' !in s
  {
    if n < 10 then [Digit(n)] else Decimal(n / 10) + [Digit(n % 10)]
  }

  lemma {:induction false} DecimalInjective(m: nat, n: nat)
    requires Decimal(m) == Decimal(n)
    ensures m == n
    decreases m
  {
    var s := Decimal(m);
    assert s[|s| - 1] == Digit(m % 10) == Digit(n % 10);
    if m >= 10 && n >= 10 {
      assert Decimal(m / 10) == s[..|s| - 1] == Decimal(n / 10);
      DecimalInjective(m / 10, n / 10);
    }
  }

  // ----- filtering -----

  function Filter<T(!new)>(p: T -> bool, s: seq<T>): (r: seq<T>)
    ensures forall x :: x in r <==> x in s && p(x)
    ensures |r| <= |s|
  {
    if |s| == 0 then [] else
    (if p(s[0]) then [s[0]] else []) + Filter(p, s[1..])
  }

  lemma {:induction false} FilterAppend<T(!new)>(p: T -> bool, a: seq<T>, b: seq<T>)
    ensures Filter(p, a + b) == Filter(p, a) + Filter(p, b)
  {
    if |a| == 0 {
      assert a + b == b;
    } else {
      assert (a + b)[1..] == a[1..] + b;
      FilterAppend(p, a[1..], b);
    }
  }

  lemma {:induction false} FilterSnoc<T(!new)>(p: T -> bool, s: seq<T>, x: T)
    ensures Filter(p, s + [x]) == Filter(p, s) + (if p(x) then [x] else [])
  {
    FilterAppend(p, s, [x]);
    assert [x][1..] == [];
  }

  lemma {:induction false} FilterMultiset<T(!new)>(p: T -> bool, s: seq<T>, x: T)
    ensures multiset(Filter(p, s))[x] == if p(x) then multiset(s)[x] else 0
  {
    if |s| > 0 {
      FilterMultiset(p, s[1..], x);
      assert s == [s[0]] + s[1..];
    }
  }

  /** Filtering a larger bag keeps at least as many elements. */
  lemma FilterMonotone<T(!new)>(p: T -> bool, a: seq<T>, b: seq<T>)
    requires multiset(a) <= multiset(b)
    ensures multiset(Filter(p, a)) <= multiset(Filter(p, b))
    ensures |Filter(p, a)| <= |Filter(p, b)|
  {
    forall x ensures multiset(Filter(p, a))[x] <= multiset(Filter(p, b))[x] {
      FilterMultiset(p, a, x);
      FilterMultiset(p, b, x);
    }
    SubsetCardinality(multiset(Filter(p, a)), multiset(Filter(p, b)));
  }

  lemma SubsetCardinality<T(!new)>(a: multiset<T>, b: multiset<T>)
    requires a <= b
    ensures |a| <= |b|
  {
    assert b == a + (b - a);
  }

  /** The values of a map that satisfy `p`. */
  function Selected<K, V>(m: map<K, V>, p: V -> bool): set<V> {
    set k | k in m && p(m[k]) :: m[k]
  }

  // ----- sorting -----

  /** No later element must come strictly before an earlier one. */
  ghost predicate SortedBy<T>(less: (T, T) -> bool, s: seq<T>) {
    forall i, j | 0 <= i < j < |s| :: !less(s[j], s[i])
  }

  /** What `sort.Slice` needs of its comparator on the elements it is given. */
  ghost predicate StrictWeak<T>(less: (T, T) -> bool, s: seq<T>) {
    && (forall x, y | x in s && y in s :: less(x, y) ==> !less(y, x))
    && (forall x, y, z | x in s && y in s && z in s :: !less(y, x) && !less(z, y) ==> !less(z, x))
  }

  /** Distinct elements are always comparable. */
  ghost predicate Discriminates<T>(less: (T, T) -> bool, s: seq<T>) {
    forall x, y | x in s && y in s && x != y :: less(x, y) || less(y, x)
  }

  function Insert<T>(less: (T, T) -> bool, x: T, s: seq<T>): (r: seq<T>)
    ensures multiset(r) == multiset([x] + s)
    ensures |r| == |s| + 1
  {
    if |s| == 0 then [x]
    else if less(s[0], x) then
      assert s == [s[0]] + s[1..];
      [s[0]] + Insert(less, x, s[1..])
    else [x] + s
  }

  /** `sort.Slice` and `sort.SliceStable`: the stable sorted rearrangement. */
  function Sort<T(!new)>(less: (T, T) -> bool, s: seq<T>): (r: seq<T>)
    ensures multiset(r) == multiset(s)
    ensures |r| == |s|
    ensures forall x :: x in r <==> x in s
  {
    if |s| == 0 then [] else
    var r := Insert(less, s[0], Sort(less, s[1..]));
    assert s == [s[0]] + s[1..];
    assert forall x :: x in r <==> x in multiset(r);
    assert forall x :: x in s <==> x in multiset(s);
    r
  }

  lemma {:induction false} InsertSorted<T(!new)>(less: (T, T) -> bool, x: T, s: seq<T>)
    requires StrictWeak(less, [x] + s) && SortedBy(less, s)
    ensures SortedBy(less, Insert(less, x, s))
  {
    if |s| > 0 && less(s[0], x) {
      InsertSorted(less, x, s[1..]);
      var t := Insert(less, x, s[1..]);
      forall y | y in t ensures !less(y, s[0]) {
        assert y in multiset(t) && multiset(t) == multiset([x] + s[1..]);
        assert y in [x] + s[1..];
      }
    } else if |s| > 0 {
      forall y | y in s ensures !less(y, x) {
        assert !less(y, s[0]) && !less(s[0], x);
        assert x in [x] + s && y in [x] + s && s[0] in [x] + s;
      }
    }
  }

  lemma {:induction false} SortSorted<T(!new)>(less: (T, T) -> bool, s: seq<T>)
    requires StrictWeak(less, s)
    ensures SortedBy(less, Sort(less, s))
  {
    if |s| > 0 {
      SortSorted(less, s[1..]);
      InsertSorted(less, s[0], Sort(less, s[1..]));
    }
  }

  /** The least element comes first in every sorted rearrangement. */
  lemma SortedHead<T(!new)>(less: (T, T) -> bool, a: seq<T>, b: seq<T>)
    requires |a| > 0 && multiset(a) == multiset(b)
    requires SortedBy(less, a) && SortedBy(less, b)
    requires Discriminates(less, a)
    ensures |b| == |a| && b[0] == a[0]
  {
    assert |multiset(b)| == |multiset(a)|;
    assert a[0] in multiset(b) && b[0] in multiset(a);
    var i :| 0 <= i < |b| && b[i] == a[0];
    var j :| 0 <= j < |a| && a[j] == b[0];
    if i > 0 && j > 0 {
      assert !less(b[i], b[0]) && !less(a[j], a[0]);
      assert a[0] in a && a[j] in a;
    }
  }

  lemma TailMultiset<T>(s: seq<T>)
    requires |s| > 0
    ensures multiset(s[1..]) == multiset(s) - multiset{s[0]}
  {
    assert s == [s[0]] + s[1..];
  }

  /** A sorted rearrangement under a discriminating order is the only one. */
  lemma {:induction false} SortedUnique<T(!new)>(less: (T, T) -> bool, a: seq<T>, b: seq<T>)
    requires multiset(a) == multiset(b)
    requires SortedBy(less, a) && SortedBy(less, b)
    requires Discriminates(less, a)
    ensures a == b
  {
    if |a| == 0 {
      assert |multiset(b)| == |multiset(a)|;
    } else {
      SortedHead(less, a, b);
      TailMultiset(a);
      TailMultiset(b);
      SortedUnique(less, a[1..], b[1..]);
      assert a == [a[0]] + a[1..] && b == [b[0]] + b[1..];
    }
  }

  /** Sorting what is already sorted changes nothing. */
  lemma {:induction false} SortIdentity<T(!new)>(less: (T, T) -> bool, s: seq<T>)
    requires SortedBy(less, s)
    ensures Sort(less, s) == s
  {
    if |s| > 0 {
      SortIdentity(less, s[1..]);
    }
  }

  function UpTo(n: nat): (s: set<nat>)
    ensures forall i: nat :: i in s <==> i < n
    ensures |s| == n
  {
    if n == 0 then {} else UpTo(n - 1) + {n - 1}
  }

  lemma SubsetSize<T>(a: set<T>, b: set<T>)
    requires a <= b
    ensures |a| <= |b|
  {
    assert b == a + (b - a);
  }

  /** Pigeonhole: n distinct numbers below n are all of them. */
  lemma Pigeonhole(s: set<nat>, n: nat)
    requires |s| == n && forall i | i in s :: i < n
    ensures s == UpTo(n)
  {
    forall i | i in UpTo(n) ensures i in s {
      if i !in s {
        SubsetSize(s, UpTo(n) - {i});
      }
    }
  }
}
