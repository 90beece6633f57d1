/**
 The few Kotlin standard-library operations the band resolver is built from:
 `filter`, `distinctBy`, `minOf`, `maxOf` over a list, and the `rem` operator on `Int`.
 */
module Collections {

  /** Index `i` holds the first element of `s` that satisfies `p`. */
  predicate FirstWhere<T>(s: seq<T>, p: T -> bool, i: int) {
    0 <= i < |s| && p(s[i]) && forall j :: 0 <= j < i ==> !p(s[j])
  }

  /** `filter { p(it) }`: the elements satisfying `p`, in their original order. */
  function Filter<T(!new)>(s: seq<T>, p: T -> bool): (r: seq<T>)
    ensures |r| <= |s|
    ensures forall x :: x in r <==> x in s && p(x)
  {
    if s == [] then []
    else if p(s[0]) then [s[0]] + Filter(s[1..], p)
    else Filter(s[1..], p)
  }

  /** The conjunction of two conditions. */
  function And<T>(p: T -> bool, q: T -> bool): T -> bool {
    x => p(x) && q(x)
  }

  /** Filtering twice is filtering once by both conditions. */
  lemma {:induction false} FilterFilter<T(!new)>(s: seq<T>, p: T -> bool, q: T -> bool)
    ensures Filter(Filter(s, p), q) == Filter(s, And(p, q))
  {
    if s != [] {
      FilterFilter(s[1..], p, q);
      if p(s[0]) {
        assert Filter(s, p) == [s[0]] + Filter(s[1..], p);
        assert Filter(s, p)[1..] == Filter(s[1..], p);
      }
    }
  }

  /** The filtered list starts with the first element of `s` that satisfies `p`. */
  lemma {:induction false} FilterFirst<T(!new)>(s: seq<T>, p: T -> bool, i: int)
    requires FirstWhere(s, p, i)
    ensures Filter(s, p) != [] && Filter(s, p)[0] == s[i]
  {
    if i > 0 {
      assert !p(s[0]);
      assert FirstWhere(s[1..], p, i - 1) by {
        forall j | 0 <= j < i - 1 ensures !p(s[1..][j]) {
          assert s[1..][j] == s[j + 1];
        }
      }
      FilterFirst(s[1..], p, i - 1);
    }
  }

  /** A list that holds two different values has at least two elements. */
  lemma TwoDifferentMembers<T>(s: seq<T>, x: T, y: T)
    requires x in s && y in s && x != y
    ensures |s| >= 2
  {
  }

  /** Two different positions satisfying `p` leave at least two elements after filtering. */
  lemma {:induction false} FilterAtLeastTwo<T(!new)>(s: seq<T>, p: T -> bool, i: int, j: int)
    requires 0 <= i < |s| && 0 <= j < |s| && i != j && p(s[i]) && p(s[j])
    ensures |Filter(s, p)| >= 2
  {
    if i == 0 || j == 0 {
      var k := if i == 0 then j else i;
      assert s[1..][k - 1] == s[k];
      assert s[k] in Filter(s[1..], p);
    } else {
      assert s[1..][i - 1] == s[i] && s[1..][j - 1] == s[j];
      FilterAtLeastTwo(s[1..], p, i - 1, j - 1);
    }
  }

  /** Filtering leaves nothing when no element satisfies `p`. */
  lemma {:induction false} FilterNone<T(!new)>(s: seq<T>, p: T -> bool)
    requires forall y :: y in s ==> !p(y)
    ensures Filter(s, p) == []
  {
    if s != [] {
      FilterNone(s[1..], p);
    }
  }

  /** When `s[i]` is the only element satisfying `p`, filtering leaves `[s[i]]`. */
  lemma {:induction false} FilterSingle<T(!new)>(s: seq<T>, p: T -> bool, i: int)
    requires 0 <= i < |s| && p(s[i])
    requires forall j :: 0 <= j < |s| && j != i ==> !p(s[j])
    ensures Filter(s, p) == [s[i]]
  {
    if i == 0 {
      forall y | y in s[1..] ensures !p(y) {
        var k :| 0 <= k < |s[1..]| && s[1..][k] == y;
        assert s[1..][k] == s[k + 1];
      }
      FilterNone(s[1..], p);
    } else {
      forall j | 0 <= j < |s[1..]| && j != i - 1 ensures !p(s[1..][j]) {
        assert s[1..][j] == s[j + 1];
      }
      FilterSingle(s[1..], p, i - 1);
    }
  }

  /**
   `distinctBy { key(it) }`: keeps an element when no earlier element had the same key.
   `seen` holds the keys met so far, as the library's hash set does.
   */
  function DistinctByFrom<T(!new), K(==,!new)>(s: seq<T>, key: T -> K, seen: set<K>): (r: seq<T>)
    ensures forall x :: x in r ==> x in s && key(x) !in seen
    ensures r == [] <==> forall x :: x in s ==> key(x) in seen
    ensures s != [] && key(s[0]) !in seen ==> r != [] && r[0] == s[0]
  {
    if s == [] then []
    else if key(s[0]) in seen then DistinctByFrom(s[1..], key, seen)
    else [s[0]] + DistinctByFrom(s[1..], key, seen + {key(s[0])})
  }

  function DistinctBy<T(!new), K(==,!new)>(s: seq<T>, key: T -> K): (r: seq<T>)
    ensures forall x :: x in r ==> x in s
    ensures s != [] ==> r != [] && r[0] == s[0]
  {
    DistinctByFrom(s, key, {})
  }

  /** `distinctBy` leaves exactly one element iff the list is non-empty and all its keys agree. */
  lemma DistinctBySizeOne<T(!new), K(!new)>(s: seq<T>, key: T -> K)
    ensures |DistinctBy(s, key)| == 1 <==> s != [] && forall x :: x in s ==> key(x) == key(s[0])
  {
    if s != [] {
      var k := key(s[0]);
      var rest := DistinctByFrom(s[1..], key, {k});
      assert DistinctBy(s, key) == [s[0]] + DistinctByFrom(s[1..], key, {} + {k});
      assert {} + {k} == {k};
      assert forall x :: x in s ==> x == s[0] || x in s[1..];
    }
  }

  /** `minOf { f(it) }` of a non-empty list; the library throws on an empty one. */
  function MinOf<T>(s: seq<T>, f: T -> int): (m: int)
    requires s != []
    ensures forall x :: x in s ==> m <= f(x)
    ensures exists x :: x in s && m == f(x)
  {
    if |s| == 1 then f(s[0])
    else
      var rest := MinOf(s[1..], f);
      assert forall x :: x in s ==> x == s[0] || x in s[1..];
      if f(s[0]) <= rest then f(s[0]) else rest
  }

  /** `maxOf { f(it) }` of a non-empty list; the library throws on an empty one. */
  function MaxOf<T>(s: seq<T>, f: T -> int): (m: int)
    requires s != []
    ensures forall x :: x in s ==> f(x) <= m
    ensures exists x :: x in s && m == f(x)
  {
    if |s| == 1 then f(s[0])
    else
      var rest := MaxOf(s[1..], f);
      assert forall x :: x in s ==> x == s[0] || x in s[1..];
      if f(s[0]) >= rest then f(s[0]) else rest
  }

  /** A lower bound that some element attains is the minimum. */
  lemma MinOfIs<T>(s: seq<T>, f: T -> int, m: int)
    requires forall x :: x in s ==> m <= f(x)
    requires exists x :: x in s && f(x) == m
    ensures MinOf(s, f) == m
  {
  }

  /** An upper bound that some element attains is the maximum. */
  lemma MaxOfIs<T>(s: seq<T>, f: T -> int, m: int)
    requires forall x :: x in s ==> f(x) <= m
    requires exists x :: x in s && f(x) == m
    ensures MaxOf(s, f) == m
  {
  }

  /**
   Kotlin's `a.rem(b)` on `Int`: the remainder of division truncated toward zero,
   which takes the sign of the dividend (Dafny's `%` is Euclidean instead).
   */
  function KotlinRem(a: int, b: int): (r: int)
    requires b != 0
  {
    if a >= 0 then a % b else -((-a) % b)
  }

  lemma {:induction false} MulAtLeast(b: nat, d: nat)
    requires d > 0
    ensures b * d >= b
  {
    if d > 1 {
      MulAtLeast(b, d - 1);
      assert b * d == b * (d - 1) + b;
    }
  }

  /** A non-zero multiple of `b` is at least as far from zero as `b`. */
  lemma NonZeroMultiple(b: int, d: int)
    ensures d != 0 ==> b * d >= (if b > 0 then b else -b) || b * d <= -(if b > 0 then b else -b)
  {
    if d != 0 {
      var m := if b > 0 then b else -b;
      var ad := if d > 0 then d else -d;
      MulAtLeast(m, ad);
      assert m * ad == b * d || m * ad == -(b * d);
    }
  }

  /** A multiple of `b` leaves Euclidean remainder zero. */
  lemma MultipleModZero(b: int, k: int)
    requires b != 0
    ensures (b * k) % b == 0
  {
    var x := b * k;
    var q, r := x / b, x % b;
    assert b * (k - q) == r by {
      assert x == b * q + r;
      assert b * (k - q) == b * k - b * q;
    }
    NonZeroMultiple(b, k - q);
  }

  /** Compared with zero, the truncated and the Euclidean remainders agree. */
  lemma KotlinRemZeroIff(a: int, b: int)
    requires b != 0
    ensures KotlinRem(a, b) == 0 <==> a % b == 0
  {
    if a < 0 {
      if a % b == 0 {
        assert a == b * (a / b);
        assert -a == b * -(a / b);
        MultipleModZero(b, -(a / b));
      }
      if (-a) % b == 0 {
        assert -a == b * ((-a) / b);
        assert a == b * -((-a) / b);
        MultipleModZero(b, -((-a) / b));
      }
    }
  }
}
