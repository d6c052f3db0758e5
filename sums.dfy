/**
 * Folds over sequences that the aggregations share: a sum of one number per
 * element (what `reduce((acc, x) => acc + f(x), 0)` computes), `filter`,
 * and the integer form of `Math.round(a / b)`.
 */
module Sums {

  /** The sum of f over s, folded from the left as `reduce` does. */
  function Sum<T>(s: seq<T>, f: T -> int): int {
    if |s| == 0 then 0 else Sum(s[..|s| - 1], f) + f(s[|s| - 1])
  }

  /** The elements of s that satisfy p, in their order. */
  function Filter<T>(s: seq<T>, p: T -> bool): (r: seq<T>)
    ensures |r| <= |s|
    ensures forall i :: 0 <= i < |r| ==> r[i] in s && p(r[i])
    ensures forall i :: 0 <= i < |s| && p(s[i]) ==> s[i] in r
  {
    if |s| == 0 then []
    else Filter(s[..|s| - 1], p) + (if p(s[|s| - 1]) then [s[|s| - 1]] else [])
  }

  lemma {:induction false} SumAppend<T>(a: seq<T>, b: seq<T>, f: T -> int)
    ensures Sum(a + b, f) == Sum(a, f) + Sum(b, f)
  {
    if |b| == 0 {
      assert a + b == a;
    } else {
      assert (a + b)[..|a + b| - 1] == a + b[..|b| - 1];
      SumAppend(a, b[..|b| - 1], f);
    }
  }

  lemma {:induction false} FilterAppend<T>(a: seq<T>, b: seq<T>, p: T -> bool)
    ensures Filter(a + b, p) == Filter(a, p) + Filter(b, p)
  {
    if |b| == 0 {
      assert a + b == a;
    } else {
      assert (a + b)[..|a + b| - 1] == a + b[..|b| - 1];
      FilterAppend(a, b[..|b| - 1], p);
    }
  }

  /** Predicates that agree on every element select the same elements. */
  lemma {:induction false} FilterCongruent<T>(s: seq<T>, p: T -> bool, q: T -> bool)
    requires forall i :: 0 <= i < |s| ==> p(s[i]) == q(s[i])
    ensures Filter(s, p) == Filter(s, q)
  {
    if |s| > 0 {
      FilterCongruent(s[..|s| - 1], p, q);
    }
  }

  /** Nothing passes a predicate no element satisfies. */
  lemma {:induction false} FilterNone<T>(s: seq<T>, p: T -> bool)
    requires forall i :: 0 <= i < |s| ==> !p(s[i])
    ensures Filter(s, p) == []
  {
    if |s| > 0 {
      FilterNone(s[..|s| - 1], p);
    }
  }

  /** With non-negative terms, the sum over a filtered sequence is at most the whole sum. */
  lemma {:induction false} SumFilterAtMost<T>(s: seq<T>, f: T -> int, p: T -> bool)
    requires forall i :: 0 <= i < |s| ==> f(s[i]) >= 0
    ensures Sum(Filter(s, p), f) <= Sum(s, f)
  {
    if |s| > 0 {
      var init, last := s[..|s| - 1], s[|s| - 1];
      SumFilterAtMost(init, f, p);
      assert f(last) >= 0;
      if p(last) {
        assert Filter(s, p) == Filter(init, p) + [last];
        SumAppend(Filter(init, p), [last], f);
      } else {
        assert Filter(s, p) == Filter(init, p);
      }
    }
  }

  /** Bounds on every element bound the sum. */
  lemma {:induction false} SumBounds<T>(s: seq<T>, f: T -> int, lo: int, hi: int)
    requires forall i :: 0 <= i < |s| ==> lo <= f(s[i]) <= hi
    ensures |s| * lo <= Sum(s, f) <= |s| * hi
  {
    if |s| > 0 {
      SumBounds(s[..|s| - 1], f, lo, hi);
      assert f(s[|s| - 1]) <= hi;
    }
  }

  /**
   * `Math.round(a / b)` for a positive divisor: the nearest integer, halves
   * rounded up. Dafny's `/` floors for a positive divisor, also when a < 0.
   */
  function RoundDiv(a: int, b: int): (r: int)
    requires b > 0
    ensures 2 * b * r - b <= 2 * a < 2 * b * r + b
  {
    (2 * a + b) / (2 * b)
  }

  /** The rounding bounds determine the result: RoundDiv is the only such integer. */
  lemma RoundDivUnique(a: int, b: int, r: int)
    requires b > 0
    requires 2 * b * r - b <= 2 * a < 2 * b * r + b
    ensures RoundDiv(a, b) == r
  {
    var q := RoundDiv(a, b);
    assert 2 * b * (q - r) < 2 * b && 2 * b * (r - q) < 2 * b;
    BelowOneFactor(2 * b, q - r);
    BelowOneFactor(2 * b, r - q);
  }

  lemma BelowOneFactor(c: int, x: int)
    requires c > 0 && c * x < c
    ensures x < 1
  {
  }

  /** Rounding a quotient that lies between two integers stays between them. */
  lemma RoundDivBetween(a: int, b: int, lo: int, hi: int)
    requires b > 0 && b * lo <= a <= b * hi
    ensures lo <= RoundDiv(a, b) <= hi
  {
    var r := RoundDiv(a, b);
    assert 2 * b * (r - hi) == 2 * b * r - 2 * (b * hi);
    assert 2 * b * (lo - r) == 2 * (b * lo) - 2 * b * r;
    BelowOneFactor(2 * b, r - hi);
    BelowOneFactor(2 * b, lo - r);
  }

  /** An exact quotient is returned unchanged. */
  lemma RoundDivExact(q: int, b: int)
    requires b > 0
    ensures RoundDiv(q * b, b) == q
  {
    RoundDivUnique(q * b, b, q);
  }
}
