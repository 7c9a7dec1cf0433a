/** The arithmetic the overview cards share: the sum of a column of counts (a
    `reduce((sum, x) => sum + x, 0)`) and `Math.round` of an average, which for
    non-negative integers is the quotient rounded half up. */
module Aggregates {

  /** The sum of the counts. */
  function Sum(xs: seq<nat>): (r: nat)
    ensures |xs| == 0 ==> r == 0
    decreases |xs|
  {
    if |xs| == 0 then 0 else xs[0] + Sum(xs[1..])
  }

  /** Sums add up over a concatenation, so the left-to-right `reduce` and this sum agree. */
  lemma {:induction false} SumConcat(a: seq<nat>, b: seq<nat>)
    ensures Sum(a + b) == Sum(a) + Sum(b)
    decreases |a|
  {
    if |a| == 0 {
      assert a + b == b;
    } else {
      assert (a + b)[1..] == a[1..] + b;
      SumConcat(a[1..], b);
    }
  }

  /** No count exceeds the sum. */
  lemma {:induction false} ElementAtMostSum(xs: seq<nat>, i: nat)
    requires i < |xs|
    ensures xs[i] <= Sum(xs)
    decreases |xs|
  {
    if i > 0 {
      ElementAtMostSum(xs[1..], i - 1);
      assert xs[1..][i - 1] == xs[i];
    }
  }

  /** A sum of counts that are each at most `m` is at most `|xs| * m`. */
  lemma {:induction false} SumAtMost(xs: seq<nat>, m: nat)
    requires forall i :: 0 <= i < |xs| ==> xs[i] <= m
    ensures Sum(xs) <= |xs| * m
    decreases |xs|
  {
    if |xs| > 0 {
      var rest := xs[1..];
      assert forall i :: 0 <= i < |rest| ==> rest[i] == xs[i + 1];
      SumAtMost(rest, m);
      assert |rest| * m + m == |xs| * m;
    }
  }

  /** `Math.round(total / count)`: the integer nearest to the quotient, a half rounding
      up. */
  function RoundedQuotient(total: nat, count: nat): (r: nat)
    requires count > 0
    ensures 2 * count * r <= 2 * total + count < 2 * count * (r + 1)
  {
    (2 * total + count) / (2 * count)
  }

  /** The average shown on a card: the rounded quotient, and 0 when there is nothing to
      average. */
  function RoundedAverage(total: nat, count: nat): (r: nat)
    ensures count == 0 ==> r == 0
    ensures count > 0 ==> r == RoundedQuotient(total, count)
  {
    if count > 0 then RoundedQuotient(total, count) else 0
  }

  /** When every count is at most `m`, so is their rounded average. */
  lemma AverageAtMostBound(xs: seq<nat>, m: nat)
    requires forall i :: 0 <= i < |xs| ==> xs[i] <= m
    ensures RoundedAverage(Sum(xs), |xs|) <= m
  {
    SumAtMost(xs, m);
    if |xs| > 0 {
      QuotientAtMost(Sum(xs), |xs|, m);
    }
  }

  lemma QuotientAtMost(total: nat, n: nat, m: nat)
    requires n > 0 && total <= n * m
    ensures RoundedQuotient(total, n) <= m
  {
    var r := RoundedQuotient(total, n);
    var nm := n * m;
    assert 2 * n * r <= 2 * total + n;
    assert 2 * n * (m + 1) == 2 * nm + 2 * n;
    assert 2 * n * r < 2 * n * (m + 1);
    CancelFactor(2 * n, r, m + 1);
  }

  lemma CancelFactor(c: nat, a: nat, b: nat)
    requires c * a < c * b
    ensures a < b
  {
  }
}
