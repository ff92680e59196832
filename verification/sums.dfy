/**
 Integer sums over sequences. Every quantity the shop adds up (stock held for a
 product id, units reserved in the cart, the cart total) is the `Sum` of a
 column derived from a product or cart sequence, so the arithmetic facts about
 edits to such a column are proved once, here.
 */
module Sums {

  /** The sum of `xs`, accumulated from the first element to the last. */
  function Sum(xs: seq<int>): (r: int)
  {
    if |xs| == 0 then 0 else Sum(xs[..|xs| - 1]) + xs[|xs| - 1]
  }

  /** Summing distributes over concatenation. */
  lemma {:induction false} SumConcat(a: seq<int>, b: seq<int>)
    ensures Sum(a + b) == Sum(a) + Sum(b)
    decreases |b|
  {
    if |b| == 0 {
      assert a + b == a;
    } else {
      assert (a + b)[..|a + b| - 1] == a + b[..|b| - 1];
      SumConcat(a, b[..|b| - 1]);
    }
  }

  /** The sum splits around any position `k`. */
  lemma SumSplit(xs: seq<int>, k: int)
    requires 0 <= k < |xs|
    ensures Sum(xs) == Sum(xs[..k]) + xs[k] + Sum(xs[k + 1..])
  {
    var front := xs[..k + 1];
    assert front[..k] == xs[..k];
    assert xs == front + xs[k + 1..];
    SumConcat(front, xs[k + 1..]);
  }

  /** Replacing one element changes the sum by exactly the difference. */
  lemma SumUpdate(xs: seq<int>, k: int, v: int)
    requires 0 <= k < |xs|
    ensures Sum(xs[k := v]) == Sum(xs) - xs[k] + v
  {
    var ys := xs[k := v];
    assert ys[..k] == xs[..k] && ys[k + 1..] == xs[k + 1..];
    SumSplit(xs, k);
    SumSplit(ys, k);
  }

  /** Deleting one element lowers the sum by exactly that element. */
  lemma SumRemove(xs: seq<int>, k: int)
    requires 0 <= k < |xs|
    ensures Sum(xs[..k] + xs[k + 1..]) == Sum(xs) - xs[k]
  {
    SumConcat(xs[..k], xs[k + 1..]);
    SumSplit(xs, k);
  }

  /** A sequence that is zero everywhere except at `k` sums to its value at `k`. */
  lemma {:induction false} SumSingle(xs: seq<int>, k: int)
    requires 0 <= k < |xs|
    requires forall j :: 0 <= j < |xs| && j != k ==> xs[j] == 0
    ensures Sum(xs) == xs[k]
    decreases |xs|
  {
    var last := |xs| - 1;
    if k == last {
      SumZero(xs[..last]);
    } else {
      SumSingle(xs[..last], k);
    }
  }

  /** A sequence of zeros sums to zero. */
  lemma {:induction false} SumZero(xs: seq<int>)
    requires forall j :: 0 <= j < |xs| ==> xs[j] == 0
    ensures Sum(xs) == 0
    decreases |xs|
  {
    if |xs| > 0 {
      SumZero(xs[..|xs| - 1]);
    }
  }

  /** If every element is at least one, the sum is at least the length. */
  lemma {:induction false} SumAtLeastLength(xs: seq<int>)
    requires forall j :: 0 <= j < |xs| ==> xs[j] >= 1
    ensures Sum(xs) >= |xs|
    decreases |xs|
  {
    if |xs| > 0 {
      SumAtLeastLength(xs[..|xs| - 1]);
    }
  }
}
