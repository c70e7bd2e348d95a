/** What every scenario produces, and the series arithmetic used to state it. */
module Projection {
  import opened Growth

  /** A scenario's result: the totals and the two monthly series, one entry per month. */
  datatype Outcome = Outcome(
    totalPaid: real,
    finalAssets: real,
    netGain: real,
    cashflow: seq<real>,
    valueHistory: seq<real>)

  /** The sum of a series, taken from the front. */
  function Sum(s: seq<real>): real
  {
    if |s| == 0 then 0.0 else Sum(s[..|s| - 1]) + s[|s| - 1]
  }

  /** How many of the first m months (0 .. m - 1) fall before month `cutoff`. */
  function MonthsBefore(cutoff: nat, m: nat): (k: nat)
    ensures k <= m && k <= cutoff
    ensures k == m || k == cutoff
  {
    if m < cutoff then m else cutoff
  }

  /** How many of the first m months fall at or after month `cutoff`. */
  function MonthsFrom(cutoff: nat, m: nat): (k: nat)
    ensures MonthsBefore(cutoff, m) + k == m
  {
    if m < cutoff then 0 else m - cutoff
  }

  /** The amount c accumulated over k months, one addition per month, as the
      scenarios' running totals are. */
  function Repeat(c: real, k: nat): real
  {
    if k == 0 then 0.0 else Repeat(c, k - 1) + c
  }

  /** Accumulating c over k months gives k times c. */
  lemma {:induction false} RepeatIsProduct(c: real, k: nat)
    ensures Repeat(c, k) == k as real * c
  {
    if k > 0 {
      RepeatIsProduct(c, k - 1);
      assert (k - 1) as real * c + c == k as real * c;
    }
  }

  /** Counting one more month moves exactly one of the two counts up by one. */
  lemma MonthsStep(cutoff: nat, m: nat)
    ensures MonthsBefore(cutoff, m + 1) == MonthsBefore(cutoff, m) + (if m < cutoff then 1 else 0)
    ensures MonthsFrom(cutoff, m + 1) == MonthsFrom(cutoff, m) + (if m < cutoff then 0 else 1)
  {
  }

  /** Entry k of the series is what month-by-month growth from `start` at `rate` has
      reached at the end of month k. */
  predicate GrowthSeries(h: seq<real>, start: real, rate: real)
  {
    forall k :: 0 <= k < |h| ==> h[k] == Grown(start, rate, k + 1)
  }

  /** A series grown month by month is the closed-form compounding series. */
  lemma GrowthSeriesCompounds(h: seq<real>, start: real, rate: real)
    requires GrowthSeries(h, start, rate)
    ensures Compounding(h, start, rate)
  {
    forall k | 0 <= k < |h|
      ensures h[k] == Compounded(start, rate, k + 1)
    {
      GrownIsCompounded(start, rate, k + 1);
    }
  }

  /** Entry k of the series is `start` compounded for k + 1 months at `rate`: the value
      recorded at the end of month k. */
  predicate Compounding(h: seq<real>, start: real, rate: real)
  {
    forall k :: 0 <= k < |h| ==> h[k] == Compounded(start, rate, k + 1)
  }

  /** A non-negative start compounded at a non-negative rate gives a series that never
      goes down. */
  lemma CompoundingNondecreasing(h: seq<real>, start: real, rate: real)
    requires Compounding(h, start, rate) && start >= 0.0 && rate >= 0.0
    ensures forall j, k :: 0 <= j <= k < |h| ==> h[j] <= h[k]
  {
    forall j, k | 0 <= j <= k < |h|
      ensures h[j] <= h[k]
    {
      CompoundedMonotone(start, rate, j + 1, k + 1);
    }
  }
}
