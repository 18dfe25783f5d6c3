/**
 * The run-length indicator BARSLASTCOUNT and the buy-side condition it is
 * applied to. The indicator is computed once over the whole series, the way
 * the source does it with pandas: label every run of equal values
 * (`(c != c.shift()).cumsum()`), then take the cumulative sum of the
 * condition inside each run.
 */
module Indicators {
  import opened Market

  /**
   * `close < close.shift(4)`: for the first four bars the shifted value is
   * NaN and the comparison is false.
   */
  function BuyCondition(bars: seq<Bar>): (c: seq<bool>)
    ensures |c| == |bars|
    ensures forall i :: 0 <= i < 4 && i < |bars| ==> !c[i]
  {
    seq(|bars|, i requires 0 <= i < |bars| => 4 <= i && bars[i].close < bars[i - 4].close)
  }

  /**
   * `(c != c.shift()).cumsum()` at index i: the label of the run of equal
   * values index i belongs to. The first comparison is against NaN, so index 0
   * always opens a run.
   */
  function GroupId(c: seq<bool>, i: nat): nat
    requires i < |c|
  {
    if i == 0 then 1 else GroupId(c, i - 1) + (if c[i] != c[i - 1] then 1 else 0)
  }

  /** The group-wise `cumsum` of c over indices 0..n-1 that carry label id. */
  function GroupCumSum(c: seq<bool>, id: nat, n: nat): nat
    requires n <= |c|
  {
    if n == 0 then 0
    else GroupCumSum(c, id, n - 1) + (if GroupId(c, n - 1) == id && c[n - 1] then 1 else 0)
  }

  /** The group-wise `cumsum` at index i: the sum within i's run up to i. */
  function RunSumAt(c: seq<bool>, i: nat): nat
    requires i < |c|
  {
    GroupCumSum(c, GroupId(c, i), i + 1)
  }

  /** BARSLASTCOUNT: at each index, the cumulative sum of c within its run. */
  function BarsLastCount(c: seq<bool>): (r: seq<nat>)
    ensures |r| == |c|
  {
    seq(|c|, i requires 0 <= i < |c| => RunSumAt(c, i))
  }

  lemma {:induction false} GroupIdMonotone(c: seq<bool>, j: nat, i: nat)
    requires j <= i < |c|
    ensures GroupId(c, j) <= GroupId(c, i)
  {
    if j < i {
      GroupIdMonotone(c, j, i - 1);
    }
  }

  /** A run label that no index below n carries yet has an empty sum there. */
  lemma {:induction false} GroupCumSumOfLaterRun(c: seq<bool>, id: nat, n: nat)
    requires 0 < n <= |c| && GroupId(c, n - 1) < id
    ensures GroupCumSum(c, id, n) == 0
  {
    if n > 1 {
      GroupIdMonotone(c, n - 2, n - 1);
      GroupCumSumOfLaterRun(c, id, n - 1);
    }
  }

  /**
   * The recurrence of the indicator: a true value extends the count at the
   * index before by one (or starts at 1 on index 0), a false value gives 0.
   */
  lemma {:induction false} BarsLastCountStep(c: seq<bool>, i: nat)
    requires i < |c|
    ensures BarsLastCount(c)[i] == if c[i] then (if i == 0 then 1 else BarsLastCount(c)[i - 1] + 1) else 0
  {
    RunSumStep(c, i);
  }

  lemma {:induction false} RunSumStep(c: seq<bool>, i: nat)
    requires i < |c|
    ensures RunSumAt(c, i) == if c[i] then (if i == 0 then 1 else RunSumAt(c, i - 1) + 1) else 0
  {
    assert RunSumAt(c, i) == GroupCumSum(c, GroupId(c, i), i) + (if c[i] then 1 else 0);
    if i > 0 {
      if c[i] == c[i - 1] {
        if !c[i] {
          RunSumStep(c, i - 1);
        }
      } else {
        GroupCumSumOfLaterRun(c, GroupId(c, i), i);
        if c[i] {
          RunSumStep(c, i - 1);
        }
      }
    }
  }

  /**
   * Reference reading of the indicator: the value at i is the length of the
   * longest run of true values that ends at i (0 when c[i] is false).
   */
  lemma {:induction false} BarsLastCountIsTrailingRun(c: seq<bool>, i: nat)
    requires i < |c|
    ensures BarsLastCount(c)[i] <= i + 1
    ensures forall j :: i - BarsLastCount(c)[i] < j <= i ==> c[j]
    ensures BarsLastCount(c)[i] <= i ==> !c[i - BarsLastCount(c)[i]]
  {
    BarsLastCountStep(c, i);
    if c[i] && i > 0 {
      BarsLastCountIsTrailingRun(c, i - 1);
    }
  }

  /**
   * Conversely, a run of len true values ending at i, preceded by a false
   * value or starting at index 0, is exactly the value of the indicator at i.
   */
  lemma TrailingRunIsBarsLastCount(c: seq<bool>, i: nat, len: nat)
    requires i < |c| && len <= i + 1
    requires forall j :: i - len < j <= i ==> c[j]
    requires len <= i ==> !c[i - len]
    ensures BarsLastCount(c)[i] == len
  {
    BarsLastCountIsTrailingRun(c, i);
  }

  /** The indicator at i depends only on c[..i+1]: it never looks ahead. */
  lemma {:induction false} BarsLastCountNoLookAhead(c: seq<bool>, d: seq<bool>, i: nat)
    requires i < |c| && i < |d| && c[..i + 1] == d[..i + 1]
    ensures BarsLastCount(c)[i] == BarsLastCount(d)[i]
  {
    assert c[i] == c[..i + 1][i] == d[..i + 1][i] == d[i];
    BarsLastCountStep(c, i);
    BarsLastCountStep(d, i);
    if i > 0 {
      assert c[..i] == c[..i + 1][..i] == d[..i + 1][..i] == d[..i];
      BarsLastCountNoLookAhead(c, d, i - 1);
    }
  }

  /** For the first four bars the buy-side count is 0: its condition is false. */
  lemma BuyCountZeroInWarmUp(bars: seq<Bar>, i: nat)
    requires i < 4 && i < |bars|
    ensures BarsLastCount(BuyCondition(bars))[i] == 0
  {
    BarsLastCountStep(BuyCondition(bars), i);
  }
}
