/**
 * The strategy's sell-side counters over a whole run: their values after
 * `Next` has been called on bars 0..n-1, and what they mean.
 */
module Counters {
  import opened Market
  import opened Indicators
  import opened Strategy

  /**
   * The sell-side counters after `Next` has run on bars 0..n-1. Neither count
   * can exceed the number of bars seen: each grows by at most one per bar.
   */
  function SellStateAfter(bars: seq<Bar>, n: nat): (s: SellState)
    requires n <= |bars|
    ensures s.setupCount <= n && s.countdownCount <= n
  {
    if n == 0 then InitialSellState
    else if n < MinBars then SellStateAfter(bars, n - 1)
    else SellStep(SellStateAfter(bars, n - 1), bars, n - 1)
  }

  /** Bars before the fifteenth leave the counters at their initial values. */
  lemma {:induction false} WarmUpKeepsInitialState(bars: seq<Bar>, n: nat)
    requires n < MinBars && n <= |bars|
    ensures SellStateAfter(bars, n) == InitialSellState
  {
    if n > 0 {
      WarmUpKeepsInitialState(bars, n - 1);
    }
  }

  /**
   * The sell setup count after bar n-1 is the run length (BARSLASTCOUNT) of
   * "close above close four bars back" over the evaluated bars ending there.
   */
  lemma {:induction false} SetupCountIsRunLength(bars: seq<Bar>, n: nat)
    requires n <= |bars|
    ensures SellStateAfter(bars, n).setupCount ==
            if n == 0 then 0 else BarsLastCount(SellCondition(bars))[n - 1]
  {
    if n > 0 {
      BarsLastCountStep(SellCondition(bars), n - 1);
      if n < MinBars {
        WarmUpKeepsInitialState(bars, n);
      } else {
        SetupCountIsRunLength(bars, n - 1);
      }
    }
  }

  /** The countdown is active exactly when the setup count has been 9 on some bar so far. */
  lemma {:induction false} CountdownActiveIffSetupReachedNine(bars: seq<Bar>, n: nat)
    requires n <= |bars|
    ensures SellStateAfter(bars, n).countdownActive <==>
            exists k :: 0 < k <= n && SellStateAfter(bars, k).setupCount == SetupTarget
  {
    if n > 0 {
      if n < MinBars {
        WarmUpKeepsInitialState(bars, n);
        forall k | 0 < k <= n ensures SellStateAfter(bars, k).setupCount == 0 {
          WarmUpKeepsInitialState(bars, k);
        }
      } else {
        CountdownActiveIffSetupReachedNine(bars, n - 1);
        if SellStateAfter(bars, n - 1).countdownActive {
          var k :| 0 < k <= n - 1 && SellStateAfter(bars, k).setupCount == SetupTarget;
          assert 0 < k <= n;
        }
      }
    }
  }

  /** Once active, the countdown stays active for the rest of the run. */
  lemma CountdownStaysActive(bars: seq<Bar>, m: nat, n: nat)
    requires m <= n <= |bars| && SellStateAfter(bars, m).countdownActive
    ensures SellStateAfter(bars, n).countdownActive
  {
    CountdownActiveIffSetupReachedNine(bars, m);
    var k :| 0 < k <= m && SellStateAfter(bars, k).setupCount == SetupTarget;
    CountdownActiveIffSetupReachedNine(bars, n);
  }

  /** While the countdown has never been activated its count stays 0. */
  lemma {:induction false} InactiveCountdownIsZero(bars: seq<Bar>, n: nat)
    requires n <= |bars| && !SellStateAfter(bars, n).countdownActive
    ensures SellStateAfter(bars, n).countdownCount == 0
  {
    if n > 0 {
      InactiveCountdownIsZero(bars, n - 1);
    }
  }

  /** The number of bars j in lo..hi-1 whose close is above the high two bars back. */
  function CountdownBars(bars: seq<Bar>, lo: nat, hi: nat): nat
    requires 2 <= lo <= hi <= |bars|
    decreases hi - lo
  {
    if lo == hi then 0
    else CountdownBars(bars, lo, hi - 1) + (if bars[hi - 1].close > bars[hi - 3].high then 1 else 0)
  }

  /**
   * Reference reading of the countdown count: if bar k-1 was the last bar so
   * far whose setup count was 9, the count is the number of bars from k-1 on
   * that closed above the high two bars back.
   */
  lemma {:induction false} CountdownCountsSinceLastNine(bars: seq<Bar>, k: nat, n: nat)
    requires 0 < k <= n <= |bars|
    requires SellStateAfter(bars, k).setupCount == SetupTarget
    requires forall m :: k < m <= n ==> SellStateAfter(bars, m).setupCount != SetupTarget
    ensures MinBars <= k
    ensures SellStateAfter(bars, n).countdownActive
    ensures SellStateAfter(bars, n).countdownCount == CountdownBars(bars, k - 1, n)
  {
    if k < MinBars {
      WarmUpKeepsInitialState(bars, k);
      assert false;
    } else if k < n {
      CountdownCountsSinceLastNine(bars, k, n - 1);
    }
  }

  /**
   * Nine evaluated bars in a row closing above the close four bars back,
   * after a bar that did not (or was not evaluated), bring the setup count to
   * exactly 9, which signals a completed setup.
   */
  lemma NineRisingClosesCompleteSetup(bars: seq<Bar>, n: nat)
    requires MinBars + 9 <= n + 1 <= |bars| + 1
    requires forall j :: n - 9 <= j < n ==> bars[j].close > bars[j - 4].close
    requires MinBars <= n - 9 ==> bars[n - 10].close <= bars[n - 14].close
    ensures SellStateAfter(bars, n).setupCount == SetupTarget
    ensures SetupComplete(SellStateAfter(bars, n))
  {
    var c := SellCondition(bars);
    assert !c[n - 10];
    assert forall j :: n - 9 <= j < n ==> c[j];
    TrailingRunIsBarsLastCount(c, n - 1, 9);
    SetupCountIsRunLength(bars, n);
  }
}
