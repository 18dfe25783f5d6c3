/**
 * The TD Sequential strategy: the sell-side setup/countdown counters it
 * updates on every bar, the buy and sell signals it derives from them, and
 * the one action it takes per bar.
 */
module Strategy {
  import opened Market
  import opened Indicators

  /** A call on bar i sees i + 1 bars; with fewer than this it returns at once. */
  const MinBars: nat := 15
  /** The sell setup count that completes a setup and (re)starts the countdown. */
  const SetupTarget: nat := 9
  /** The second sell setup count that also signals a completed setup. */
  const SetupExtended: nat := 18
  /** The sell countdown count that signals a completed countdown. */
  const CountdownTarget: nat := 13
  /** The buy-side run length a buy needs. */
  const BuySetupTarget: nat := 13
  /** The stop level is this fraction of the entry price (a 15% stop). */
  const StopFraction: real := 0.85

  /** The strategy's three sell-side counters. */
  datatype SellState = SellState(setupCount: nat, countdownActive: bool, countdownCount: nat)

  const InitialSellState := SellState(0, false, 0)

  datatype CloseReason = StopLoss | SellSignal

  /** What one bar does to the position: open one, close it, or nothing. */
  datatype Action = Hold | Buy | Close(reason: CloseReason)

  /** td_setup_count: the buy-side run length, computed once over the series. */
  function TdSetupCount(bars: seq<Bar>): (td: seq<nat>)
    ensures |td| == |bars|
    ensures forall i :: 0 <= i < 4 && i < |bars| ==> td[i] == 0
  {
    var td := BarsLastCount(BuyCondition(bars));
    forall i | 0 <= i < 4 && i < |bars| ensures td[i] == 0 {
      BuyCountZeroInWarmUp(bars, i);
    }
    td
  }

  /**
   * The sell-side condition as the counters see it: close above the close
   * four bars back, on a bar the strategy evaluates (false before that).
   */
  function SellCondition(bars: seq<Bar>): seq<bool> {
    seq(|bars|, i requires 0 <= i < |bars| => MinBars <= i + 1 && bars[i].close > bars[i - 4].close)
  }

  /**
   * The counter update of one evaluated bar i. The setup count grows on a
   * close above close[i-4] and drops to 0 otherwise; the countdown becomes
   * active exactly when the setup count reaches 9 and is never deactivated;
   * on that bar its count restarts (and may at once count the bar); on any
   * other bar it grows by 1 exactly when the countdown is active and the
   * close is above high[i-2], and otherwise stays put.
   */
  function SellStep(s: SellState, bars: seq<Bar>, i: nat): (s': SellState)
    requires 4 <= i < |bars|
    ensures s'.setupCount > 0 <==> bars[i].close > bars[i - 4].close
    ensures s'.setupCount == 0 || s'.setupCount == s.setupCount + 1
    ensures s'.countdownActive <==> s.countdownActive || s'.setupCount == SetupTarget
    ensures s'.setupCount == SetupTarget ==>
              s'.countdownCount == (if bars[i].close > bars[i - 2].high then 1 else 0)
    ensures s'.setupCount != SetupTarget ==>
              s.countdownCount <= s'.countdownCount <= s.countdownCount + 1 &&
              (s'.countdownCount == s.countdownCount + 1 <==> s.countdownActive && bars[i].close > bars[i - 2].high)
  {
    var setup := if bars[i].close > bars[i - 4].close then s.setupCount + 1 else 0;
    var active := s.countdownActive || setup == SetupTarget;
    var count := if setup == SetupTarget then 0 else s.countdownCount;
    SellState(setup, active, if active && bars[i].close > bars[i - 2].high then count + 1 else count)
  }

  /** hj8: a completed sell setup. */
  predicate SetupComplete(s: SellState) {
    s.setupCount == SetupTarget || s.setupCount == SetupExtended
  }

  /** hj39: a completed sell countdown. */
  predicate CountdownComplete(s: SellState) {
    s.countdownCount == CountdownTarget
  }

  predicate ShouldSell(s: SellState) {
    SetupComplete(s) || CountdownComplete(s)
  }

  /** The highest high among bars lo..hi-1 (np.max of a slice). */
  function MaxHigh(bars: seq<Bar>, lo: nat, hi: nat): (m: real)
    requires lo < hi <= |bars|
    ensures forall j :: lo <= j < hi ==> bars[j].high <= m
    ensures exists j :: lo <= j < hi && bars[j].high == m
    decreases hi - lo
  {
    if lo + 1 == hi then bars[lo].high
    else
      var rest := MaxHigh(bars, lo + 1, hi);
      if bars[lo].high >= rest then bars[lo].high else rest
  }

  /**
   * hj38: on a bar where the setup count is 9, a high below the highest high
   * of the twelve bars before, or a close below the open. It is computed but
   * feeds no decision.
   */
  predicate WeakConfirm(s: SellState, bars: seq<Bar>, i: nat): (b: bool)
    requires 12 <= i < |bars|
    ensures b <==> s.setupCount == SetupTarget &&
                   ((exists j :: i - 12 <= j < i && bars[i].high < bars[j].high) || bars[i].close < bars[i].open)
  {
    s.setupCount == SetupTarget && (bars[i].high < MaxHigh(bars, i - 12, i) || bars[i].close < bars[i].open)
  }

  /** hj31: close above the high two bars back, after a close at or below the high before it. */
  predicate ReversalConfirm(bars: seq<Bar>, i: nat)
    requires 3 <= i < |bars|
  {
    bars[i].close > bars[i - 2].high && bars[i - 1].close <= bars[i - 3].high
  }

  /** hj51_54: a ready buy setup and a close above the previous high. */
  predicate SetupBreakout(bars: seq<Bar>, td: seq<nat>, i: nat)
    requires 1 <= i < |bars| && i < |td|
  {
    td[i] >= BuySetupTarget && bars[i].close > bars[i - 1].high
  }

  /** The entry rule, when no position is open. */
  predicate BuySignal(bars: seq<Bar>, td: seq<nat>, i: nat)
    requires 3 <= i < |bars| && i < |td|
  {
    td[i] >= BuySetupTarget && (ReversalConfirm(bars, i) || SetupBreakout(bars, td, i))
  }

  /** The stop-loss price of a position: 15% below its entry price. */
  function StopLevel(entryPrice: real): (p: real)
    ensures 0.0 < entryPrice ==> 0.0 < p < entryPrice
  {
    entryPrice * StopFraction
  }

  /**
   * The decision of an evaluated bar i, given the counters after the bar's
   * update and the entry price of the open position, if any.
   */
  function Decide(s: SellState, bars: seq<Bar>, td: seq<nat>, i: nat, entry: Option<real>): (a: Action)
    requires MinBars <= i + 1 && i < |bars| && i < |td|
    ensures a.Buy? <==>
              entry.None? && td[i] >= 13 &&
              ((bars[i].close > bars[i - 2].high && bars[i - 1].close <= bars[i - 3].high) ||
               bars[i].close > bars[i - 1].high)
    ensures a == Close(StopLoss) <==> entry.Some? && bars[i].low <= entry.value * 0.85
    ensures a == Close(SellSignal) <==>
              entry.Some? && bars[i].low > entry.value * 0.85 &&
              (s.setupCount == 9 || s.setupCount == 18 || s.countdownCount == 13)
    ensures a.Close? ==> entry.Some?
  {
    match entry
    case None => if BuySignal(bars, td, i) then Buy else Hold
    case Some(price) =>
      if bars[i].low <= StopLevel(price) then Close(StopLoss)
      else if ShouldSell(s) then Close(SellSignal)
      else Hold
  }

  /**
   * The strategy object: the series it runs on, the buy-side indicator
   * computed once at set-up, and the three sell-side counters that every
   * evaluated bar updates in place.
   */
  class TDSequentialStrategy {
    const data: seq<Bar>
    const tdSetupCount: seq<nat>
    var sellSetupCount: nat
    var sellCountdownActive: bool
    var sellCountdownCount: nat

    ghost predicate Valid() {
      tdSetupCount == TdSetupCount(data)
    }

    function State(): SellState
      reads this
    {
      SellState(sellSetupCount, sellCountdownActive, sellCountdownCount)
    }

    constructor (bars: seq<Bar>)
      ensures data == bars && Valid()
      ensures State() == InitialSellState
    {
      data := bars;
      tdSetupCount := TdSetupCount(bars);
      sellSetupCount := 0;
      sellCountdownActive := false;
      sellCountdownCount := 0;
    }

    /**
     * One call per bar i. `entry` is the entry price of the open position,
     * or None when there is none.
     */
    method Next(i: nat, entry: Option<real>) returns (action: Action)
      requires Valid() && i < |data|
      modifies this
      ensures i + 1 < MinBars ==> State() == old(State()) && action == Hold
      ensures MinBars <= i + 1 ==>
                State() == SellStep(old(State()), data, i) &&
                action == Decide(State(), data, tdSetupCount, i, entry)
    {
      if i + 1 < MinBars {
        return Hold;
      }

      var currClose, currOpen, currHigh := data[i].close, data[i].open, data[i].high;
      var refC4, refH2 := data[i - 4].close, data[i - 2].high;

      if currClose > refC4 {
        sellSetupCount := sellSetupCount + 1;
      } else {
        sellSetupCount := 0;
      }
      if sellSetupCount == SetupTarget {
        sellCountdownActive := true;
        sellCountdownCount := 0;
      }
      if sellCountdownActive {
        if currClose > refH2 {
          sellCountdownCount := sellCountdownCount + 1;
        }
      }

      assert State() == SellStep(old(State()), data, i);

      var hj8 := sellSetupCount == SetupTarget || sellSetupCount == SetupExtended;
      var hj38 := false;
      if sellSetupCount == SetupTarget {
        var prev12Highs := MaxHigh(data, i - 12, i);
        if currHigh < prev12Highs || currClose < currOpen {
          hj38 := true;
        }
      }
      assert hj38 == WeakConfirm(State(), data, i);
      var hj39 := sellCountdownCount == CountdownTarget;
      var shouldSell := hj8 || hj39;

      var hj31 := data[i].close > data[i - 2].high && data[i - 1].close <= data[i - 3].high;
      var hj51To54 := tdSetupCount[i] >= BuySetupTarget && data[i].close > data[i - 1].high;

      if entry.None? {
        if tdSetupCount[i] >= BuySetupTarget && (hj31 || hj51To54) {
          action := Buy;
        } else {
          action := Hold;
        }
      } else {
        var stopLossPrice := entry.value * StopFraction;
        if data[i].low <= stopLossPrice {
          action := Close(StopLoss);
        } else if shouldSell {
          action := Close(SellSignal);
        } else {
          action := Hold;
        }
      }
    }
  }
}
