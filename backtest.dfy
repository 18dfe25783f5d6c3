/**
 * The bar-by-bar run of the strategy: one call of `Next` per bar in time
 * order, with the single position slot and the ledger of closed trades kept
 * by the runner. Order fills belong to the backtesting library; here the
 * price at which a buy issued on bar i fills is supplied as fills[i], and an
 * order is reflected in the position the next call sees.
 */
module Backtest {
  import opened Market
  import opened Indicators
  import opened Strategy
  import opened Counters

  /** The open position: the bar whose call issued the buy, and its fill price. */
  datatype Position = Position(buyBar: nat, entryPrice: real)

  /** A closed trade: when it was bought, at what price, when and why it was closed. */
  datatype Trade = Trade(buyBar: nat, entryPrice: real, closeBar: nat, reason: CloseReason)

  /** The position slot (at most one position) and the ledger of closed trades. */
  datatype Book = Book(open: Option<Position>, trades: seq<Trade>)

  /**
   * Everything a bar's decision reads, per bar: the bars, the buy-side run
   * length td, the sell-side counters after the bar's update, and the price a
   * buy issued on the bar fills at.
   */
  datatype Feed = Feed(bars: seq<Bar>, td: seq<nat>, states: seq<SellState>, fills: seq<real>) {
    predicate Valid() {
      |td| == |bars| && |states| == |bars| && |fills| == |bars|
    }
  }

  /** The feed of a backtest over bars with the given fill prices. */
  function FeedOf(bars: seq<Bar>, fills: seq<real>): (f: Feed)
    requires |fills| == |bars|
    ensures f.Valid()
  {
    Feed(bars, TdSetupCount(bars), seq(|bars|, i requires 0 <= i < |bars| => SellStateAfter(bars, i + 1)), fills)
  }

  /** The entry price the strategy reads from the open position. */
  function EntryOf(open: Option<Position>): Option<real> {
    match open
    case None => None
    case Some(p) => Some(p.entryPrice)
  }

  /**
   * The effect of bar i's action on the book: the ledger only grows, by one
   * trade exactly on a close, and a position is open afterwards exactly after
   * a buy or when one was open and the bar held.
   */
  function Apply(b: Book, a: Action, i: nat, fill: real): (r: Book)
    requires a.Buy? ==> b.open.None?
    requires a.Close? ==> b.open.Some?
    ensures b.trades <= r.trades
    ensures |r.trades| == |b.trades| + (if a.Close? then 1 else 0)
    ensures r.open.Some? <==> a.Buy? || (a.Hold? && b.open.Some?)
  {
    match a
    case Hold => b
    case Buy => Book(Some(Position(i, fill)), b.trades)
    case Close(reason) =>
      Book(None, b.trades + [Trade(b.open.value.buyBar, b.open.value.entryPrice, i, reason)])
  }

  /**
   * The book after bars 0..n-1. A trade takes a buy bar and a later close
   * bar, so the trades and the open position together use at most n bars.
   */
  function BookAfter(f: Feed, n: nat): (b: Book)
    requires f.Valid() && n <= |f.bars|
    ensures 2 * |b.trades| + (if b.open.Some? then 1 else 0) <= n
    ensures b.open.Some? ==> b.open.value.buyBar < n
  {
    if n == 0 then Book(None, [])
    else
      var b := BookAfter(f, n - 1);
      if n < MinBars then b
      else Apply(b, Decide(f.states[n - 1], f.bars, f.td, n - 1, EntryOf(b.open)), n - 1, f.fills[n - 1])
  }

  /**
   * The backtest loop: a fresh strategy, then one call of `Next` per bar, with
   * the action applied to the position slot and the ledger.
   */
  method Run(bars: seq<Bar>, fills: seq<real>) returns (trades: seq<Trade>, open: Option<Position>)
    requires |fills| == |bars|
    ensures Book(open, trades) == BookAfter(FeedOf(bars, fills), |bars|)
    ensures LedgerExplained(FeedOf(bars, fills), |bars|, Book(open, trades))
  {
    ghost var f := FeedOf(bars, fills);
    FeedFacts(bars, fills);
    var strategy := new TDSequentialStrategy(bars);
    trades, open := [], None;
    var i := 0;
    while i < |bars|
      invariant i <= |bars|
      invariant strategy.data == bars && strategy.Valid()
      invariant strategy.State() == SellStateAfter(bars, i)
      invariant Book(open, trades) == BookAfter(f, i)
    {
      ghost var b := Book(open, trades);
      var action := strategy.Next(i, EntryOf(open));
      BookStepApplies(f, i, b, action);
      match action {
        case Hold =>
        case Buy =>
          open := Some(Position(i, fills[i]));
        case Close(reason) =>
          trades := trades + [Trade(open.value.buyBar, open.value.entryPrice, i, reason)];
          open := None;
      }
      BookStep(f, i, b, action, Book(open, trades));
      i := i + 1;
    }
    BookAfterExplained(f, |bars|);
  }

  /** The feed of a backtest carries its bars, fills, indicator and counters. */
  lemma FeedFacts(bars: seq<Bar>, fills: seq<real>)
    requires |fills| == |bars|
    ensures FeedOf(bars, fills).bars == bars && FeedOf(bars, fills).fills == fills
    ensures FeedOf(bars, fills).td == TdSetupCount(bars)
    ensures forall j :: 0 <= j < |bars| ==> FeedOf(bars, fills).states[j] == SellStateAfter(bars, j + 1)
  {
  }

  /**
   * One pass of the loop: the action the call on bar i returns can be applied
   * to the book (a buy only when flat, a close only with a position open) ...
   */
  lemma BookStepApplies(f: Feed, i: nat, b: Book, a: Action)
    requires f.Valid() && i < |f.bars| && b == BookAfter(f, i)
    requires i + 1 < MinBars ==> a == Hold
    requires MinBars <= i + 1 ==> a == Decide(f.states[i], f.bars, f.td, i, EntryOf(b.open))
    ensures a.Buy? ==> b.open.None?
    ensures a.Close? ==> b.open.Some?
  {
  }

  /** ... and applying it gives the book after bar i. */
  lemma BookStep(f: Feed, i: nat, b: Book, a: Action, r: Book)
    requires f.Valid() && i < |f.bars| && b == BookAfter(f, i)
    requires i + 1 < MinBars ==> a == Hold
    requires MinBars <= i + 1 ==> a == Decide(f.states[i], f.bars, f.td, i, EntryOf(b.open))
    requires a.Buy? ==> b.open.None?
    requires a.Close? ==> b.open.Some?
    requires r == Apply(b, a, i, f.fills[i])
    ensures r == BookAfter(f, i + 1)
  {
  }

  /** Bars before the fifteenth open no position. */
  lemma {:induction false} WarmUpOpensNothing(f: Feed, n: nat)
    requires f.Valid() && n < MinBars && n <= |f.bars|
    ensures BookAfter(f, n) == Book(None, [])
  {
    if n > 0 {
      WarmUpOpensNothing(f, n - 1);
    }
  }

  // ---------------------------------------------------------------------
  // What the ledger means

  /** No bar in lo..hi-1 that the strategy evaluates shows a buy signal. */
  predicate NoBuyBetween(f: Feed, lo: nat, hi: nat)
    requires f.Valid() && hi <= |f.bars|
  {
    forall j :: lo <= j < hi && MinBars <= j + 1 ==> !BuySignal(f.bars, f.td, j)
  }

  /** Bar j would close a position bought at entryPrice: the stop or a sell signal. */
  predicate ExitSignal(f: Feed, j: nat, entryPrice: real)
    requires f.Valid() && j < |f.bars|
  {
    f.bars[j].low <= StopLevel(entryPrice) || ShouldSell(f.states[j])
  }

  predicate NoExitBetween(f: Feed, lo: nat, hi: nat, entryPrice: real)
    requires f.Valid() && hi <= |f.bars|
  {
    forall j :: lo <= j < hi ==> !ExitSignal(f, j, entryPrice)
  }

  /** The first bar after the last closed trade (0 for an empty ledger). */
  function FlatFrom(trades: seq<Trade>): nat {
    if |trades| == 0 then 0 else trades[|trades| - 1].closeBar + 1
  }

  /**
   * A buy on buyBar is the first buy signal since bar flatFrom, on an
   * evaluated bar, filled at the supplied price.
   */
  predicate EntryExplained(f: Feed, buyBar: nat, entryPrice: real, flatFrom: nat)
    requires f.Valid()
  {
    flatFrom <= buyBar < |f.bars| && MinBars <= buyBar + 1 &&
    BuySignal(f.bars, f.td, buyBar) &&
    NoBuyBetween(f, flatFrom, buyBar) &&
    entryPrice == f.fills[buyBar]
  }

  /**
   * A closed trade is an explained entry followed by the first exit signal
   * after it, with the stop taking priority over the sell signal.
   */
  predicate TradeExplained(f: Feed, n: nat, t: Trade, flatFrom: nat)
    requires f.Valid() && n <= |f.bars|
  {
    EntryExplained(f, t.buyBar, t.entryPrice, flatFrom) &&
    t.buyBar < t.closeBar < n &&
    NoExitBetween(f, t.buyBar + 1, t.closeBar, t.entryPrice) &&
    ExitSignal(f, t.closeBar, t.entryPrice) &&
    (t.reason == StopLoss <==> f.bars[t.closeBar].low <= StopLevel(t.entryPrice))
  }

  /** Every closed trade is explained, each against the close of the one before. */
  predicate TradesExplained(f: Feed, n: nat, trades: seq<Trade>)
    requires f.Valid() && n <= |f.bars|
  {
    forall k :: 0 <= k < |trades| ==> TradeExplained(f, n, trades[k], FlatFrom(trades[..k]))
  }

  /** The book is what the entry and exit rules give on bars 0..n-1. */
  predicate LedgerExplained(f: Feed, n: nat, b: Book)
    requires f.Valid() && n <= |f.bars|
  {
    TradesExplained(f, n, b.trades) &&
    match b.open
    case None => FlatFrom(b.trades) <= n && NoBuyBetween(f, FlatFrom(b.trades), n)
    case Some(p) =>
      p.buyBar < n &&
      EntryExplained(f, p.buyBar, p.entryPrice, FlatFrom(b.trades)) &&
      NoExitBetween(f, p.buyBar + 1, n, p.entryPrice)
  }

  lemma TradesExplainedWiden(f: Feed, n: nat, trades: seq<Trade>)
    requires f.Valid() && 0 < n <= |f.bars|
    requires TradesExplained(f, n - 1, trades)
    ensures TradesExplained(f, n, trades)
  {
    forall k | 0 <= k < |trades|
      ensures TradeExplained(f, n, trades[k], FlatFrom(trades[..k]))
    {
      assert TradeExplained(f, n - 1, trades[k], FlatFrom(trades[..k]));
    }
  }

  /** A flat bar without a buy signal keeps the book explained. */
  lemma FlatHoldStep(f: Feed, n: nat, b: Book)
    requires f.Valid() && 0 < n <= |f.bars| && b.open.None?
    requires LedgerExplained(f, n - 1, b)
    requires MinBars <= n ==> !BuySignal(f.bars, f.td, n - 1)
    ensures LedgerExplained(f, n, b)
  {
    TradesExplainedWiden(f, n, b.trades);
  }

  /** A flat bar with a buy signal opens an explained position. */
  lemma FlatBuyStep(f: Feed, n: nat, b: Book)
    requires f.Valid() && MinBars <= n <= |f.bars| && b.open.None?
    requires LedgerExplained(f, n - 1, b)
    requires BuySignal(f.bars, f.td, n - 1)
    ensures LedgerExplained(f, n, Book(Some(Position(n - 1, f.fills[n - 1])), b.trades))
  {
    TradesExplainedWiden(f, n, b.trades);
  }

  /** A bar with a position open and no exit signal keeps the book explained. */
  lemma OpenHoldStep(f: Feed, n: nat, b: Book)
    requires f.Valid() && 0 < n <= |f.bars| && b.open.Some?
    requires LedgerExplained(f, n - 1, b)
    requires !ExitSignal(f, n - 1, b.open.value.entryPrice)
    ensures LedgerExplained(f, n, b)
  {
    TradesExplainedWiden(f, n, b.trades);
  }

  /** A bar with a position open and an exit signal closes it into an explained trade. */
  lemma OpenCloseStep(f: Feed, n: nat, b: Book, reason: CloseReason)
    requires f.Valid() && 0 < n <= |f.bars| && b.open.Some?
    requires LedgerExplained(f, n - 1, b)
    requires ExitSignal(f, n - 1, b.open.value.entryPrice)
    requires reason == StopLoss <==> f.bars[n - 1].low <= StopLevel(b.open.value.entryPrice)
    ensures LedgerExplained(f, n, Book(None, b.trades + [Trade(b.open.value.buyBar, b.open.value.entryPrice, n - 1, reason)]))
  {
    var p := b.open.value;
    var t := Trade(p.buyBar, p.entryPrice, n - 1, reason);
    var trades' := b.trades + [t];
    TradesExplainedWiden(f, n, b.trades);
    assert trades'[..|b.trades|] == b.trades;
    forall k | 0 <= k < |trades'|
      ensures TradeExplained(f, n, trades'[k], FlatFrom(trades'[..k]))
    {
      if k < |b.trades| {
        assert trades'[..k] == b.trades[..k];
      }
    }
  }

  /** Every run's book is explained by the entry and exit rules. */
  lemma {:induction false} BookAfterExplained(f: Feed, n: nat)
    requires f.Valid() && n <= |f.bars|
    ensures LedgerExplained(f, n, BookAfter(f, n))
  {
    if n > 0 {
      BookAfterExplained(f, n - 1);
      var b := BookAfter(f, n - 1);
      if n < MinBars {
        FlatHoldStep(f, n, b);
      } else {
        var a := Decide(f.states[n - 1], f.bars, f.td, n - 1, EntryOf(b.open));
        match b.open
        case None =>
          if a.Buy? {
            FlatBuyStep(f, n, b);
          } else {
            FlatHoldStep(f, n, b);
          }
        case Some(p) =>
          if a.Close? {
            OpenCloseStep(f, n, b, a.reason);
          } else {
            OpenHoldStep(f, n, b);
          }
      }
    }
  }

  /**
   * Trades never overlap: each is closed on a later bar than it was bought,
   * and the next one is bought only after it was closed.
   */
  lemma TradesOrdered(f: Feed, n: nat, ts: seq<Trade>)
    requires f.Valid() && n <= |f.bars| && TradesExplained(f, n, ts)
    ensures forall k :: 0 <= k < |ts| ==> ts[k].buyBar < ts[k].closeBar
    ensures forall k, l :: 0 <= k < l < |ts| ==> ts[k].closeBar < ts[l].buyBar
  {
    forall k | 0 < k < |ts| ensures ts[k - 1].closeBar < ts[k].buyBar {
      assert TradeExplained(f, n, ts[k], FlatFrom(ts[..k]));
      assert ts[..k][k - 1] == ts[k - 1];
    }
    forall k, l | 0 <= k < l < |ts| ensures ts[k].closeBar < ts[l].buyBar {
      ChainOrdered(ts, k, l);
    }
  }

  /** The open position was bought after the last trade was closed. */
  lemma OpenAfterTrades(f: Feed, n: nat, b: Book)
    requires f.Valid() && n <= |f.bars| && LedgerExplained(f, n, b) && b.open.Some?
    ensures forall k :: 0 <= k < |b.trades| ==> b.trades[k].closeBar < b.open.value.buyBar
  {
    TradesOrdered(f, n, b.trades);
  }

  lemma {:induction false} ChainOrdered(ts: seq<Trade>, k: nat, l: nat)
    requires k < l < |ts|
    requires forall j :: 0 <= j < |ts| ==> ts[j].buyBar < ts[j].closeBar
    requires forall j :: 0 < j < |ts| ==> ts[j - 1].closeBar < ts[j].buyBar
    ensures ts[k].closeBar < ts[l].buyBar
  {
    if k + 1 < l {
      ChainOrdered(ts, k, l - 1);
    }
  }

  /** Without a buy setup of 13 bars anywhere, the run opens no position at all. */
  lemma {:induction false} NoBuySetupNoTrades(f: Feed, n: nat)
    requires f.Valid() && n <= |f.bars|
    requires forall i :: 0 <= i < |f.td| ==> f.td[i] < BuySetupTarget
    ensures BookAfter(f, n) == Book(None, [])
  {
    if n > 0 {
      NoBuySetupNoTrades(f, n - 1);
    }
  }

  /**
   * A series whose close never drops below the close four bars back (a flat
   * series is one) never builds a buy setup, so its run opens no position.
   */
  lemma NoDownClosesNoTrades(bars: seq<Bar>, fills: seq<real>)
    requires |fills| == |bars|
    requires forall i :: 4 <= i < |bars| ==> bars[i].close >= bars[i - 4].close
    ensures BookAfter(FeedOf(bars, fills), |bars|) == Book(None, [])
  {
    var f := FeedOf(bars, fills);
    forall i | 0 <= i < |bars| ensures f.td[i] < BuySetupTarget {
      BarsLastCountStep(BuyCondition(bars), i);
    }
    NoBuySetupNoTrades(f, |bars|);
  }
}
