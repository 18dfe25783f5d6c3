# TD Sequential strategy, modelled in Dafny

This project models the `TDSequentialStrategy` trading strategy of
`app.py`, a daily-bar backtest. The strategy has three parts:

- **The buy-side indicator.** `BARSLASTCOUNT` is computed once over the whole
  series. It is applied to the down-close condition `close[i] < close[i-4]`,
  and the result is `td_setup_count`.
- **Three sell-side counters.** `next` updates them in place on every
  evaluated bar. They are the setup count, the countdown-active flag and the
  countdown count.
- **One action per bar.** It is one of:
  - open a position, when none is open;
  - close the open position, on its 15% stop or on a completed sell
    setup/countdown;
  - do nothing.

The project has five modules:

- `Market` (`market.dfy`): bars, with prices as exact reals, and `Option`.
- `Indicators` (`indicators.dfy`): `BARSLASTCOUNT`, written the way pandas
  computes it. Every run of equal values gets a label, and the condition is
  summed within each run. Beside it are:
  - its recurrence;
  - a reference reading as "the length of the run of true values ending
    here", in both directions;
  - the warm-up value 0.
- `Strategy` (`strategy.dfy`):
  - the class `TDSequentialStrategy`, whose `const` fields are the series
    and the indicator, and whose mutable fields are the three counters;
  - its method `Next`, an imperative transcription of `next`;
  - the pure functions that specify it. `SellStep` gives the counter update
    and `Decide` gives the action.
- `Counters` (`counters.dfy`): the counters after a whole sequence of calls,
  and what they mean over the run:
  - the setup count is a run length;
  - the countdown-active flag means "the setup count has reached 9";
  - the countdown count is the number of qualifying bars since the last 9.
- `Backtest` (`backtest.dfy`): the runner loop. It creates the strategy, calls
  `Next` on every bar in time order, and keeps the one position slot and the
  ledger of closed trades. It is proved against `BookAfter`, and every
  ledger it produces is shown to be explained by the entry and exit rules:
  - each buy is the first buy signal since the last close;
  - each close is the first exit signal since the buy, with the stop checked
    before the sell signal;
  - trades never overlap.

Order fills belong to the backtesting library, which is not part of this
model. `Run` takes `fills[i]` as the price at which a buy issued on bar i is
filled. It treats each order as reflected in the position that the next call
sees. Same-bar execution at the close is the case `fills[i] == bars[i].close`.

Two points where a common reading of the TD rules differs from what
`app.py` computes; the model follows `app.py`:

- `BARSLASTCOUNT` (`app.py:40`) labels runs of equal condition values but
  sums the booleans within each run. On a run of false values it therefore
  gives 0, not the length of that run.
- The weak confirmation (hj38) compares against the highs of bars i-12..i-1:
  the slice `High[-13:-1]` (`app.py:81`) ends at i-1, not at i-2.

## Model

| member | source | states |
|---|---|---|
| Indicators.BuyCondition | app.py:21 | `close < close.shift(4)`: one value per bar, and false for the first four bars, where the shifted close is missing |
| Indicators.BarsLastCount | app.py:37-40 | the indicator has one value per bar of the condition it is applied to |
| Indicators.RunSumStep | app.py:40 | the per-run cumulative sum at i extends the value at i-1 by one on a true value (1 at index 0) and is 0 on a false value, including when a new run starts at i |
| Indicators.BarsLastCountStep | app.py:37-40 | the indicator's recurrence: r[i] = r[i-1] + 1 when the condition holds (r[0] = 1), else r[i] = 0 |
| Indicators.BarsLastCountIsTrailingRun | app.py:37-40 | r[i] is at most i+1; the last r[i] values up to i are all true; the value just before them, when there is one, is false |
| Indicators.TrailingRunIsBarsLastCount | app.py:37-40 | conversely, any run of len true values ending at i and preceded by a false value, or starting at index 0, gives exactly r[i] = len |
| Indicators.BarsLastCountNoLookAhead | app.py:37-40 | r[i] depends only on the condition up to i, so computing it once over the whole series is the same as computing it bar by bar |
| Indicators.BuyCountZeroInWarmUp | app.py:21 | for the first four bars the down-close condition compares against a missing value and is false, so the buy-side count is 0 |
| Strategy.TdSetupCount | app.py:21 | td_setup_count has one entry per bar, and the first four are 0 |
| Strategy.SellStep | app.py:62-74 | setup count > 0 exactly on a close above close[i-4], and otherwise previous + 1 or 0; the countdown is active exactly when it was or the setup count is 9; on the bar of a 9 the countdown count restarts and is 1 exactly on a close above high[i-2]; on any other bar it grows by at most 1, and does so exactly while active on a close above high[i-2] |
| Strategy.MaxHigh | app.py:81 | np.max of highs lo..hi-1: no high in the slice is above it, and some high in it equals it |
| Strategy.SetupComplete | app.py:77 | hj8: the setup count is 9 or 18 |
| Strategy.WeakConfirm | app.py:79-83 | hj38 holds if and only if the setup count is 9 and either a bar among i-12..i-1 has a higher high or the bar closed below its open |
| Strategy.CountdownComplete | app.py:85 | hj39: the countdown count is 13 |
| Strategy.ShouldSell | app.py:87 | should_sell: hj8 or hj39 |
| Strategy.ReversalConfirm | app.py:91-92 | hj31: close[i] > high[i-2] and close[i-1] <= high[i-3] |
| Strategy.SetupBreakout | app.py:94-95 | hj51_54: td_setup_count[i] >= 13 and close[i] > high[i-1] |
| Strategy.BuySignal | app.py:102 | the entry test: td_setup_count[i] >= 13 and (hj31 or hj51_54) |
| Strategy.StopLevel | app.py:107 | the stop price 0.85 x entry, which for a positive entry is positive and below the entry |
| Strategy.Decide | app.py:77-112 | buy exactly when flat, td_setup_count[i] >= 13, and either (close[i] > high[i-2] and close[i-1] <= high[i-3]) or close[i] > high[i-1]; stop-loss close exactly when a position is open and low[i] <= 0.85 x entry; sell close exactly when open, not stopped, and the setup count is 9 or 18 or the countdown count is 13; only an open position is closed |
| Strategy.TDSequentialStrategy.constructor | app.py:16-26 | the strategy holds the series and td_setup_count over it, and all three counters start at 0 / false |
| Strategy.TDSequentialStrategy.Next | app.py:42-112 | a call with fewer than 15 bars seen changes nothing and holds; otherwise the counters become SellStep of their old values and the action is Decide on the updated counters |
| Counters.SellStateAfter | app.py:42-74 | the three counters after `next` has run on bars 0..n-1 (unchanged before 15 bars, one counter update per later bar); neither count exceeds n |
| Counters.WarmUpKeepsInitialState | app.py:43-44 | after calls on bars 0..n-1 with n < 15 the counters are still at their initial values |
| Counters.SetupCountIsRunLength | app.py:63-66 | after bar n-1 the sell setup count is BARSLASTCOUNT, at n-1, of "evaluated bar closing above the close four bars back" |
| Counters.CountdownActiveIffSetupReachedNine | app.py:68-72 | the countdown is active after bar n-1 if and only if the setup count was 9 after some bar so far |
| Counters.CountdownStaysActive | app.py:68-69 | once active, the countdown stays active on every later bar |
| Counters.InactiveCountdownIsZero | app.py:72-74 | while the countdown has never been active its count is 0 |
| Counters.CountdownCountsSinceLastNine | app.py:68-74 | if bar k-1 was the last bar so far with setup count 9, then k-1 was an evaluated bar, the countdown is active, and its count is the number of bars from k-1 on that closed above the high two bars back |
| Counters.NineRisingClosesCompleteSetup | app.py:63-77 | nine evaluated bars in a row closing above the close four back, after one that did not, give a setup count of exactly 9, which is a completed setup (hj8) |
| Backtest.Apply | app.py:103-112 | the effect of `self.buy()` / `self.position.close()` on the position slot and ledger: the ledger only grows, by exactly one trade on a close, and a position is open afterwards exactly after a buy or after a hold with one open |
| Backtest.BookAfter | app.py:99-112 | the book after the calls on bars 0..n-1; twice the number of trades plus the open position is at most n, and an open position was bought on a bar before n |
| Backtest.Run | app.py:99-112 | a fresh strategy called on every bar in order, with each action applied to the position slot and ledger, ends with the book BookAfter gives, and that book is explained by the entry and exit rules |
| Backtest.WarmUpOpensNothing | app.py:43-44 | no position is opened and no trade recorded before the fifteenth bar |
| Backtest.FlatHoldStep | app.py:100-103 | a flat bar with no buy signal extends an explained ledger |
| Backtest.FlatBuyStep | app.py:100-103 | a flat bar with a buy signal opens a position whose entry is explained: first buy signal since the last close, filled at the supplied price |
| Backtest.OpenHoldStep | app.py:105-112 | a bar with a position open and neither stop nor sell signal keeps the position explained |
| Backtest.OpenCloseStep | app.py:105-112 | a bar with the stop or a sell signal closes the position into an explained trade, marked stop-loss exactly when the stop was hit |
| Backtest.BookAfterExplained | app.py:99-112 | every book the run produces is explained: each trade is the first buy signal since the previous close, then the first exit signal after it; an open position has had no exit signal since its buy |
| Backtest.TradesOrdered | app.py:100-112 | trades never overlap: each closes after it was bought, and each later trade is bought after every earlier one closed |
| Backtest.OpenAfterTrades | app.py:100-106 | the open position was bought after every closed trade was closed, so at most one position is open at a time |
| Backtest.NoBuySetupNoTrades | app.py:102 | when td_setup_count never reaches 13, the run opens no position |
| Backtest.NoDownClosesNoTrades | app.py:21 | a series whose close never drops below the close four bars back (a flat series, for one) produces an empty ledger and no open position |

## Left out

- The Streamlit page, its sidebar, metrics and chart (`app.py:114-206`): user interface only.
- `load_data` (`app.py:139-159`): network download and column clean-up.
- `Backtest(...)`, `bt.run()`, the statistics (return, win rate, drawdown, Sharpe ratio) and `bt.plot` with its HTML file (`app.py:168-198`): a foreign library, file I/O and floating-point statistics.
  - `Backtest.Run` stands in for the library's loop over the bars.
- Order fills, commission, cash and position size behind `self.buy()`, `self.position.close()` and `self.trades[-1].entry_price` (`app.py:103-112`): these belong to the backtesting library.
  - The fill price of a buy is an input (`fills`).
  - Every buy is taken to fill before the next call.
  - An order issued on the last bar, which the library may never fill, is still recorded.
  - The exit price of a trade is not modelled.
- Backtest.Run: a position still open after the last bar is reported as open, not force-closed; `bt.run()` closes it for its statistics, which are not modelled.
- Backtest.Run: calls `Next` from bar 0, while the library may start later, after its indicators' warm-up. Calls with fewer than 15 bars change nothing, so any start at or before bar 14 gives the same ledger.
- The volume moving average (`pandas_ta.sma`, `app.py:28-32`), its `try`/`except` read (`app.py:54-57`) and `volume_confirmed` (`app.py:101`): a foreign call whose only use is a value that gates nothing. Volume is therefore not part of `Bar`.
- The unused fields `tp_pct`, `current_structure_low` and `stop_loss_price` (`app.py:14, 34-35`).
- The `IndexError` branch (`app.py:90-97`): never taken. From 15 bars on, every look-back of `next` is in range, which the verifier checks for `Next`.
- Python floats and NaN: prices are exact reals. The only NaN behaviour modelled is that a comparison against the missing `shift(4)` values is false (`app.py:21`).
