# Binance alt/stable swap bot: a verified model of its trading core

This project models the trading core of `crypto_trading.py`, a bot that watches
a Binance account's deposits and can sell deposited altcoins for a stable coin.
It covers:

- the two market-data lookups, the ticker price of a pair and the free balance
  of an asset (`MarketData`);
- the lot-size quantizer, which turns a balance into an order quantity using
  the pair's `LOT_SIZE` step size (`LotSize`);
- the `retry(howmany)` decorator (`Retry`);
- `sell_alt`, one sell attempt: quantity, balance snapshot, market sell, the
  two order-status polling loops and the balance-settlement loop. The model
  also covers `sell_alt` wrapped in `retry(20)` (`SellProtocol`);
- the deposit-history filter and the scout's selection of deposits
  (`Deposits`);
- the HTML formatter of the Telegram log handler, `LogstashFormatter.format`
  (`LogFormat`).

The exchange client is not code this model can see. It becomes a script
(`SellProtocol.Exchange`): for each client call the protocol makes, a sequence
of replies, each either a value or a raised exception (`Wrappers.Reply`). A
`Cursors` value records how many replies of each kind have been consumed.
Every polling loop consumes one reply per iteration. A run therefore either
ends the way the source ends or reaches the end of a script (`OutOfScript`),
where the real bot would still be polling.

Exceptions the bot raises itself are modelled explicitly:

- looking up a missing `ticks` key is `KeyError`;
- arithmetic on, or comparison with, a `None` balance is `TypeError`.

Clocks are parameters: `now` for `time.time()`, `t` for the formatted UTC
timestamp. Amounts are exact reals.

## Where the code departs from its evident intent

The model follows the code wherever it differs from the intent that its names,
docstrings and the exchange's conventions make evident.

- Quantizer precision. The exchange writes a lot size as a step such as
  "0.001", meaning quantities in multiples of 0.001. The precision is
  `stepSize.find('1') - 2` (line 144). For the step "0.001" that gives 2
  decimals, not 3, so a balance of 0.123456 sells 0.12, not
  0.123 (`LotSize.CoarserThanStep`). For the step "1.00000000" it gives -2, so
  quantities are floored to whole hundreds (`LotSize.WholeUnitStepFloorsToHundreds`).
- Zero quantities. A zero quantity is not refused. A zero balance plans a sell
  of 0 (`SellProtocol.ZeroBalancePlansZeroSale`), and every market sell of an
  attempt uses the planned quantity (`SellProtocol.SellAlt`).
- Query window. The function's name,
  `get_24_hours_deposit_history_for_all_coins`, promises 24 hours, but line 205
  asks for 60 days of history (`Deposits.QueryWindowSpansSixtyDays`).
- Deposit filter. The scout's docstring (line 219) says it keeps only the
  transactions of the last 24 hours. The filter compares a time in milliseconds
  with `now * 86400`, so it keeps every deposit the query can return
  (`Deposits.RecentKeepsWindow`), including ones older than the window
  (`Deposits.OldDepositsPass`). It does not select the deposits of any recent
  period.
- Scout. The scout only reports its candidates. The call to `sell_alt` on line
  233 is commented out (`Deposits.Scout`).
- Retry counter. The parameter `howmany` and the loop `while attempts <
  howmany` suggest at most `howmany` tries, but the counter stops at 1,
  because it is raised only while it is 0 (lines 105-112). With `howmany >= 2` the wrapper therefore never gives up
  (`Retry.RetryUntilReturn`, `SellProtocol.SellAltRetried`).

## Model

| member | source | states |
|---|---|---|
| MarketData.TickerPrice | crypto_trading.py:117-124 | The price is `None` exactly when no ticker has the symbol; otherwise it is the price of the first ticker with that symbol. |
| MarketData.FreeBalance | crypto_trading.py:127-134 | The balance is `None` exactly when no entry has the asset; otherwise it is the free amount of the first entry with that asset. |
| MarketData.CurrencyBalance | crypto_trading.py:131 | A client exception propagates; a fetched account yields a result that is `None` exactly when the asset is absent. |
| MarketData.FreeBalanceSkipsOtherAssets | crypto_trading.py:131-134 | Entries of other assets in front of the list do not change the lookup. |
| LotSize.FindChar | crypto_trading.py:144 | `str.find`: -1 exactly when the character is absent, otherwise the index of its first occurrence. |
| LotSize.StepPrecision | crypto_trading.py:144 | The precision is the index of the first '1' in the step size minus two, and -3 exactly when the step size has no '1'. |
| LotSize.LotSizePrecision | crypto_trading.py:143-146 | `None` exactly when no filter is `LOT_SIZE`; otherwise the precision of the first `LOT_SIZE` filter. |
| LotSize.ReadLotSize | crypto_trading.py:142-146 | The loop stores at most the traded asset's key, stores it exactly when a `LOT_SIZE` filter exists, and stores the first such filter's precision. |
| LotSize.Quantize | crypto_trading.py:147-148 | The whole balance is kept exactly when it is already a whole number of units of 10^-p. |
| LotSize.QuantizeBounds | crypto_trading.py:147-148 | The quantity is at most the balance, is within one unit of 10^-p below it, is a whole number of such units, and is not negative for a non-negative balance. |
| LotSize.QuantizeIdempotent | crypto_trading.py:147-148 | Quantizing a quantized amount again changes nothing. |
| LotSize.QuantizeIsLargest | crypto_trading.py:147-148 | No whole number of units of 10^-p that the balance covers exceeds the quantity. |
| LotSize.QuantizeZero | crypto_trading.py:147-148 | A zero balance gives a zero quantity at every precision. |
| LotSize.DecimalStepPrecision | crypto_trading.py:144 | A step of 10^-(k+1), with any trailing zeros, yields precision k. |
| LotSize.StepPrecisionExamples | crypto_trading.py:144 | "0.001" and "0.00100000" give 2, "0.00000001" gives 7, "1.00000000" gives -2. |
| LotSize.QuantizeToCents | crypto_trading.py:147-148 | 0.123456 at precision 2 is 0.12. |
| LotSize.QuantizeToHundreds | crypto_trading.py:147-148 | At precision -2, 150 becomes 100 and 99 becomes 0. |
| LotSize.QuantizeWholeToSevenDecimals | crypto_trading.py:147-148 | 2 at precision 7 stays 2. |
| LotSize.CoarserThanStep | crypto_trading.py:144-148 | With step "0.001", 0.123456 sells 0.12 and leaves at least one step unsold. |
| LotSize.WholeUnitStepFloorsToHundreds | crypto_trading.py:144-148 | With step "1.00000000", 150 sells 100 and 99 sells 0. |
| LotSize.FineStepKeepsWholeBalance | crypto_trading.py:144-148 | With step "0.00000001", a balance of 2 sells 2. |
| Retry.RunRetry | crypto_trading.py:100-114 | The decorator's loop ends, calls and logs exactly as the run specification `RetryFrom` from a zero counter. |
| Retry.RetryNeverCalls | crypto_trading.py:105 | With `howmany <= 0` the function is never called and `None` is returned. |
| Retry.RetryOnce | crypto_trading.py:105-112 | With `howmany == 1` there is one call: its value is returned, or its exception is logged and `None` is returned. |
| Retry.RetryKeepsCalling | crypto_trading.py:105-112 | Once the counter is 1 and `howmany >= 2`, nothing more is logged, the wrapper never gives up, and it returns the first value returned. |
| Retry.RetryUntilReturn | crypto_trading.py:100-114 | With `howmany >= 2` the wrapper never gives up and logs only the first exception. It returns exactly when some call returns, and then returns the first such value. |
| Retry.RetryAfterFailures | crypto_trading.py:105-112 | Failures followed by a returning call yield that call's value; failures alone exhaust the calls, provided `howmany` allows the calls made. |
| SellProtocol.PlaceOrder | crypto_trading.py:153-158 | Every call sells the quantity of the pair, and every reply before the last was `None`. The phase ends with the first non-`None` order, with the first exception, or at the end of the replies. |
| SellProtocol.AwaitRecorded | crypto_trading.py:164-177 | The phase never fails; every reply before the last raised, and the status returned is the first reply that did not raise. |
| SellProtocol.AwaitFilled | crypto_trading.py:179-190 | A FILLED first status makes no call. Otherwise no reply before the last reports FILLED, and the phase ends at the first one that does; it never fails. |
| SellProtocol.AwaitBalanceDrop | crypto_trading.py:192-194 | It ends at the first reading below the snapshot, with every earlier reading at least the snapshot. A failure is the exception of the last reading, or `TypeError` when that reading or the snapshot is `None`; with a `None` snapshot exactly one reading is made. Running out means every reading left was at least the snapshot. |
| SellProtocol.PlanSale | crypto_trading.py:141-151 | The quantity is the quantized first reading at the first `LOT_SIZE` precision, and the snapshot is the second reading. A failure is the exception of the read that raised, `KeyError` for a missing filter or `TypeError` for a missing balance (`PlanFailed`). Running out means the read in progress had no reply left (`PlanRanOut`). No order is placed. |
| SellProtocol.ExecuteSale | crypto_trading.py:153-198 | Every market sell is for the given quantity. A completed execution placed the first non-`None` order, stopped polling at the first FILLED status, and stopped at the first balance below the snapshot. A failure comes from the placement or, after FILLED, from the balance phase (`ExecFailed`). Running out happens in exactly one phase, with the earlier phases complete (`ExecRanOut`). |
| SellProtocol.SellAlt | crypto_trading.py:137-198 | A completed attempt is `Settled`: the quantity was planned from the first reading, FILLED was seen, and the balance then dropped below the snapshot. A failed attempt or one that ran out is pinned to the reply responsible (`AttemptRun`). Every call names the pair `alt + quote`. Each market sell uses the planned quantity. In every attempt, completed or not, each order query uses the id of the order that the placement replies returned. An order is placed only after planning succeeded. |
| SellProtocol.ZeroBalancePlansZeroSale | crypto_trading.py:147-158 | A first reading of 0 plans a sell of quantity 0, which nothing refuses. |
| SellProtocol.SellAltRetried | crypto_trading.py:100-114 | Each attempt starts where the previous ended and ends as `AttemptRun` says. The result is what `RetryFrom` specifies for the attempts' outcomes, and all but the last attempt failed. With `howmany >= 2` the wrapper never gives up. A returned order comes from a `Settled` final attempt, and `Exhausted` means the final attempt ran out of replies. |
| SellProtocol.SellRetriesNeverGiveUp | crypto_trading.py:136 | With the 20 tries `sell_alt` is decorated with, the wrapper never gives up, whatever the attempts raise. |
| Deposits.Trunc | crypto_trading.py:205 | Python's `int`: the truncation lies within one of its argument, on the side of zero. |
| Deposits.QueryWindow | crypto_trading.py:205 | The window starts no later than it ends, and for a clock at or after the epoch it ends no later than `now` in milliseconds. |
| Deposits.QueryWindowSpansSixtyDays | crypto_trading.py:205 | Past the first 60 days of the epoch the window is exactly 60 days long. |
| Deposits.RecentDeposits | crypto_trading.py:200-213 | The query asks for status 1 over `QueryWindow(now)`, a non-empty window. A client exception propagates; otherwise the result is the history filtered by `Recent`. |
| Deposits.RecentAppend | crypto_trading.py:209-213 | The filter distributes over concatenation, so it keeps order and decides each deposit alone. |
| Deposits.RecentMembers | crypto_trading.py:209-213 | A deposit is kept exactly when it is in the history and passes the comparison of line 210. |
| Deposits.RecentKeepsWindow | crypto_trading.py:205-213 | For a clock at or after the epoch, the filter keeps every deposit recorded up to the window's end. |
| Deposits.OldDepositsPass | crypto_trading.py:210 | A deposit recorded before the window's start passes the filter as well. |
| Deposits.Found | crypto_trading.py:229-234 | At most one coin is reported per deposit, and no stable coin is reported. |
| Deposits.Scout | crypto_trading.py:216-234 | Exceptions from the two fetches propagate in order; otherwise the reported coins are `Found` over the filtered history. |
| Deposits.FoundAppend | crypto_trading.py:229-234 | The scout's report distributes over concatenation of the history, so each deposit is decided alone and in order. |
| Deposits.FoundMembers | crypto_trading.py:229-234 | A coin is reported exactly when some deposit of that coin meets the line-231 condition against some balance entry. |
| Deposits.ScoutScenarios | crypto_trading.py:229-234 | 1 ETH deposited with 1.5 ETH free is reported; with 0.5 ETH free it is not; USDT and BUSD deposits never are. |
| LogFormat.Rendered | crypto_trading.py:60-71 | Every formatted message begins with the italic timestamp. |
| LogFormat.Format | crypto_trading.py:60-71 | The text built entry by entry is the rendering `Rendered` of the message. |
| LogFormat.BlocksAppend | crypto_trading.py:66-67 | Rendering a dictionary distributes over splitting its entries. |
| LogFormat.SingleEntryIsPlainEntry | crypto_trading.py:63-71 | A one-entry dictionary renders like the plain message of its entry. |
| LogFormat.PlainTextRecoverable | crypto_trading.py:71 | The text of a plain message can be read back from its rendering. |
| LogFormat.EntryRecoverable | crypto_trading.py:66-67 | Each dictionary entry appears in the rendering at the position that the earlier entries determine. |

## Left out

- Client I/O is a script of replies. The real client would keep answering
  where the script ends (`OutOfScript`).
- `get_symbol_info` is taken to reply with a filter list. If the client
  returned `None` for an unknown symbol, the bot would raise `TypeError`;
  the script expresses that as a `Raised(TypeError)` reply.
- Sleeps (`time.sleep` in `retry` and `sell_alt`) are not modelled; they
  do not influence results.
- Log lines and the `print` in `retry` are not modelled. Only the exceptions
  `retry` logs are kept (`RetryRun.logged`), and the coins the scout reports.
- Floating point is replaced by exact reals. This covers `float` conversions,
  `math.floor` and `10**p` with a negative `p`.
- Clock reads are parameters. The source reads `time.time()` once per use; the
  model uses one `now` for all uses in a call.
- `main` (lines 237-248) is not modelled: an endless loop of sleep, scout, and
  log-and-continue.
- The Telegram posting handler (lines 46-54) is not modelled: it sends the
  formatted text to the network.
- Configuration, logger setup and the TinyDB database (lines 20-44, 73-98)
  are not modelled.
- The `transaction_fee` and `multiplier` parameters of `scout` are not
  modelled, because the source never uses them.
- Record keys and values are represented by their string forms.
- `SellProtocol.SellAltRetried`: no lemma states that an attempt which raised
  after placing its order leaves that order standing while the next attempt
  places another. The attempt bounds record the placement replies of each
  attempt, but the consequence is not drawn.
- `SellProtocol.SellAlt`: the real attempt uses one evolving exchange; the
  script fixes the replies in advance. Replies cannot depend on the orders
  placed.
