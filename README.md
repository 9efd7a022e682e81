# Smart-money signal bot: detectors and trade ledger in Dafny

This project models the decision and bookkeeping core of `SmartMoneyBot`
(`smart_money_bot.py`, constants from `config.py`). The bot scans a universe of
coins. For each coin without an open trade it fetches candles and runs two
price-action detectors: break of structure (BOS) and liquidity sweep. If either
detector fires, it picks a side, sizes a stop and three take-profit targets from
the average true range (ATR), and opens a trade. After the scan it manages every
open trade against the latest price. A trade can stop out as a loss, mark its
first two targets, or close as a win on the third. Wins and losses are counted
per coin.

Modules, one per part of the program:

- `Types` (types.dfy): `Option`, and `Res` for calls that either return or raise
  (`IndexError`, `ValueError`, and `FetchError` for a failed HTTP request).
  Symbols and sides are strings, as in the bot's JSON records.
- `Candles` (candles.dfy): the candle, reduced to its high, low and close. Also
  Python's `s[-k:]` (`Tail`), `max`/`min` over highs and lows, and the
  quantified predicates the detector contracts use.
- `Indicators` (indicators.dfy): `bos_choch`, `liquidity_sweep` and `atr`.
  `atr` is a method with the source's loop, proved against the function `AtrOf`.
- `Ledger` (ledger.dfy): trade records and counter entries. Also the pure rules:
  the record `open_trade` writes, the side selection of the scan, the
  management verdict of `manage_trade` (hold time, stop, ladder), the counter
  update of `close_trade`, the filter of `clean_trades`, and per-symbol
  predicates for a management pass.
- `SmartMoney` (bot.dfy): class `Bot` with the mutable fields `trades`, `stats`
  and `symbols`. Its methods are the four ledger operations, the scan step for
  one symbol, the scan loop, the management loop and one iteration of `run`.
  The object invariant `Valid()` says every record has a side. The constructor
  establishes it by running `clean_trades`, as `__init__` does.

Every HTTP result is a parameter: the coin list, the candle list per symbol
(a missing entry is a failed request) and the price per symbol. So are the two
loaded JSON files and the clock (`now`). Prices and times are `real`.

Notes on what the code does, which the model follows:

- The BOS window is the last 20 candles *including* the final one. So BOS cannot
  fire when the final candle's close lies between its own low and high
  (`Indicators.BosSilentOnOrdinaryLastCandle`).
- The side is "BUY" when either detector votes buy, so a buy sweep overrides a
  sell BOS (`Ledger.Decide`).
- The stop and all three targets are multiples of d = 1.5 × ATR: the stop is 1d
  away, the targets 1d, 2d and 3d.
- `atr` averages the 13 true ranges of candles 1..13 against the previous close.
  ATR therefore reads the first 14 candles of the list, while the detectors read
  its end. A list of fewer than 14 candles makes `atr` raise IndexError; the
  model returns `Raised`.
- The management pass runs after the scan.

## Model

| member | source | states |
|---|---|---|
| `Candles.MaxHigh` | smart_money_bot.py:105 | the result is a high of the window and no high of the window exceeds it |
| `Candles.MinLow` | smart_money_bot.py:106 | the result is a low of the window and no low of the window is below it |
| `Indicators.BosChoch` | smart_money_bot.py:100-112 | raises IndexError exactly on an empty list; BOS_BUY iff the last close is strictly above every high of the last min(n, 20) candles (the last one included); BOS_SELL iff not that and the close is strictly below every low of that window; otherwise None |
| `Indicators.BosIsStrict` | smart_money_bot.py:108-111 | a close equal to the window's highest high is not BOS_BUY, and one equal to its lowest low is not BOS_SELL |
| `Indicators.BosSilentOnOrdinaryLastCandle` | smart_money_bot.py:103-109 | because the window contains the final candle, BOS returns None whenever that candle's low <= close <= high |
| `Indicators.Prior` | smart_money_bot.py:115-123 | the earlier candles of the last min(n, 10): the min(n, 10) - 1 candles just before the final one, in order |
| `Indicators.LiquiditySweep` | smart_money_bot.py:114-127 | IndexError on 0 candles, ValueError on 1; otherwise SWEEP_HIGH_SELL iff the final high is above every earlier high of the window and the close is below some earlier high; else SWEEP_LOW_BUY iff the mirrored low condition holds; else None |
| `Indicators.TrueRange` | smart_money_bot.py:97 | the true range is at least each of h - l, abs(h - pc) and abs(l - pc), equals one of them, and is never negative |
| `Indicators.TrueRangeSum` | smart_money_bot.py:93-97 | the sum of true ranges of candles 1..n-1 is never negative |
| `Indicators.AtrOf` | smart_money_bot.py:91-98 | the ATR of a list of at least 14 candles is never negative |
| `Indicators.TrueRangeSumPrefix` | smart_money_bot.py:93-96 | the sum up to n depends only on the first n candles |
| `Indicators.AtrReadsFirstCandlesOnly` | smart_money_bot.py:91-98 | two lists that agree on kl[0..13] have the same ATR |
| `Indicators.Atr` | smart_money_bot.py:91-98 | the loop raises IndexError exactly when there are fewer than 14 candles, and otherwise returns the mean of the 13 true ranges |
| `Ledger.NewTrade` | smart_money_bot.py:147-158 | side, entry and open time are recorded and the hit list is empty; stop and targets are spaced 1.5 × ATR apart, against the side for the stop and in its favour for the targets; with ATR > 0, sl < entry < tp1 < tp2 < tp3 for BUY, reversed otherwise |
| `Ledger.Decide` | smart_money_bot.py:220-225 | nothing iff both detectors are silent; BUY iff BOS_BUY or SWEEP_LOW_BUY; SELL iff some detector votes sell and none votes buy |
| `Ledger.Evaluate` | smart_money_bot.py:216-228 | 0 and 1 candles raise IndexError and ValueError; a list of at least 14 never raises; quiet iff both detectors return None; with a signal but fewer than 14 candles it raises; an entry uses the last close, the list's ATR and the side Decide picks |
| `Ledger.Ladder` | smart_money_bot.py:194-203 | closes as a win iff "tp3" is not yet marked and tp3 is reached, whatever the tp1/tp2 marks; otherwise keeps every level, only appends "tp1" and/or "tp2" (each absent before), and marks each iff it was marked or its level is reached |
| `Ledger.Manage` | smart_money_bot.py:176-203 | within MIN_HOLD_SECONDS nothing changes; SL loss iff held and BUY price <= sl or SELL price >= sl (a loaded record with any other side never stops out), checked before any target; a target counts as reached at price >= level for BUY and price <= level for every other side; TP3 win iff held, the stop intact, "tp3" unmarked and tp3 reached; a kept record keeps side, entry, sl, targets and open time, and its hit list only grows |
| `Ledger.GrowsKeepsDistinct` | smart_money_bot.py:194-200 | appending labels the way the ladder does never marks a label twice |
| `Ledger.OpenedLadderInOrder` | smart_money_bot.py:149-158 | a freshly opened trade with ATR >= 0 has tp1 and tp2 in ladder order (tp1 nearer the entry) and no marks |
| `Ledger.ManageKeepsLadderInOrder` | smart_money_bot.py:187-200 | on an ordered ladder, "tp2" is never marked without "tp1" |
| `Ledger.ManageAllKeepsRecord` | smart_money_bot.py:176-203 | over any number of management passes a surviving trade keeps its levels, its hit list only grows, no label is marked twice, and ladder order is kept |
| `Ledger.Bump` | smart_money_bot.py:172 | exactly one of wins/losses goes up by one, according to the outcome |
| `Ledger.Tally` | smart_money_bot.py:171-172 | creates a zero entry for the symbol if missing, raises only its wins (or losses) by one, and leaves every other symbol's entry unchanged |
| `Ledger.WithSide` | smart_money_bot.py:39-42 | keeps exactly the records that have a side, each unchanged |
| `Ledger.WithSideIdempotent` | smart_money_bot.py:39-42 | cleaning twice is cleaning once |
| `Ledger.ManageStep` | smart_money_bot.py:233-234 | managing one symbol settles it, adds a counter entry only if it closed the record, and leaves every other symbol's record and counters as they were |
| `Ledger.ManagedConsequences` | smart_money_bot.py:233-234 | after a pass, only original records remain, each with its levels and an extended hit list; a symbol's counters change only if its record was closed, by exactly one |
| `SmartMoney.Bot.constructor` | smart_money_bot.py:31-35 | the ledger is the loaded trades without side-less records, and the loaded stats |
| `SmartMoney.Bot.CleanTrades` | smart_money_bot.py:39-43 | after deleting key by key, trades is the filter WithSide of the old trades; afterwards every record has a side |
| `SmartMoney.Bot.OpenTrade` | smart_money_bot.py:143-158 | with MAX_TRADES or more records nothing changes; otherwise only trades[symbol] is written, with the NewTrade record; the count never exceeds max(old count, MAX_TRADES) |
| `SmartMoney.Bot.CloseTrade` | smart_money_bot.py:169-174 | stats become Tally(stats, symbol, win) and the symbol's record is deleted |
| `SmartMoney.Bot.ManageTrade` | smart_money_bot.py:176-192 | an absent symbol changes nothing; otherwise the ledger is the Manage verdict applied: record replaced, or deleted with the counter update |
| `SmartMoney.Bot.TakeProfits` | smart_money_bot.py:194-203 | the ledger is the Ladder verdict applied to the symbol's record |
| `SmartMoney.Bot.ScanSymbol` | smart_money_bot.py:213-231 | skipped iff the symbol already has a trade; a failed fetch or any detector/ATR exception changes nothing; otherwise Evaluate decides, and an entry writes NewTrade unless MAX_TRADES records exist |
| `SmartMoney.Bot.Scan` | smart_money_bot.py:212-231 | existing records are untouched, every new record belongs to a symbol of the universe, is BUY or SELL, opened now with no marks, and the count stays within max(old count, MAX_TRADES) |
| `SmartMoney.Bot.ManagePass` | smart_money_bot.py:233-234 | every record present at the start is either untouched or managed exactly once at its fetched price; the pass fails, with FetchError, iff some record has no price, and otherwise managed all of them; counter entries are added only for the symbols whose record was closed; nothing else changes |
| `SmartMoney.Bot.RunCycle` | smart_money_bot.py:210-236 | scan then management; the count stays within max(old count, MAX_TRADES), every key is an old key or a symbol of the universe, and every record has a side |

## Left out

- HTTP calls (`fetch_top_coins`, `klines`, `price`, `send`): their results are parameters. Notifications, and the message texts with their formatting, are not modelled.
- File I/O (`load_json`, `save_json` and the calls to it): the loaded files are constructor parameters. Writing them back is not modelled.
- Loaded records whose side is present but whose other fields are missing or not numbers, and counter entries without `wins`/`losses`: the model's records always have every numeric field. The source raises KeyError or TypeError only when it reaches such a field: `entry` is never read after opening, `sl` only for a BUY or SELL record, a target only while its label is unmarked, and of a counter entry only the field it increments.
- The `while True` loop, `time.sleep` and the printed error: `RunCycle` models one iteration. An exception ends that iteration and is returned.
- `time.time()`: a single `now` per call stands for the clock readings of one iteration.
- Float parsing and float rounding: prices and times are exact `real`s.
- The `length` parameter of `atr`: only its default, 14, is used by the bot and modelled.
- Iteration order: `CleanTrades` and `ManagePass` visit records in an arbitrary order, not insertion order. The cleaning result does not depend on order. In a pass that fails part-way, order decides which records were managed before the failure.
- `SmartMoney.Bot.RunCycle`: states the bound, the key range and the invariant only. The record-by-record outcome is stated by `Scan`, `ScanSymbol` and `ManagePass`.
- `SmartMoney.Bot.Scan`: does not state which universe symbols were opened, nor when the scan stops early (the failure it returns). Both are stated per symbol by `ScanSymbol`.
- `config.py` plumbing (environment lookups, the symbol list, interval names) is not part of the model; only the constants the core reads are.
