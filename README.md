# Crypto watch-list OHLC pipeline — a Dafny model

This project models the computational core of `app_async.py`, a script that
turns a Notion watch-list into hourly, daily and weekly OHLC (open, high,
low, close, volume) candle data and momentum indicators. It has four parts.

- `watchlist.dfy` (module `Watchlist`) covers the two watch-list filters,
  `filter_for_coingecko` and `filter_for_binance`. A database page is a
  datatype with optional fields. Every lookup that can raise is an explicit
  failure: `entry["properties"]`, `entry["id"]`, and `[0]` on an empty list.
  One loop body models both filters, because the source copies the same loop
  with different property names.
- `klines.dfy` (module `Klines`) covers the kline pagination loop of
  `fetch_ohlc_binance`, driven by an oracle that answers each request with a
  page, a 429 or a client error. It also covers the per-symbol dictionary
  built by `fetch_ohlc_binance_multi`.
- `ohlc.dfy` (module `Ohlc`) covers `transform_and_save_multi`:
  - row parsing: the frame is built, projected to six columns, coerced to
    numbers and cleaned with `dropna`;
  - the hourly frame;
  - the per-symbol daily and weekly buckets, aggregated as first / max /
    min / last / sum.
- `indicators.dfy` (module `Indicators`) covers `analyze_trend` and
  `analyze_momentum` over `real` close prices. `None` stands for a pandas NaN.

`wrappers.dfy` holds the `Option` type.

In these places the code behaves differently from what a reader might
expect, and the model follows the code:

- Fetched pages are concatenated as they arrive. They are not sorted or
  de-duplicated. Each later request asks for rows before the first row of
  the page just received, so a history longer than one page arrives newest
  page first; only the sort inside `resample` puts the rows in time order.
- A 429 response uses up one iteration of the fixed budget. There is no
  separate retry limit.
- A client error returns an empty list for the symbol, not the partial data.
- `analyze_trend` returns `Range` for 1 to 49 closes, not `Unknown`. Only an
  empty series gives `Unknown`.
- The RSI state is `Neutral`, not `Unknown`, while RSI is NaN.
- RSI is defined from 14 closes on, not 15. The first `diff` is NaN, and
  `where(delta > 0, 0)` turns it into 0, so the window holds 14 values as
  soon as there are 14 rows.
- The MACD state is decided from the first close on, not from 26 closes.

## Model

| member | source | states |
|---|---|---|
| Watchlist.FirstContent | app_async.py:62 | `.get(key, [{}])[0]...get("content", None)`: an absent list reads as no content, and indexing raises exactly when the list is present and empty |
| Watchlist.ClassifyMatchesRule | app_async.py:58-70 | The loop body raises exactly when `Raises` holds. It accepts exactly when the entry qualifies (flag truthy with a missing flag counting as "true", and first id content present) and does not raise. An accepted record is `{id, symbol, api id}` read from the entry |
| Watchlist.StopIndex | app_async.py:57-73 | The index of the first entry whose reading raises: no entry before it raises, and the entry at it does |
| Watchlist.AcceptedIsKeepBeforeStop | app_async.py:57-73 | The filter keeps, in input order, exactly the qualifying entries before the first entry that raises |
| Watchlist.AcceptedNoLonger | app_async.py:56-73 | The output is never longer than the input |
| Watchlist.AcceptedAppend | app_async.py:57-73 | Filtering `a + b` is filtering `a` then `b` when `a` raises nowhere; a raise inside `a` hides `b` entirely |
| Watchlist.FilterWatchlist | app_async.py:93-110 | The appending loop returns exactly `Accepted(table)`: records appended in order, loop ended at the first raise, earlier records kept |
| Watchlist.FilterForCoingecko | app_async.py:49-84 | With 'Watchlist General' / 'ID API Coingecko', the result is the qualifying records before the first raising entry, and no longer than the table |
| Watchlist.FilterForBinance | app_async.py:86-121 | With 'Watchlist OHLC' / 'ID API Binance', the same rule |
| Klines.Budget | app_async.py:190 | The iteration count is `days*24//1000+1`: zero for negative `days`, otherwise the least `n >= 1` with `(n-1)*1000 <= 24*days < n*1000` |
| Klines.TraceBound | app_async.py:190-201 | At most `Budget(days)` requests are made, and fewer only when the last reply was an empty page or a client error |
| Klines.TraceReplies | app_async.py:186-199 | The first request is formed from the initial parameter and cursor, and the i-th reply is the source's answer to the i-th request |
| Klines.TraceCursor | app_async.py:191-203 | No reply before the last is terminal. After a 429 the next request is unchanged. After a page it carries that page's first open time, when that time is truthy |
| Klines.RequestIsLatestCursor | app_async.py:191-203 | In a chained trace, each request is the first open time of the most recent page whose first open time is truthy, or the first request's value when no such page came before it |
| Klines.FetchRequests | app_async.py:185-203 | Every request of a symbol's fetch carries the first open time of the most recent page whose first open time is truthy, and no `endTime` before such a page; 429s and pages starting at time 0 leave it unchanged |
| Klines.RunIsPagesOfTrace | app_async.py:188-209 | The loop's result is `None` if any reply was a client error. Otherwise it is the data held so far followed by every page's rows, in arrival order, with no sort and no de-duplication |
| Klines.FetchedIsPagesOfTrace | app_async.py:174-209 | One symbol's fetch makes at most `Budget(days)` requests and starts without a cursor. It returns the concatenated pages, or `[]` if any reply was a client error |
| Klines.RateLimitUsesAnIteration | app_async.py:190-197 | With one iteration, a 429 followed by a page yields nothing, whereas the same page served at once is kept: the 429 used up the iteration |
| Klines.FetchOhlc | app_async.py:174-209 | The loop returns `(symbol, Fetched(source, days))` |
| Klines.FetchOhlcMulti | app_async.py:211-221 | The dictionary's keys are exactly the requested symbols, and each value is that symbol's fetch |
| Ohlc.ParseRows | app_async.py:248-257 | Every parsed row carries the symbol it was parsed for |
| Ohlc.ParseRowsAppend | app_async.py:244-257 | Parsing keeps or drops each row on its own and keeps row order: parsing `a + b` is parsing `a` followed by parsing `b` |
| Ohlc.ParseRowsMembers | app_async.py:248-257 | A row is in the frame exactly when some raw row whose five numeric fields coerce projects to it; the frame is no longer than the raw data |
| Ohlc.ParseRowsSorted | app_async.py:244-257 | Raw rows in time order give parsed rows in time order |
| Ohlc.MaxHigh | app_async.py:286 | `"high": "max"`: no row's high exceeds it, and some row attains it |
| Ohlc.MinLow | app_async.py:287 | `"low": "min"`: no row's low is below it, and some row attains it |
| Ohlc.AggregateFields | app_async.py:284-289 | A bar's open is its first row's open and its close its last row's close. Its high and low are the extreme values reached by some row. Its volume is the sum of the rows' volumes |
| Ohlc.ResampleBarsAggregateMembers | app_async.py:284-290 | On time-sorted rows, every bar's bucket holds rows, and the bar aggregates exactly the rows whose timestamp falls in that bucket |
| Ohlc.ResampleCoversRows | app_async.py:284-290 | Every row's bucket has a bar |
| Ohlc.ResampleAscending | app_async.py:284-290 | On time-sorted rows the bars come in strictly ascending bucket order, so no bucket repeats |
| Ohlc.ResampleIsGroupByBucket | app_async.py:301-307 | `resample(...).agg(...)` restricted to non-empty buckets is a group-by on the bucket: ascending, covering, with each bar aggregating its bucket's rows |
| Ohlc.NewestPageFirst | app_async.py:190-203 | A symbol with two one-row pages of history is fetched newest page first, so its raw rows are not in time order |
| Ohlc.SortByTimeIsStableSort | app_async.py:283-290 | The sort `resample` applies is a permutation of the rows that puts them in time order and keeps rows with equal times in their original order |
| Ohlc.SortByTimeOfSorted | app_async.py:283-290 | Rows already in time order are left unchanged by that sort |
| Ohlc.ParsedRowSymbols | app_async.py:237-267 | The hourly frame holds only rows of the dictionary's symbols |
| Ohlc.ParsedKeySymbols | app_async.py:284-290 | The per-symbol bars are keyed only by the dictionary's symbols |
| Ohlc.SymbolRowsOfItems | app_async.py:237-267 | With distinct symbols, the hourly rows of the i-th symbol are exactly its raw rows that survive parsing, in order |
| Ohlc.BarsOfItems | app_async.py:283-290 | With distinct symbols, the i-th symbol has bars exactly when it has hourly rows, and they are those rows, sorted by time, resampled |
| Ohlc.TransformOfSymbol | app_async.py:237-290 | The hourly rows of one symbol are exactly its raw rows that survive parsing, in order; an empty raw list contributes none. It has bars exactly when it has rows, and they are its rows, sorted by time, resampled |
| Ohlc.SymbolBarsGroupByBucket | app_async.py:283-314 | For every symbol, whatever order its pages arrived in, each daily or weekly bar aggregates exactly its bucket's hourly rows in time order (equal times in arrival order), every bucket holding one of its rows has a bar, and the bars are in ascending bucket order |
| Ohlc.ConcatEmpty | app_async.py:262-270 | The combined frame is empty exactly when no symbol contributes a row |
| Ohlc.TransformNone | app_async.py:230-270 | `(None, None, None)` is returned exactly when no symbol has a row that survives parsing, which includes an empty dictionary |
| Ohlc.TransformAndSaveMulti | app_async.py:224-321 | The loop that fills `all_dfs`, followed by the frame assembly, returns `Transform(items, weekly)` |
| Indicators.RollingLast | app_async.py:331-333 | The last rolling mean is defined exactly when there are at least `w` values |
| Indicators.TrendCases | app_async.py:323-345 | Unknown exactly for no closes. Range for 1 to 49 closes, since the NaN long average fails both comparisons. From 50 closes on, Bullish, Bearish or Range exactly when the 10-row mean is above, below or equal to the 50-row mean |
| Indicators.TrendOfRisingCloses | app_async.py:331-337 | A strictly increasing series of at least 50 closes is Bullish |
| Indicators.TrendOfFallingCloses | app_async.py:331-339 | A strictly decreasing series of at least 50 closes is Bearish |
| Indicators.TrendOfFlatCloses | app_async.py:331-341 | A constant series is Range at every non-zero length |
| Indicators.GainWindow | app_async.py:355-356 | The last 14 gains: each is `max(delta, 0)`, non-negative, and 0 for the first row |
| Indicators.LossWindow | app_async.py:355-357 | The last 14 losses: each is `max(-delta, 0)`, non-negative, and 0 for the first row |
| Indicators.RsiDefinedAndBounded | app_async.py:354-359 | RSI is NaN exactly below 14 closes or over a window with no price change; when defined it lies in [0, 100] |
| Indicators.RsiOfGainsOnly | app_async.py:356-359 | A window with rises and no falls gives RSI 100, the value of `100 - 100/(1 + inf)` |
| Indicators.RsiOfLossesOnly | app_async.py:356-359 | A window with falls and no rises gives RSI 0 |
| Indicators.RsiStates | app_async.py:367-373 | Neutral below 14 closes or over a flat window; Overbought over rises only; Oversold over falls only |
| Indicators.Alpha | app_async.py:362-365 | The `ewm(span)` smoothing factor `2/(span+1)` lies in (0, 1] |
| Indicators.EmaRecurrence | app_async.py:362-365 | `ewm(adjust=False)`: the first value is the first input, and each later value is `y[t-1] + alpha*(x[t] - y[t-1])` |
| Indicators.EmaBounded | app_async.py:362-365 | Every average lies within the bounds of the inputs |
| Indicators.EmaOfConstant | app_async.py:362-365 | A constant input gives a constant average at the same level |
| Indicators.MacdBounded | app_async.py:362-364 | The MACD line never exceeds the spread of the closes |
| Indicators.MacdOfFlatCloses | app_async.py:362-381 | Constant closes give a zero MACD line and signal line, hence the MACD state Neutral |
| Indicators.OverviewUnknown | app_async.py:383-402 | Only the fallback report of the `except` branch reads "Unknown"; a computed report never does |
| Indicators.MomentumOverview | app_async.py:347-402 | The overview is "Unknown", with no numbers, exactly for no closes. Otherwise it is `RSI: <state> MACD: <state>` for the closes' states |
| Indicators.MomentumOfFlatCloses | app_async.py:354-381 | Constant closes give the RSI state Neutral and the MACD state Neutral |

## Left out

- The Notion and HTTP plumbing is not part of this model: `get_full_table`, `update_security_entry`, `fetch_general_data_coingecko` and the `session.get` calls. Replies are an oracle parameter (`Klines.Source`).
- JSON and CSV writes, `print` logging, `load_dotenv` and the module-level client are file and environment I/O, and are not modelled.
- `asyncio.gather` is modelled as a sequential loop. The order of completion does not affect the dictionary it builds.
- Only `aiohttp.ClientError` is caught per symbol. Any other exception in one symbol's fetch (the session's total timeout raising `asyncio.TimeoutError`, or a JSON body that is not a list of lists so that `data[0][0]` fails) propagates through `asyncio.gather`, and `fetch_ohlc_binance_multi` then returns no dictionary at all. This is not modelled: `Klines.Response` has no such reply, so `Klines.FetchOhlcMulti` always returns a dictionary with every requested symbol.
- `asyncio.sleep(60)` after a 429 has no effect on the result and is not modelled.
- `main`, the orchestration glue, is not modelled.
- Floating point is modelled as exact `real` arithmetic. A NaN is `None`, and `gain / 0` is handled by its two outcomes: RSI 100 (infinity) and NaN (`0 / 0`).
- `pd.to_numeric(errors="coerce")` is abstracted: each wire field is either a number (`Numeric`) or something that coerces to NaN (`Malformed`). String-to-number parsing is not modelled.
- `pd.to_datetime` overflow on out-of-range millisecond times is not modelled. The timestamp stays an integer millisecond count.
- JSON `null` in place of a property object or a flag is not modelled. A missing key is modelled; the `AttributeError` on a null object is not.
- The weekly anchoring of pandas' `"1W"` is not modelled. Weekly buckets are a `Bucketing(width, offset)` parameter; daily buckets are whole UTC days.
- `resample`'s sort is modelled as a stable insertion sort by time (`Ohlc.SortByTime`), matching the stable merge sort pandas uses for an index that is not increasing. The sorting algorithm itself is not modelled.
- The empty intermediate buckets that `resample` emits (NaN prices, zero volume) are not modelled. Only non-empty buckets are specified.
- The daily and weekly frames are modelled per symbol, as a map from symbol to bars. The row order of the flattened frame after `reset_index` is not modelled.
- Watchlist.FirstContent: the `.get("text", {}).get("content", None)` chain is collapsed into one optional content per list element.
