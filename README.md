# OHLCV history collector: a Dafny model

This project models the data pipeline of `DataCollector`, a small Python wrapper around a
cryptocurrency exchange client. The model covers:

- **The paginated fetch loop** (`_get_history`). It computes a recency cutoff from the
  timeframe. While the anchor `start` is absent or below the cutoff, it asks the exchange for
  a chunk since the anchor, reverses the chunk, appends it to an accumulator and re-anchors on
  the first candle of the reversed chunk.
- **The merge.** The accumulated chunks are flattened in append order. Repeated timestamps are
  dropped, keeping the first row. The rows are then sorted by timestamp.
- **Multi-symbol assembly** (`get_history`). A single symbol returns its own frame. For a list
  of symbols, the first symbol's frame seeds the result and every later frame is `join`ed onto
  it.
- **Market listing and ranking** (`get_markets`, `get_topvolumes`). This covers the
  per-record extraction with its `{}` placeholder, the `isPerp` rule, the two filters and the
  top-N by 24h volume.

Modules:

- `Candles` (candles.dfy) holds the values: candles, chunks, series and the exceptions the
  collector lets escape.
- `Merge` (merge.dfy) holds flattening, first-wins dedup, sorting and their properties.
- `History` (history.dfy) holds the cutoff, the fetch recursion as a function (`Collect`),
  the fetch loop as a method (`FetchHistory`) and one symbol's frame.
- `Assembly` (assembly.dfy) holds frames with `(symbol, field)` column groups, the left join
  and `get_history`.
- `Markets` (markets.dfy) holds market extraction, filters and ranking.

The exchange is a function parameter `(symbol, timeframe, since) -> chunk`. The clock is an
integer millisecond input `nowMs`. The result of `seconds()` is an integer input `timestamp`.
The list from `fetch_markets()` is an input sequence of records. Timestamps are integer
milliseconds. Python exceptions are `Err` values of a `Result`:

- `EmptyChunk` is the IndexError of `ohlcv[0]` on an empty chunk.
- `NoSymbols` is the UnboundLocalError for an empty symbol list.
- `ColumnsOverlap` is the ValueError pandas raises when a symbol is listed twice.
- `MissingMarketId` is the KeyError `'id'`. The `except` handler raises it when a market
  record has no `id`. `df['id']` raises it when no record is complete, because the frame then
  has no `id` column.

In these places the model follows what the code does rather than what a reader might expect:

- **Join kind.** `DataFrame.join` defaults to a left join. The combined frame therefore has
  exactly the first symbol's rows, not the union of all timestamps (`HistoryOfMany`,
  `HistoryOfDisjointPair`).
- **Single-symbol columns.** A single symbol's frame keeps `(symbol, field)` columns, like
  every per-symbol frame the collector builds (`Frame`, `HistoryOfOne`).
- **Anchor direction.** The new anchor is the first candle of the reversed chunk, i.e. the
  last candle in the exchange's own order (`RoundAnchor`).
- **Failed market records.** Without a filter, failed records are not skipped when at least
  one record is complete. They stay as placeholder rows whose id and volume are NaN, and
  `get_topvolumes` ranks them last (`NoFilterKeepsAll`, `TopRowsSpec`). With no records, or
  none complete, `get_markets` fails with the KeyError instead (`GetMarkets`).

## Model

| member | source | states |
|---|---|---|
| `Merge.Flatten` | datacollector.py:115-118 | the nested loops produce the chunks concatenated in append order |
| `Merge.ConcatLength` | datacollector.py:115-118 | the flattened length is the sum of the chunk lengths |
| `Merge.ConcatMembers` | datacollector.py:115-118 | a row is in the flattened rows iff it is in one of the chunks |
| `Merge.KeepFirstFirstWins` | datacollector.py:132 | a row survives `duplicated(keep='first')` iff it is the first row with its timestamp |
| `Merge.KeepFirstUnique` | datacollector.py:132 | after the dedup no timestamp occurs twice |
| `Merge.KeepFirstTimestamps` | datacollector.py:132 | the dedup keeps every timestamp of its input |
| `Merge.KeepFirstOfUnique` | datacollector.py:132 | the dedup leaves rows with distinct timestamps unchanged |
| `Merge.SortSorted` | datacollector.py:133 | `sort_index` orders the rows by non-decreasing timestamp |
| `Merge.SortStrict` | datacollector.py:133 | sorting rows with distinct timestamps gives strictly increasing timestamps |
| `Merge.SortMultiset` | datacollector.py:133 | sorting is a permutation of its input |
| `Merge.SortTimestamps` | datacollector.py:133 | sorting keeps the set of timestamps |
| `Merge.SortOfSorted` | datacollector.py:133 | sorting an already sorted frame changes nothing |
| `Merge.NormalizeSpec` | datacollector.py:132-133 | dedup then sort gives strictly increasing timestamps, exactly the input's timestamps, each row the first input row with that timestamp |
| `Merge.MergeChunksSpec` | datacollector.py:115-133 | the same three facts for the frame built from accumulated chunks, relative to their flattening |
| `Merge.MergeOfSeries` | datacollector.py:115-133 | merging a strictly increasing frame given as the only chunk returns it unchanged |
| `Merge.MergeIdempotent` | datacollector.py:132-133 | merging a merged frame again is a no-op |
| `Merge.MergeOverlapExample` | datacollector.py:115-133 | for chunks overlapping at t=1000, the row fetched first is kept and the result is ascending |
| `History.Cutoff` | datacollector.py:103-106 | the cutoff lags the clock by 86,400,000 ms for `'1d'` and `'1wk'` and by 3,600,000 ms for every other timeframe |
| `History.Reverse` | datacollector.py:110 | `ohlcv[::-1]` has the same length, and position i holds the input's position n-1-i |
| `History.RoundAnchor` | datacollector.py:110-112 | each round re-anchors on the last candle of the exchange's answer, which is non-empty |
| `History.CollectPrefix` | datacollector.py:91-113 | whatever the `request` accumulator held before the call ends up in front of the fetched chunks |
| `History.CollectSound` | datacollector.py:108-114 | a run that returns chunks has performed exactly those due rounds and then stopped because the anchor reached the cutoff |
| `History.CollectComplete` | datacollector.py:108-114 | every complete run of due rounds is what the recursion returns |
| `History.CollectTrace` | datacollector.py:108-114 | the recursion returns `chunks` iff `chunks` is a complete run from `start` |
| `History.CollectFails` | datacollector.py:109-112 | a run fails only with the empty-chunk error, after complete rounds and a due request that returned nothing |
| `History.FetchHistory` | datacollector.py:103-114 | the while loop from a fresh accumulator returns what the recursion returns, and what the guarded recursion returns: a complete run, or the empty-chunk error after a failed run |
| `History.StuckAnchor` | datacollector.py:103-113 | for a timeframe other than `'1d'`/`'1wk'`, an anchor on a still-forming candle opened two hours ago is due again and re-anchors on itself, so the exchange does not advance |
| `History.GuardedAgrees` | datacollector.py:108-113 | with a progress guard the recursion stops for every exchange, and wherever the exchange advances it returns exactly what the collector's recursion returns |
| `History.GuardedStops` | datacollector.py:108-113 | on the stalled exchange the guarded run stops after two requests that both return the current candle |
| `History.RepeatedCandleMerges` | datacollector.py:115-133 | those two chunks merge to the current candle, once |
| `History.GetSymbolHistory` | datacollector.py:103-133 | one symbol's frame is the merge of a complete run, with strictly increasing timestamps; otherwise the empty-chunk error |
| `Assembly.Lookup` | datacollector.py:154-156 | the bar a frame holds at a timestamp is present iff the timestamp is in the frame, and it is that frame's row |
| `Assembly.Frame` | datacollector.py:121-131 | a symbol's frame has one `(symbol, field)` group and one row per candle, with the candle's timestamp and bar |
| `Assembly.Join` | datacollector.py:154-156 | the left join keeps the left rows and their order and appends the right bar at each row's timestamp; a symbol already present fails with overlapping columns |
| `Assembly.GetHistory` | datacollector.py:147-160 | the loop over symbols returns what the fold of fetch-then-join returns |
| `Assembly.HistoryOfEmptyList` | datacollector.py:152-160 | an empty symbol list is an error |
| `Assembly.HistoryOfOne` | datacollector.py:148-149 | a single string returns that symbol's frame, the same as a one-element list |
| `Assembly.HistoryOfMany` | datacollector.py:150-158 | a list's frame has one group per listed symbol and exactly the first symbol's rows, and each cell is that symbol's own frame (fetched from a fresh accumulator) at the row's timestamp |
| `Assembly.HistoryOfManyOk` | datacollector.py:152-158 | when every fetch succeeds, a list yields a frame iff it is non-empty and names no symbol twice |
| `Assembly.HistoryOfDisjointPair` | datacollector.py:154-156 | for two symbols with no common timestamp, the frame has only the first symbol's rows and all the second symbol's cells are NaN |
| `Markets.ContainsAt` | datacollector.py:55 | an occurrence of `sub` at some position makes `sub in s` true |
| `Markets.ContainsWitness` | datacollector.py:55 | `sub in s` yields a position where `sub` occurs |
| `Markets.IsPerpExamples` | datacollector.py:55 | `BTC-PERP` of type `future` is perpetual; of type `spot` it is not |
| `Markets.Extract` | datacollector.py:49-68 | a record gives a full row iff every field is present, with `isPerp` iff the id contains "PERP" and the type is "future"; it gives the placeholder otherwise, and the error iff it lacks its id |
| `Markets.ExtractAll` | datacollector.py:47-68 | the slot-filling loop fails iff some record lacks its id; otherwise slot i is record i's row or placeholder |
| `Markets.Filter` | datacollector.py:74-77 | a row is kept iff the filter rule accepts it (`perps_only` first, then `futures_only`; placeholders fail both), and each accepted row is kept as often as it occurs |
| `Markets.PerpsOnlyWins` | datacollector.py:74-77 | with `perps_only` set, `futures_only` makes no difference |
| `Markets.NoFilterKeepsAll` | datacollector.py:74-78 | without filters every row, placeholders included, is kept in order |
| `Markets.PerpsAreFutures` | datacollector.py:55-77 | every row `perps_only` keeps is also kept by `futures_only` |
| `Markets.GetMarkets` | datacollector.py:44-78 | `get_markets` fails iff a record lacks its id or no record is complete (no `id` column); otherwise it returns the filtered extracted rows |
| `Markets.RankByVolumeFacts` | datacollector.py:165 | the ranking is a permutation in non-increasing 24h volume, placeholders last |
| `Markets.Head` | datacollector.py:165 | `[:n]` is a prefix holding min(n, len) items, or all but the last -n for negative n |
| `Markets.TopVolumes` | datacollector.py:165 | the result lists the ids of the top rows in order, a placeholder's id being NaN |
| `Markets.TopRowsSpec` | datacollector.py:165 | the top rows number at most n, are taken from the input in non-increasing volume, and no row left out ranks above any of them |
| `Markets.FilteredIdsPresent` | datacollector.py:74-77 | after either filter no NaN id is reported |
| `Markets.GetTopVolumes` | datacollector.py:162-165 | `get_topvolumes` fails iff a record lacks its id or no record is complete; otherwise it returns the top-n ids of the filtered rows |
| `Markets.TopTwoExample` | datacollector.py:165 | for volumes 50, 200 and 10 the top two ids are the 200 one, then the 50 one |

## Left out

- Exchange construction and switching (`__init__`, `switch_exchange`, `_select_exchange`) are left out. They only build foreign `ccxt` objects. The exchange is a parameter instead.
- Network calls (`fetch_ohlcv`, `fetch_markets`, `seconds`) are not modelled as I/O. They become a function parameter and inputs. Their errors (network, authentication, rate limits) are not modelled. Only the empty chunk is an error.
- History.FetchHistory: requires that the exchange advances. A non-empty chunk requested since an anchor below the cutoff must end with a newer candle. The source asks nothing of the exchange. When the anchor stalls, it recurses until Python raises `RecursionError`. This happens in ordinary use, not only with a faulty exchange: see `StuckAnchor` under Findings. That path is not modelled. The requirement covers every anchor below the cutoff, so it also excludes exchanges that would stall only at anchors a run never reaches, on which the source returns normally.
- History.FetchHistory: the loop has no bound on the number of rounds. The source recurses once per round, so a run that advances but needs more rounds than Python's recursion limit (about 1000) raises `RecursionError`; a year of 1m candles at 500 per chunk is enough. The model returns the complete run there.
- History.GetSymbolHistory: the clock is read once per call, as `nowMs`. The source re-reads `dt.datetime.now()` on every round of its recursion, so its cutoff can move forward during a long fetch.
- `_time_to_timestamp` is left out. It is a float conversion of an ISO date to milliseconds. `start` is already an optional integer millisecond anchor.
- The pandas frame machinery is reduced to rows keyed by an integer timestamp with one cell per symbol. This covers `MultiIndex`, `DataFrame` construction, `to_datetime` and dropping the `timestamp` column. Calendar conversion of the index is not modelled.
- Float parsing of market fields becomes values that are present or absent (`Option<real>`). NaN, infinities and float rounding are not modelled. A field the record lacks, or one `float()` cannot convert (`float(None)` raises TypeError), is `None`, and the record becomes the `{}` placeholder, as in the source.
- Markets.Extract: a `None` value is not told apart from a missing key. The source copies `base`, `type`, `precision.amount`, `precision.price` and `limits.amount.min` unconverted, so it accepts `None` in those five; the model makes the record a placeholder. A nested dict (`precision`, `limits`, `limits.amount`, `info`) that holds `None` raises TypeError in the source and gives the placeholder, which the model's missing fields match. An `id` that is present but `None` makes `'PERP' in None` raise TypeError; the handler's `market['id']` then succeeds, so the source gives a placeholder. The model cannot express that case: its `id: None` is the missing key, the `MissingMarketId` error.
- The `print` in the extraction's `except` handler is logging and is left out. Its key access is modelled, since it raises when the id is missing.
- The markets frame's index (`df.index = df['id']`, then dropping the `id` column) is kept as the `id` field of each row.
- Markets.TopVolumes: ties in volume keep the order of an insertion sort. pandas' default quicksort in `sort_values` is not stable, so the source leaves that order unspecified. `TopRowsSpec` states only what holds for any order.
- backtester.py is left out. It is an unimplemented stub with no behaviour.

## Findings

| source | as written | input that shows it | evidently intended | confidence | as-written member | corrected member |
|---|---|---|---|---|---|---|
| datacollector.py:103-113 | the cutoff lags the clock by one hour for every timeframe but `'1d'` and `'1wk'`, and the recursion continues while the anchor is below it | timeframe `'4h'` (or ccxt's weekly `'1w'`, which the `'1wk'` test misses), with the exchange's newest candle opened two hours ago: asked since that candle, the exchange returns only it, so the anchor stays put and the same request repeats until `RecursionError` | the fetch stops once the exchange has no newer candle; `GuardedAgrees` proves that the guarded recursion always stops and equals the collector's wherever the exchange advances, and `GuardedStops` shows it returning the current candle on this input | high (not executed) | `History.StuckAnchor` | `History.CollectGuarded` |
