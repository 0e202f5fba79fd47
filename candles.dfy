/** Values shared by the whole history pipeline: candles, chunks, series and the
    errors the collector can raise. */
module Candles {

  datatype Option<+T> = None | Some(value: T)

  /** One of the exceptions the collector lets escape to its caller. */
  datatype Error =
    | EmptyChunk                       // `ohlcv[0]` on an empty chunk: IndexError
    | NoSymbols                        // `out` never bound for an empty symbol list: UnboundLocalError
    | ColumnsOverlap(symbol: string)   // joining a frame that already has this symbol's columns: ValueError
    | MissingMarketId                  // `market['id']` in the except handler, or `df['id']` with no complete record: KeyError

  datatype Result<+T> = Ok(value: T) | Err(error: Error)

  /** The five numeric columns of one OHLCV observation. */
  datatype Bar = Bar(open: real, high: real, low: real, close: real, volume: real)

  /** One `[ts, o, h, l, c, v]` row: an integer millisecond timestamp and its bar. */
  datatype Candle = Candle(ts: int, bar: Bar)

  /** What one exchange request returns. */
  type Chunk = seq<Candle>

  /** A per-symbol frame: rows keyed by timestamp, in index order. */
  type Series = seq<Candle>

  function Timestamps(s: seq<Candle>): set<int>
  {
    set c | c in s :: c.ts
  }

  predicate UniqueTs(s: seq<Candle>)
  {
    forall i, j :: 0 <= i < j < |s| ==> s[i].ts != s[j].ts
  }

  predicate Sorted(s: seq<Candle>)
  {
    forall i, j :: 0 <= i < j < |s| ==> s[i].ts <= s[j].ts
  }

  predicate StrictlyIncreasing(s: seq<Candle>)
  {
    forall i, j :: 0 <= i < j < |s| ==> s[i].ts < s[j].ts
  }
}
