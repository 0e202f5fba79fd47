/** The paginated fetch of one symbol's candles (`DataCollector._get_history`): ask the
    exchange for a chunk since the current anchor, reverse it, append it, re-anchor on the
    first candle of the reversed chunk, until the anchor reaches the recency cutoff. */
module History {
  import opened Candles
  import opened Merge

  /** The exchange's `fetch_ohlcv(symbol, timeframe, since)`; `None` asks for the earliest data. */
  type Exchange = (string, string, Option<int>) -> Chunk

  const DayMs: int := 86_400_000
  const HourMs: int := 3_600_000

  /** The newest anchor that still triggers a fetch: a day before the clock for daily and
      weekly candles, an hour before it for every other timeframe. */
  function Cutoff(timeframe: string, nowMs: int): (cutoff: int)
    ensures timeframe == "1d" || timeframe == "1wk" ==> nowMs - cutoff == 86_400_000
    ensures timeframe != "1d" && timeframe != "1wk" ==> nowMs - cutoff == 3_600_000
  {
    nowMs - (if timeframe == "1d" || timeframe == "1wk" then DayMs else HourMs)
  }

  /** `start is None or start < now`: another request is due. */
  predicate NeedsFetch(start: Option<int>, cutoff: int)
  {
    start.None? || start.value < cutoff
  }

  /** `ohlcv[::-1]`. */
  function Reverse(s: Chunk): (r: Chunk)
    ensures |r| == |s|
    ensures forall i :: 0 <= i < |s| ==> r[i] == s[|s| - 1 - i]
  {
    seq(|s|, i requires 0 <= i < |s| => s[|s| - 1 - i])
  }

  /** The termination measure of a run: first whether an anchor is still missing, then how
      far the anchor lies below the cutoff. */
  function Unanchored(start: Option<int>): nat
  {
    if start.None? then 1 else 0
  }

  function Gap(start: Option<int>, cutoff: int): nat
  {
    if start.Some? && start.value < cutoff then cutoff - start.value else 0
  }

  /** The exchange moves forward: a non-empty chunk requested since an anchor below the
      cutoff ends with a candle newer than the anchor. Without it the collector may loop forever. */
  ghost predicate Advances(exchange: Exchange, symbol: string, timeframe: string, cutoff: int)
  {
    forall a: int :: a < cutoff && exchange(symbol, timeframe, Some(a)) != [] ==>
      exchange(symbol, timeframe, Some(a))[|exchange(symbol, timeframe, Some(a))| - 1].ts > a
  }

  /** The recursion of the collector, `request` being its accumulator argument. */
  function Collect(exchange: Exchange, symbol: string, timeframe: string, cutoff: int,
                   start: Option<int>, request: seq<Chunk>): Result<seq<Chunk>>
    requires Advances(exchange, symbol, timeframe, cutoff)
    decreases Unanchored(start), Gap(start, cutoff)
  {
    if NeedsFetch(start, cutoff) then
      var raw := exchange(symbol, timeframe, start);
      var chunk := Reverse(raw);
      if chunk == [] then Err(EmptyChunk)
      else
        assert chunk[0] == raw[|raw| - 1];
        Collect(exchange, symbol, timeframe, cutoff, Some(chunk[0].ts), request + [chunk])
    else Ok(request)
  }

  function Prepend(request: seq<Chunk>, r: Result<seq<Chunk>>): Result<seq<Chunk>>
  {
    match r
    case Ok(chunks) => Ok(request + chunks)
    case Err(e) => Err(e)
  }

  /** Whatever the accumulator held before the call ends up in front of the fetched chunks,
      which is why each call needs a fresh accumulator. */
  lemma {:induction false} CollectPrefix(exchange: Exchange, symbol: string, timeframe: string,
                                         cutoff: int, start: Option<int>, request: seq<Chunk>)
    requires Advances(exchange, symbol, timeframe, cutoff)
    ensures Collect(exchange, symbol, timeframe, cutoff, start, request)
         == Prepend(request, Collect(exchange, symbol, timeframe, cutoff, start, []))
    decreases Unanchored(start), Gap(start, cutoff)
  {
    if NeedsFetch(start, cutoff) {
      var raw := exchange(symbol, timeframe, start);
      var chunk := Reverse(raw);
      if chunk != [] {
        assert chunk[0] == raw[|raw| - 1];
        var next := Some(chunk[0].ts);
        CollectPrefix(exchange, symbol, timeframe, cutoff, next, request + [chunk]);
        CollectPrefix(exchange, symbol, timeframe, cutoff, next, [chunk]);
        assert [] + [chunk] == [chunk];
        match Collect(exchange, symbol, timeframe, cutoff, next, [])
        case Ok(rest) =>
          assert request + [chunk] + rest == request + ([chunk] + rest);
        case Err(_) =>
      }
    } else {
      assert request + [] == request;
    }
  }

  // ------------------------------------------------------------ the rounds of a run

  /** The anchor in force before round `k`: the caller's start, then the first candle of the
      previous reversed chunk. */
  function Anchor(start: Option<int>, chunks: seq<Chunk>, k: int): Option<int>
    requires 0 <= k <= |chunks|
    requires k == 0 || chunks[k - 1] != []
  {
    if k == 0 then start else Some(chunks[k - 1][0].ts)
  }

  /** Every accumulated chunk is non-empty, was due, and is the reverse of what the exchange
      returned for the anchor in force. */
  ghost predicate Rounds(exchange: Exchange, symbol: string, timeframe: string, cutoff: int,
                         start: Option<int>, chunks: seq<Chunk>)
  {
    (forall k :: 0 <= k < |chunks| ==> chunks[k] != []) &&
    (forall k :: 0 <= k < |chunks| ==>
       NeedsFetch(Anchor(start, chunks, k), cutoff) &&
       chunks[k] == Reverse(exchange(symbol, timeframe, Anchor(start, chunks, k))))
  }

  /** Each round re-anchors on the last candle of the exchange's answer, the first of the
      reversed chunk. */
  lemma RoundAnchor(exchange: Exchange, symbol: string, timeframe: string, cutoff: int,
                    start: Option<int>, chunks: seq<Chunk>, k: int)
    requires Rounds(exchange, symbol, timeframe, cutoff, start, chunks)
    requires 0 <= k < |chunks|
    ensures var raw := exchange(symbol, timeframe, Anchor(start, chunks, k));
            raw != [] && Anchor(start, chunks, k + 1) == Some(raw[|raw| - 1].ts)
  {
  }

  /** A complete run: its rounds, after which no further request is due. */
  ghost predicate Trace(exchange: Exchange, symbol: string, timeframe: string, cutoff: int,
                        start: Option<int>, chunks: seq<Chunk>)
  {
    Rounds(exchange, symbol, timeframe, cutoff, start, chunks) &&
    !NeedsFetch(Anchor(start, chunks, |chunks|), cutoff)
  }

  /** A failed run: its rounds, and then a due request that returned no candle. */
  ghost predicate Failed(exchange: Exchange, symbol: string, timeframe: string, cutoff: int,
                         start: Option<int>, chunks: seq<Chunk>)
  {
    Rounds(exchange, symbol, timeframe, cutoff, start, chunks) &&
    NeedsFetch(Anchor(start, chunks, |chunks|), cutoff) &&
    exchange(symbol, timeframe, Anchor(start, chunks, |chunks|)) == []
  }

  /** The rounds of a run are its first round followed by the rounds of the run anchored on it. */
  lemma RoundsShift(exchange: Exchange, symbol: string, timeframe: string, cutoff: int,
                    start: Option<int>, chunks: seq<Chunk>)
    requires chunks != [] && chunks[0] != []
    ensures Rounds(exchange, symbol, timeframe, cutoff, start, chunks) <==>
              NeedsFetch(start, cutoff) &&
              chunks[0] == Reverse(exchange(symbol, timeframe, start)) &&
              Rounds(exchange, symbol, timeframe, cutoff, Some(chunks[0][0].ts), chunks[1..])
    ensures chunks[|chunks| - 1] != [] ==>
              Anchor(start, chunks, |chunks|) == Anchor(Some(chunks[0][0].ts), chunks[1..], |chunks| - 1)
  {
    var next := Some(chunks[0][0].ts);
    var tail := chunks[1..];
    if Rounds(exchange, symbol, timeframe, cutoff, start, chunks) {
      forall k | 0 <= k < |tail|
        ensures tail[k] != []
        ensures NeedsFetch(Anchor(next, tail, k), cutoff) &&
                tail[k] == Reverse(exchange(symbol, timeframe, Anchor(next, tail, k)))
      {
        assert tail[k] == chunks[k + 1];
        assert Anchor(next, tail, k) == Anchor(start, chunks, k + 1);
      }
    }
    if NeedsFetch(start, cutoff) &&
       chunks[0] == Reverse(exchange(symbol, timeframe, start)) &&
       Rounds(exchange, symbol, timeframe, cutoff, next, tail) {
      forall k | 0 <= k < |chunks|
        ensures chunks[k] != []
      {
        if k > 0 { assert chunks[k] == tail[k - 1]; }
      }
      forall k | 0 <= k < |chunks|
        ensures NeedsFetch(Anchor(start, chunks, k), cutoff) &&
                chunks[k] == Reverse(exchange(symbol, timeframe, Anchor(start, chunks, k)))
      {
        if k > 0 {
          assert chunks[k] == tail[k - 1];
          assert Anchor(start, chunks, k) == Anchor(next, tail, k - 1);
        }
      }
    }
  }

  lemma {:induction false} CollectSound(exchange: Exchange, symbol: string, timeframe: string,
                                        cutoff: int, start: Option<int>, chunks: seq<Chunk>)
    requires Advances(exchange, symbol, timeframe, cutoff)
    requires Collect(exchange, symbol, timeframe, cutoff, start, []) == Ok(chunks)
    ensures Trace(exchange, symbol, timeframe, cutoff, start, chunks)
    decreases Unanchored(start), Gap(start, cutoff)
  {
    if NeedsFetch(start, cutoff) {
      var raw := exchange(symbol, timeframe, start);
      var chunk := Reverse(raw);
      assert chunk[0] == raw[|raw| - 1];
      var next := Some(chunk[0].ts);
      CollectPrefix(exchange, symbol, timeframe, cutoff, next, [chunk]);
      assert [] + [chunk] == [chunk];
      var tail := Collect(exchange, symbol, timeframe, cutoff, next, []).value;
      assert chunks == [chunk] + tail;
      assert chunks[1..] == tail;
      CollectSound(exchange, symbol, timeframe, cutoff, next, tail);
      RoundsShift(exchange, symbol, timeframe, cutoff, start, chunks);
    }
  }

  /** One due round with a non-empty answer, then the run anchored on it. */
  lemma CollectUnfold(exchange: Exchange, symbol: string, timeframe: string, cutoff: int,
                      start: Option<int>)
    requires Advances(exchange, symbol, timeframe, cutoff)
    requires NeedsFetch(start, cutoff) && exchange(symbol, timeframe, start) != []
    ensures var chunk := Reverse(exchange(symbol, timeframe, start));
            Collect(exchange, symbol, timeframe, cutoff, start, [])
              == Prepend([chunk], Collect(exchange, symbol, timeframe, cutoff, Some(chunk[0].ts), []))
  {
    var raw := exchange(symbol, timeframe, start);
    var chunk := Reverse(raw);
    assert chunk[0] == raw[|raw| - 1];
    CollectPrefix(exchange, symbol, timeframe, cutoff, Some(chunk[0].ts), [chunk]);
    assert [] + [chunk] == [chunk];
  }

  /** A complete run is a first due round followed by the complete run anchored on it. */
  lemma TraceShift(exchange: Exchange, symbol: string, timeframe: string, cutoff: int,
                   start: Option<int>, chunks: seq<Chunk>)
    requires Trace(exchange, symbol, timeframe, cutoff, start, chunks)
    requires chunks != []
    ensures NeedsFetch(start, cutoff) && exchange(symbol, timeframe, start) != []
    ensures chunks[0] == Reverse(exchange(symbol, timeframe, start))
    ensures Trace(exchange, symbol, timeframe, cutoff, Some(chunks[0][0].ts), chunks[1..])
  {
    assert Anchor(start, chunks, 0) == start;
    assert chunks[0] != [] && chunks[|chunks| - 1] != [];
    RoundsShift(exchange, symbol, timeframe, cutoff, start, chunks);
  }

  lemma {:induction false} CollectComplete(exchange: Exchange, symbol: string, timeframe: string,
                                           cutoff: int, start: Option<int>, chunks: seq<Chunk>)
    requires Advances(exchange, symbol, timeframe, cutoff)
    requires Trace(exchange, symbol, timeframe, cutoff, start, chunks)
    ensures Collect(exchange, symbol, timeframe, cutoff, start, []) == Ok(chunks)
    decreases |chunks|
  {
    if chunks == [] {
      assert Anchor(start, chunks, 0) == start;
    } else {
      var tail := chunks[1..];
      TraceShift(exchange, symbol, timeframe, cutoff, start, chunks);
      CollectComplete(exchange, symbol, timeframe, cutoff, Some(chunks[0][0].ts), tail);
      CollectUnfold(exchange, symbol, timeframe, cutoff, start);
      assert chunks == [chunks[0]] + tail;
    }
  }

  /** A run from an empty accumulator returns `chunks` exactly when `chunks` is a complete
      run from `start`. */
  lemma CollectTrace(exchange: Exchange, symbol: string, timeframe: string,
                     cutoff: int, start: Option<int>, chunks: seq<Chunk>)
    requires Advances(exchange, symbol, timeframe, cutoff)
    ensures Collect(exchange, symbol, timeframe, cutoff, start, []) == Ok(chunks) <==>
            Trace(exchange, symbol, timeframe, cutoff, start, chunks)
  {
    if Collect(exchange, symbol, timeframe, cutoff, start, []) == Ok(chunks) {
      CollectSound(exchange, symbol, timeframe, cutoff, start, chunks);
    }
    if Trace(exchange, symbol, timeframe, cutoff, start, chunks) {
      CollectComplete(exchange, symbol, timeframe, cutoff, start, chunks);
    }
  }

  /** A run from an empty accumulator fails only on an empty chunk, after complete rounds. */
  lemma {:induction false} CollectFails(exchange: Exchange, symbol: string, timeframe: string,
                                        cutoff: int, start: Option<int>)
    requires Advances(exchange, symbol, timeframe, cutoff)
    requires Collect(exchange, symbol, timeframe, cutoff, start, []).Err?
    ensures Collect(exchange, symbol, timeframe, cutoff, start, []).error == EmptyChunk
    ensures exists chunks :: Failed(exchange, symbol, timeframe, cutoff, start, chunks)
    decreases Unanchored(start), Gap(start, cutoff)
  {
    var raw := exchange(symbol, timeframe, start);
    var chunk := Reverse(raw);
    if chunk == [] {
      assert Failed(exchange, symbol, timeframe, cutoff, start, []);
    } else {
      assert chunk[0] == raw[|raw| - 1];
      var next := Some(chunk[0].ts);
      CollectPrefix(exchange, symbol, timeframe, cutoff, next, [chunk]);
      assert [] + [chunk] == [chunk];
      CollectFails(exchange, symbol, timeframe, cutoff, next);
      var tail :| Failed(exchange, symbol, timeframe, cutoff, next, tail);
      var chunks := [chunk] + tail;
      assert chunks[1..] == tail;
      RoundsShift(exchange, symbol, timeframe, cutoff, start, chunks);
      assert Failed(exchange, symbol, timeframe, cutoff, start, chunks);
    }
  }

  /** The collector's loop, run from a fresh accumulator. */
  method FetchHistory(exchange: Exchange, symbol: string, timeframe: string, cutoff: int,
                      start: Option<int>) returns (r: Result<seq<Chunk>>)
    requires Advances(exchange, symbol, timeframe, cutoff)
    ensures r == Collect(exchange, symbol, timeframe, cutoff, start, [])
    ensures r == CollectGuarded(exchange, symbol, timeframe, cutoff, start, [])
    ensures r.Ok? ==> Trace(exchange, symbol, timeframe, cutoff, start, r.value)
    ensures r.Err? ==> r.error == EmptyChunk &&
                       exists chunks :: Failed(exchange, symbol, timeframe, cutoff, start, chunks)
  {
    GuardedAgrees(exchange, symbol, timeframe, cutoff, start, []);
    var request: seq<Chunk> := [];
    var anchor := start;
    while NeedsFetch(anchor, cutoff)
      invariant Collect(exchange, symbol, timeframe, cutoff, start, [])
             == Collect(exchange, symbol, timeframe, cutoff, anchor, request)
      decreases Unanchored(anchor), Gap(anchor, cutoff)
    {
      var raw := exchange(symbol, timeframe, anchor);
      var chunk := Reverse(raw);
      if chunk == [] {
        r := Err(EmptyChunk);
        CollectFails(exchange, symbol, timeframe, cutoff, start);
        return;
      }
      assert chunk[0] == raw[|raw| - 1];
      request := request + [chunk];
      anchor := Some(chunk[0].ts);
    }
    r := Ok(request);
    CollectTrace(exchange, symbol, timeframe, cutoff, start, request);
  }

  // ------------------------------------------------------------ a stuck anchor

  /** An exchange whose newest candle opened at `open` and is still forming: whatever it is
      asked, it answers with that one candle. */
  function CurrentCandleOnly(open: int, bar: Bar): Exchange
  {
    (symbol, timeframe, since) => [Candle(open, bar)]
  }

  /** As written, a timeframe longer than an hour other than `'1d'` and `'1wk'` (`'4h'`, or
      ccxt's weekly `'1w'`) stalls: once the anchor is the current candle, opened two hours
      ago, another request is due and its answer re-anchors on that same candle, so the
      recursion repeats the same call, and the exchange does not satisfy `Advances`. */
  lemma StuckAnchor(symbol: string, timeframe: string, nowMs: int, bar: Bar)
    requires timeframe != "1d" && timeframe != "1wk"
    ensures var open := nowMs - 2 * HourMs;
            var exchange := CurrentCandleOnly(open, bar);
            var chunk := Reverse(exchange(symbol, timeframe, Some(open)));
            NeedsFetch(Some(open), Cutoff(timeframe, nowMs)) &&
            chunk != [] && chunk[0].ts == open &&
            !Advances(exchange, symbol, timeframe, Cutoff(timeframe, nowMs))
  {
    var open := nowMs - 2 * HourMs;
    var exchange := CurrentCandleOnly(open, bar);
    assert exchange(symbol, timeframe, Some(open)) == [Candle(open, bar)];
  }

  /** The recursion with a progress guard: a chunk whose newest candle does not move the
      anchor forward ends the run. It needs no assumption about the exchange to stop. */
  function CollectGuarded(exchange: Exchange, symbol: string, timeframe: string, cutoff: int,
                          start: Option<int>, request: seq<Chunk>): Result<seq<Chunk>>
    decreases Unanchored(start), Gap(start, cutoff)
  {
    if NeedsFetch(start, cutoff) then
      var chunk := Reverse(exchange(symbol, timeframe, start));
      if chunk == [] then Err(EmptyChunk)
      else if start.Some? && chunk[0].ts <= start.value then Ok(request + [chunk])
      else CollectGuarded(exchange, symbol, timeframe, cutoff, Some(chunk[0].ts), request + [chunk])
    else Ok(request)
  }

  /** Wherever the exchange moves forward, the guard never fires: the guarded recursion
      returns exactly what the collector's recursion returns. */
  lemma {:induction false} GuardedAgrees(exchange: Exchange, symbol: string, timeframe: string,
                                         cutoff: int, start: Option<int>, request: seq<Chunk>)
    requires Advances(exchange, symbol, timeframe, cutoff)
    ensures CollectGuarded(exchange, symbol, timeframe, cutoff, start, request)
         == Collect(exchange, symbol, timeframe, cutoff, start, request)
    decreases Unanchored(start), Gap(start, cutoff)
  {
    if NeedsFetch(start, cutoff) {
      var raw := exchange(symbol, timeframe, start);
      var chunk := Reverse(raw);
      if chunk != [] {
        assert chunk[0] == raw[|raw| - 1];
        GuardedAgrees(exchange, symbol, timeframe, cutoff, Some(chunk[0].ts), request + [chunk]);
      }
    }
  }

  /** On the stalled exchange the guarded run from no anchor stops after the second request,
      both chunks holding the current candle. */
  lemma GuardedStops(symbol: string, timeframe: string, nowMs: int, bar: Bar)
    requires timeframe != "1d" && timeframe != "1wk"
    ensures var open := nowMs - 2 * HourMs;
            CollectGuarded(CurrentCandleOnly(open, bar), symbol, timeframe, Cutoff(timeframe, nowMs), None, [])
              == Ok([[Candle(open, bar)], [Candle(open, bar)]])
  {
    var open := nowMs - 2 * HourMs;
    var c := Candle(open, bar);
    var exchange := CurrentCandleOnly(open, bar);
    var cutoff := Cutoff(timeframe, nowMs);
    assert Reverse(exchange(symbol, timeframe, None)) == [c];
    assert Reverse(exchange(symbol, timeframe, Some(open))) == [c];
    assert NeedsFetch(Some(open), cutoff);
    assert CollectGuarded(exchange, symbol, timeframe, cutoff, Some(open), [[c]]) == Ok([[c], [c]]) by {
      assert [[c]] + [[c]] == [[c], [c]];
    }
    assert [] + [[c]] == [[c]];
  }

  /** The two chunks of that run merge to the current candle, once. */
  lemma RepeatedCandleMerges(c: Candle)
    ensures MergeChunks([[c], [c]]) == [c]
  {
    var acc := [[c], [c]];
    assert Concat(acc) == [c, c] by {
      assert acc[..1] == [[c]];
      assert Concat([[c]]) == [c] by {
        assert [[c]][..0] == [];
      }
    }
    assert KeepFirst([c]) == [c] by {
      assert [c][..0] == [];
    }
    assert KeepFirst([c, c]) == [c] by {
      assert [c, c][..1] == [c];
      assert c in [c];
      assert c.ts in Timestamps([c]);
    }
    assert SortByTs([c]) == [c] by {
      assert [c][1..] == [];
    }
  }

  // ------------------------------------------------------------ one symbol's frame

  function SymbolHistory(exchange: Exchange, symbol: string, timeframe: string, nowMs: int,
                         start: Option<int>): Result<Series>
    requires Advances(exchange, symbol, timeframe, Cutoff(timeframe, nowMs))
  {
    match Collect(exchange, symbol, timeframe, Cutoff(timeframe, nowMs), start, [])
    case Ok(chunks) => Ok(MergeChunks(chunks))
    case Err(e) => Err(e)
  }

  /** `_get_history` called with a fresh `deque()`: fetch, flatten, dedup, sort. */
  method GetSymbolHistory(exchange: Exchange, symbol: string, timeframe: string, nowMs: int,
                          start: Option<int>) returns (r: Result<Series>)
    requires Advances(exchange, symbol, timeframe, Cutoff(timeframe, nowMs))
    ensures r == SymbolHistory(exchange, symbol, timeframe, nowMs, start)
    ensures r.Ok? ==> StrictlyIncreasing(r.value) &&
                      exists chunks :: Trace(exchange, symbol, timeframe, Cutoff(timeframe, nowMs), start, chunks) &&
                                       r.value == MergeChunks(chunks)
    ensures r.Err? ==> r.error == EmptyChunk
  {
    var cutoff := Cutoff(timeframe, nowMs);
    var fetched := FetchHistory(exchange, symbol, timeframe, cutoff, start);
    match fetched
    case Err(e) =>
      r := Err(e);
    case Ok(chunks) =>
      var flat := Flatten(chunks);
      r := Ok(Normalize(flat));
      MergeChunksSpec(chunks);
  }
}
