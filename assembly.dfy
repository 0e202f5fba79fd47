/** `DataCollector.get_history`: one symbol's frame as it is, or the frames of a list of
    symbols, the first one seeding the result and every later one `join`ed onto it. */
module Assembly {
  import opened Candles
  import opened Merge
  import opened History

  /** The `symbols` argument: a single string or a list of strings. */
  datatype Symbols = One(symbol: string) | Many(symbols: seq<string>)

  /** A row of a frame: its timestamp and one cell per symbol column group (`None` is NaN). */
  datatype Row = Row(ts: int, cells: seq<Option<Bar>>)

  /** A frame whose columns are grouped as `(symbol, field)`, one group per entry of `symbols`. */
  datatype Table = Table(symbols: seq<string>, rows: seq<Row>)

  predicate WellFormed(t: Table)
  {
    forall i :: 0 <= i < |t.rows| ==> |t.rows[i].cells| == |t.symbols|
  }

  predicate Distinct(s: seq<string>)
  {
    forall i, j :: 0 <= i < j < |s| ==> s[i] != s[j]
  }

  function SymbolList(symbols: Symbols): seq<string>
  {
    match symbols
    case One(s) => [s]
    case Many(list) => list
  }

  /** The bar a frame holds at timestamp `t`, if any. */
  function Lookup(s: Series, t: int): (r: Option<Bar>)
    ensures r.Some? <==> t in Timestamps(s)
    ensures r.Some? ==> Candle(t, r.value) in s
  {
    if s == [] then None
    else
      assert s == [s[0]] + s[1..];
      assert Timestamps(s) == {s[0].ts} + Timestamps(s[1..]);
      if s[0].ts == t then Some(s[0].bar) else Lookup(s[1..], t)
  }

  lemma LookupAt(s: Series, i: int)
    requires StrictlyIncreasing(s) && 0 <= i < |s|
    ensures Lookup(s, s[i].ts) == Some(s[i].bar)
  {
    assert s[i] in s;
    var r := Lookup(s, s[i].ts);
    var k :| 0 <= k < |s| && s[k] == Candle(s[i].ts, r.value);
  }

  /** The frame `_get_history` returns for one symbol: its rows, under `(symbol, field)` columns. */
  function Frame(symbol: string, s: Series): (t: Table)
    ensures WellFormed(t) && t.symbols == [symbol] && |t.rows| == |s|
    ensures forall i :: 0 <= i < |s| ==> t.rows[i] == Row(s[i].ts, [Some(s[i].bar)])
  {
    Table([symbol], seq(|s|, i requires 0 <= i < |s| => Row(s[i].ts, [Some(s[i].bar)])))
  }

  /** `left.join(right)` with its default `how='left'`: the left rows stay, in their order, and
      gain the right frame's bar at their timestamp; a symbol already present is an overlap. */
  function Join(left: Table, symbol: string, right: Series): (r: Result<Table>)
    ensures r.Err? <==> symbol in left.symbols
    ensures r.Err? ==> r.error == ColumnsOverlap(symbol)
    ensures r.Ok? ==> r.value.symbols == left.symbols + [symbol] && |r.value.rows| == |left.rows|
    ensures r.Ok? ==> forall i :: 0 <= i < |left.rows| ==>
              r.value.rows[i].ts == left.rows[i].ts &&
              r.value.rows[i].cells == left.rows[i].cells + [Lookup(right, left.rows[i].ts)]
    ensures r.Ok? && WellFormed(left) ==> WellFormed(r.value)
  {
    if symbol in left.symbols then Err(ColumnsOverlap(symbol))
    else
      Ok(Table(left.symbols + [symbol],
               seq(|left.rows|, i requires 0 <= i < |left.rows| =>
                 Row(left.rows[i].ts, left.rows[i].cells + [Lookup(right, left.rows[i].ts)]))))
  }

  ghost predicate AllAdvance(exchange: Exchange, symbols: seq<string>, timeframe: string, nowMs: int)
  {
    forall s :: s in symbols ==> Advances(exchange, s, timeframe, Cutoff(timeframe, nowMs))
  }

  /** The loop over a symbol list, `out` being the frame built so far (`None`: still unbound). */
  function JoinAll(exchange: Exchange, timeframe: string, nowMs: int, start: Option<int>,
                   out: Option<Table>, symbols: seq<string>): Result<Table>
    requires AllAdvance(exchange, symbols, timeframe, nowMs)
    decreases |symbols|
  {
    if symbols == [] then
      if out.None? then Err(NoSymbols) else Ok(out.value)
    else
      assert symbols[0] in symbols;
      match SymbolHistory(exchange, symbols[0], timeframe, nowMs, start)
      case Err(e) => Err(e)
      case Ok(s) =>
        if out.None? then
          JoinAll(exchange, timeframe, nowMs, start, Some(Frame(symbols[0], s)), symbols[1..])
        else
          match Join(out.value, symbols[0], s)
          case Err(e) => Err(e)
          case Ok(t) => JoinAll(exchange, timeframe, nowMs, start, Some(t), symbols[1..])
  }

  function HistoryOf(exchange: Exchange, symbols: Symbols, timeframe: string, nowMs: int,
                     start: Option<int>): Result<Table>
    requires AllAdvance(exchange, SymbolList(symbols), timeframe, nowMs)
  {
    match symbols
    case One(s) =>
      assert s in SymbolList(symbols);
      (match SymbolHistory(exchange, s, timeframe, nowMs, start)
       case Ok(series) => Ok(Frame(s, series))
       case Err(e) => Err(e))
    case Many(list) => JoinAll(exchange, timeframe, nowMs, start, None, list)
  }

  /** `get_history`: every symbol is fetched from its own fresh accumulator. */
  method GetHistory(exchange: Exchange, symbols: Symbols, timeframe: string, nowMs: int,
                    start: Option<int>) returns (r: Result<Table>)
    requires AllAdvance(exchange, SymbolList(symbols), timeframe, nowMs)
    ensures r == HistoryOf(exchange, symbols, timeframe, nowMs, start)
  {
    match symbols {
      case One(sym) =>
        assert sym in SymbolList(symbols);
        var h := GetSymbolHistory(exchange, sym, timeframe, nowMs, start);
        r := if h.Ok? then Ok(Frame(sym, h.value)) else Err(h.error);
      case Many(list) =>
        var out: Option<Table> := None;
        for i := 0 to |list|
          invariant JoinAll(exchange, timeframe, nowMs, start, None, list)
                 == JoinAll(exchange, timeframe, nowMs, start, out, list[i..])
        {
          assert list[i..][0] == list[i] && list[i..][1..] == list[i + 1..];
          assert list[i] in list;
          var h := GetSymbolHistory(exchange, list[i], timeframe, nowMs, start);
          if h.Err? {
            return Err(h.error);
          }
          if out.None? {
            out := Some(Frame(list[i], h.value));
          } else {
            var joined := Join(out.value, list[i], h.value);
            if joined.Err? {
              return Err(joined.error);
            }
            out := Some(joined.value);
          }
        }
        r := if out.None? then Err(NoSymbols) else Ok(out.value);
    }
  }

  // ------------------------------------------------------------ properties

  lemma HistoryOfEmptyList(exchange: Exchange, timeframe: string, nowMs: int, start: Option<int>)
    ensures HistoryOf(exchange, Many([]), timeframe, nowMs, start) == Err(NoSymbols)
  {
  }

  /** A single string and a one-element list give the same frame: that symbol's rows. */
  lemma HistoryOfOne(exchange: Exchange, symbol: string, timeframe: string, nowMs: int, start: Option<int>)
    requires Advances(exchange, symbol, timeframe, Cutoff(timeframe, nowMs))
    ensures HistoryOf(exchange, One(symbol), timeframe, nowMs, start)
         == HistoryOf(exchange, Many([symbol]), timeframe, nowMs, start)
    ensures SymbolHistory(exchange, symbol, timeframe, nowMs, start).Ok? ==>
              (HistoryOf(exchange, One(symbol), timeframe, nowMs, start)
               == Ok(Frame(symbol, SymbolHistory(exchange, symbol, timeframe, nowMs, start).value)))
  {
    var list := [symbol];
    assert list[0] == symbol && list[1..] == [];
    match SymbolHistory(exchange, symbol, timeframe, nowMs, start) {
      case Err(e) =>
      case Ok(series) =>
        assert JoinAll(exchange, timeframe, nowMs, start, None, list)
            == JoinAll(exchange, timeframe, nowMs, start, Some(Frame(symbol, series)), []);
    }
  }

  /** `t` holds the columns of `done`, on the rows of `first`, each cell being the bar that
      symbol's own frame holds at the row's timestamp. */
  ghost predicate Assembled(exchange: Exchange, timeframe: string, nowMs: int, start: Option<int>,
                            t: Table, done: seq<string>, first: Series)
  {
    AllAdvance(exchange, done, timeframe, nowMs) &&
    WellFormed(t) && t.symbols == done && |t.rows| == |first| &&
    (forall i :: 0 <= i < |first| ==> t.rows[i].ts == first[i].ts) &&
    (forall j :: 0 <= j < |done| ==> SymbolHistory(exchange, done[j], timeframe, nowMs, start).Ok?) &&
    (forall i, j :: 0 <= i < |first| && 0 <= j < |done| ==>
       t.rows[i].cells[j] == Lookup(SymbolHistory(exchange, done[j], timeframe, nowMs, start).value, t.rows[i].ts))
  }

  /** One round of the list loop once `out` is bound and both the fetch and the join succeed. */
  lemma JoinAllStep(exchange: Exchange, timeframe: string, nowMs: int, start: Option<int>,
                    t: Table, rest: seq<string>)
    requires AllAdvance(exchange, rest, timeframe, nowMs)
    requires rest != []
    ensures AllAdvance(exchange, rest[1..], timeframe, nowMs)
    ensures Advances(exchange, rest[0], timeframe, Cutoff(timeframe, nowMs))
    ensures SymbolHistory(exchange, rest[0], timeframe, nowMs, start).Ok? ==>
              var s := SymbolHistory(exchange, rest[0], timeframe, nowMs, start).value;
              Join(t, rest[0], s).Ok? ==>
                (JoinAll(exchange, timeframe, nowMs, start, Some(t), rest)
                 == JoinAll(exchange, timeframe, nowMs, start, Some(Join(t, rest[0], s).value), rest[1..]))
  {
    assert rest[0] in rest;
    forall x | x in rest[1..] ensures x in rest {}
  }

  lemma AssembledJoin(exchange: Exchange, timeframe: string, nowMs: int, start: Option<int>,
                      t: Table, done: seq<string>, first: Series, symbol: string)
    requires Assembled(exchange, timeframe, nowMs, start, t, done, first)
    requires Advances(exchange, symbol, timeframe, Cutoff(timeframe, nowMs))
    requires SymbolHistory(exchange, symbol, timeframe, nowMs, start).Ok?
    requires Join(t, symbol, SymbolHistory(exchange, symbol, timeframe, nowMs, start).value).Ok?
    ensures Assembled(exchange, timeframe, nowMs, start,
                      Join(t, symbol, SymbolHistory(exchange, symbol, timeframe, nowMs, start).value).value,
                      done + [symbol], first)
  {
    var s := SymbolHistory(exchange, symbol, timeframe, nowMs, start).value;
    var t' := Join(t, symbol, s).value;
    var done' := done + [symbol];
    assert AllAdvance(exchange, done', timeframe, nowMs);
    forall j | 0 <= j < |done'|
      ensures SymbolHistory(exchange, done'[j], timeframe, nowMs, start).Ok?
    {
      if j < |done| { assert done'[j] == done[j]; }
    }
    forall i, j | 0 <= i < |first| && 0 <= j < |done'|
      ensures t'.rows[i].cells[j] == Lookup(SymbolHistory(exchange, done'[j], timeframe, nowMs, start).value, t'.rows[i].ts)
    {
      if j < |done| { assert done'[j] == done[j]; }
    }
  }

  lemma {:induction false} JoinAllAssembled(exchange: Exchange, timeframe: string, nowMs: int,
                                            start: Option<int>, t: Table, done: seq<string>,
                                            first: Series, rest: seq<string>)
    requires AllAdvance(exchange, rest, timeframe, nowMs)
    requires Assembled(exchange, timeframe, nowMs, start, t, done, first)
    requires JoinAll(exchange, timeframe, nowMs, start, Some(t), rest).Ok?
    ensures Assembled(exchange, timeframe, nowMs, start,
                      JoinAll(exchange, timeframe, nowMs, start, Some(t), rest).value, done + rest, first)
    decreases |rest|
  {
    if rest == [] {
      assert done + rest == done;
    } else {
      JoinAllStep(exchange, timeframe, nowMs, start, t, rest);
      var s := SymbolHistory(exchange, rest[0], timeframe, nowMs, start).value;
      AssembledJoin(exchange, timeframe, nowMs, start, t, done, first, rest[0]);
      JoinAllAssembled(exchange, timeframe, nowMs, start, Join(t, rest[0], s).value,
                       done + [rest[0]], first, rest[1..]);
      assert done + [rest[0]] + rest[1..] == done + rest;
    }
  }

  /** The combined frame of a list: one column group per listed symbol, exactly the rows of the
      first symbol's frame (a left join), and in each cell the bar that symbol's own frame,
      fetched from a fresh accumulator, holds at the row's timestamp. */
  lemma HistoryOfMany(exchange: Exchange, symbols: seq<string>, timeframe: string, nowMs: int,
                      start: Option<int>)
    requires AllAdvance(exchange, symbols, timeframe, nowMs)
    requires HistoryOf(exchange, Many(symbols), timeframe, nowMs, start).Ok?
    ensures symbols != [] && SymbolHistory(exchange, symbols[0], timeframe, nowMs, start).Ok?
    ensures Assembled(exchange, timeframe, nowMs, start,
                      HistoryOf(exchange, Many(symbols), timeframe, nowMs, start).value, symbols,
                      SymbolHistory(exchange, symbols[0], timeframe, nowMs, start).value)
  {
    assert symbols[0] in symbols;
    var first := SymbolHistory(exchange, symbols[0], timeframe, nowMs, start).value;
    var t0 := Frame(symbols[0], first);
    assert AllAdvance(exchange, symbols[1..], timeframe, nowMs) by {
      forall x | x in symbols[1..] ensures x in symbols {}
    }
    var done := [symbols[0]];
    MergeChunksSpec(Collect(exchange, symbols[0], timeframe, Cutoff(timeframe, nowMs), start, []).value);
    forall i | 0 <= i < |first|
      ensures t0.rows[i].cells[0] == Lookup(first, t0.rows[i].ts)
    {
      LookupAt(first, i);
    }
    assert AllAdvance(exchange, done, timeframe, nowMs);
    assert Assembled(exchange, timeframe, nowMs, start, t0, done, first);
    JoinAllAssembled(exchange, timeframe, nowMs, start, t0, done, first, symbols[1..]);
    assert done + symbols[1..] == symbols;
  }

  lemma {:induction false} JoinAllDistinct(exchange: Exchange, timeframe: string, nowMs: int,
                                           start: Option<int>, t: Table, rest: seq<string>)
    requires AllAdvance(exchange, rest, timeframe, nowMs)
    requires forall j :: 0 <= j < |rest| ==> SymbolHistory(exchange, rest[j], timeframe, nowMs, start).Ok?
    requires Distinct(t.symbols)
    ensures JoinAll(exchange, timeframe, nowMs, start, Some(t), rest).Ok? <==> Distinct(t.symbols + rest)
    decreases |rest|
  {
    if rest == [] {
      assert t.symbols + rest == t.symbols;
    } else {
      JoinAllStep(exchange, timeframe, nowMs, start, t, rest);
      var s := SymbolHistory(exchange, rest[0], timeframe, nowMs, start).value;
      var all := t.symbols + rest;
      if rest[0] in t.symbols {
        var k :| 0 <= k < |t.symbols| && t.symbols[k] == rest[0];
        assert all[k] == all[|t.symbols|];
      } else {
        var t' := Join(t, rest[0], s).value;
        forall j | 0 <= j < |rest[1..]|
          ensures SymbolHistory(exchange, rest[1..][j], timeframe, nowMs, start).Ok?
        {
          assert rest[1..][j] == rest[j + 1];
        }
        JoinAllDistinct(exchange, timeframe, nowMs, start, t', rest[1..]);
        assert t'.symbols + rest[1..] == all;
      }
    }
  }

  /** When every fetch succeeds, a list yields a frame exactly when it is non-empty and names
      no symbol twice; a repeated symbol makes the join fail on overlapping columns. */
  lemma HistoryOfManyOk(exchange: Exchange, symbols: seq<string>, timeframe: string, nowMs: int,
                        start: Option<int>)
    requires AllAdvance(exchange, symbols, timeframe, nowMs)
    requires forall j :: 0 <= j < |symbols| ==> SymbolHistory(exchange, symbols[j], timeframe, nowMs, start).Ok?
    ensures HistoryOf(exchange, Many(symbols), timeframe, nowMs, start).Ok? <==>
            symbols != [] && Distinct(symbols)
  {
    if symbols != [] {
      assert symbols[0] in symbols;
      var first := SymbolHistory(exchange, symbols[0], timeframe, nowMs, start).value;
      var t0 := Frame(symbols[0], first);
      assert AllAdvance(exchange, symbols[1..], timeframe, nowMs) by {
        forall x | x in symbols[1..] ensures x in symbols {}
      }
      forall j | 0 <= j < |symbols[1..]|
        ensures SymbolHistory(exchange, symbols[1..][j], timeframe, nowMs, start).Ok?
      {
        assert symbols[1..][j] == symbols[j + 1];
      }
      JoinAllDistinct(exchange, timeframe, nowMs, start, t0, symbols[1..]);
      assert [symbols[0]] + symbols[1..] == symbols;
    }
  }

  /** Two symbols without a common timestamp: the frame keeps the first symbol's rows only and
      the second symbol's cells are all NaN. */
  lemma HistoryOfDisjointPair(exchange: Exchange, a: string, b: string, timeframe: string, nowMs: int,
                              start: Option<int>)
    requires AllAdvance(exchange, [a, b], timeframe, nowMs)
    requires HistoryOf(exchange, Many([a, b]), timeframe, nowMs, start).Ok?
    ensures SymbolHistory(exchange, a, timeframe, nowMs, start).Ok? &&
            SymbolHistory(exchange, b, timeframe, nowMs, start).Ok?
    ensures var t := HistoryOf(exchange, Many([a, b]), timeframe, nowMs, start).value;
            t.symbols == [a, b] && WellFormed(t) &&
            |t.rows| == |SymbolHistory(exchange, a, timeframe, nowMs, start).value| &&
            (Timestamps(SymbolHistory(exchange, a, timeframe, nowMs, start).value) !!
             Timestamps(SymbolHistory(exchange, b, timeframe, nowMs, start).value) ==>
               forall i :: 0 <= i < |t.rows| ==> t.rows[i].cells[1] == None)
  {
    HistoryOfMany(exchange, [a, b], timeframe, nowMs, start);
    var sa := SymbolHistory(exchange, a, timeframe, nowMs, start).value;
    var sb := SymbolHistory(exchange, b, timeframe, nowMs, start).value;
    var t := HistoryOf(exchange, Many([a, b]), timeframe, nowMs, start).value;
    assert [a, b][0] == a && [a, b][1] == b;
    if Timestamps(sa) !! Timestamps(sb) {
      forall i | 0 <= i < |t.rows| ensures t.rows[i].cells[1] == None {
        assert sa[i] in sa;
        assert t.rows[i].ts in Timestamps(sa);
      }
    }
  }
}
