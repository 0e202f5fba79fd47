/** `DataCollector.get_markets` and `get_topvolumes`: one row per market record, the
    perpetual rule, the two filters and the ranking by 24h volume. */
module Markets {
  import opened Candles

  /** A record of `fetch_markets()`, reduced to the fields the collector reads. `None` is a
      missing key or, for the fields read through `float()`, a value it cannot parse. */
  datatype RawMarket = RawMarket(
    id: Option<string>, base: Option<string>, marketType: Option<string>,
    amountPrecision: Option<real>, pricePrecision: Option<real>, minAmount: Option<real>,
    bid: Option<real>, ask: Option<real>, price: Option<real>,
    change1h: Option<real>, change24h: Option<real>, changeBod: Option<real>,
    volumeUsd24h: Option<real>)

  /** One row of the markets frame (`dict_` once every field has been read). */
  datatype Market = Market(
    timestamp: int, id: string, base: string, marketType: string, isPerp: bool,
    amountPrecision: real, pricePrecision: real, minAmount: real,
    bid: real, ask: real, price: real,
    change1h: real, change24h: real, changeBod: real,
    volumeUsd24h: real)

  /** Python's `sub in s` on strings. */
  predicate Contains(s: string, sub: string)
    decreases |s|
  {
    (|sub| <= |s| && s[..|sub|] == sub) || (s != [] && Contains(s[1..], sub))
  }

  /** `Contains` holds exactly when `sub` occurs at some position of `s`. */
  lemma {:induction false} ContainsAt(s: string, sub: string, i: int)
    requires 0 <= i <= |s| - |sub| && s[i..i + |sub|] == sub
    ensures Contains(s, sub)
    decreases i
  {
    if i > 0 {
      assert s[1..][i - 1..i - 1 + |sub|] == s[i..i + |sub|];
      ContainsAt(s[1..], sub, i - 1);
    }
  }

  lemma {:induction false} ContainsWitness(s: string, sub: string) returns (i: int)
    requires Contains(s, sub)
    ensures 0 <= i <= |s| - |sub| && s[i..i + |sub|] == sub
    decreases |s|
  {
    if |sub| <= |s| && s[..|sub|] == sub {
      i := 0;
    } else {
      var j := ContainsWitness(s[1..], sub);
      assert s[1..][j..j + |sub|] == s[j + 1..j + 1 + |sub|];
      i := j + 1;
    }
  }

  /** The `isPerp` column: the id contains "PERP" and the market type is "future". */
  predicate IsPerp(id: string, marketType: string)
  {
    Contains(id, "PERP") && marketType == "future"
  }

  lemma IsPerpExamples()
    ensures IsPerp("BTC-PERP", "future")
    ensures !IsPerp("BTC-PERP", "spot")
  {
    ContainsAt("BTC-PERP", "PERP", 4);
  }

  /** Every field the extraction reads is there. */
  predicate Complete(m: RawMarket)
  {
    m.id.Some? && m.base.Some? && m.marketType.Some? &&
    m.amountPrecision.Some? && m.pricePrecision.Some? && m.minAmount.Some? &&
    m.bid.Some? && m.ask.Some? && m.price.Some? &&
    m.change1h.Some? && m.change24h.Some? && m.changeBod.Some? &&
    m.volumeUsd24h.Some?
  }

  /** The body of the extraction loop for one record: a full row, the `{}` placeholder when a
      field is missing, or the KeyError the handler itself raises when the id is missing. */
  function Extract(timestamp: int, m: RawMarket): (r: Result<Option<Market>>)
    ensures r.Err? <==> m.id.None?
    ensures r.Err? ==> r.error == MissingMarketId
    ensures r.Ok? ==> (r.value.Some? <==> Complete(m))
    ensures r.Ok? && r.value.Some? ==>
              r.value.value.timestamp == timestamp &&
              r.value.value.id == m.id.value &&
              r.value.value.marketType == m.marketType.value &&
              r.value.value.volumeUsd24h == m.volumeUsd24h.value &&
              (r.value.value.isPerp <==> IsPerp(m.id.value, m.marketType.value))
  {
    if m.id.None? then Err(MissingMarketId)
    else if !Complete(m) then Ok(None)
    else
      var id := m.id.value;
      var kind := m.marketType.value;
      Ok(Some(Market(timestamp, id, m.base.value, kind, IsPerp(id, kind),
                     m.amountPrecision.value, m.pricePrecision.value, m.minAmount.value,
                     m.bid.value, m.ask.value, m.price.value,
                     m.change1h.value, m.change24h.value, m.changeBod.value,
                     m.volumeUsd24h.value)))
  }

  /** The extracted rows, position by position, when no record lacks its id. */
  function Rows(timestamp: int, markets: seq<RawMarket>): seq<Option<Market>>
    requires forall i :: 0 <= i < |markets| ==> markets[i].id.Some?
  {
    seq(|markets|, i requires 0 <= i < |markets| => Extract(timestamp, markets[i]).value)
  }

  /** The loop that fills `out = [{}] * len(markets)` slot by slot. */
  method ExtractAll(timestamp: int, markets: seq<RawMarket>) returns (r: Result<seq<Option<Market>>>)
    ensures r.Err? <==> exists i :: 0 <= i < |markets| && markets[i].id.None?
    ensures r.Err? ==> r.error == MissingMarketId
    ensures r.Ok? ==> |r.value| == |markets| &&
                      forall i :: 0 <= i < |markets| ==> Extract(timestamp, markets[i]) == Ok(r.value[i])
    ensures r.Ok? ==> r.value == Rows(timestamp, markets)
  {
    var out := new Option<Market>[|markets|](_ => None);
    for i := 0 to |markets|
      invariant forall k :: 0 <= k < i ==> Extract(timestamp, markets[k]) == Ok(out[k])
    {
      var row := Extract(timestamp, markets[i]);
      if row.Err? {
        return Err(row.error);
      }
      out[i] := row.value;
    }
    r := Ok(out[..]);
  }

  // ------------------------------------------------------------ filters

  /** The filter rule: `perps_only` is tested first, `futures_only` only when it is off;
      a placeholder row has neither flag and fails both tests. */
  predicate Keep(row: Option<Market>, futuresOnly: bool, perpsOnly: bool)
  {
    if perpsOnly then row.Some? && row.value.isPerp
    else if futuresOnly then row.Some? && row.value.marketType == "future"
    else true
  }

  function Filter(rows: seq<Option<Market>>, futuresOnly: bool, perpsOnly: bool): (r: seq<Option<Market>>)
    ensures forall x :: x in r <==> x in rows && Keep(x, futuresOnly, perpsOnly)
    ensures forall x :: multiset(r)[x] == if Keep(x, futuresOnly, perpsOnly) then multiset(rows)[x] else 0
  {
    if rows == [] then []
    else
      assert rows == [rows[0]] + rows[1..];
      (if Keep(rows[0], futuresOnly, perpsOnly) then [rows[0]] else []) + Filter(rows[1..], futuresOnly, perpsOnly)
  }

  /** With `perps_only` set, `futures_only` makes no difference. */
  lemma {:induction false} PerpsOnlyWins(rows: seq<Option<Market>>, futuresOnly: bool)
    ensures Filter(rows, futuresOnly, true) == Filter(rows, !futuresOnly, true)
  {
    if rows != [] {
      PerpsOnlyWins(rows[1..], futuresOnly);
    }
  }

  /** Without any filter, the rows are kept as they are, placeholders included. */
  lemma {:induction false} NoFilterKeepsAll(rows: seq<Option<Market>>)
    ensures Filter(rows, false, false) == rows
  {
    if rows != [] {
      NoFilterKeepsAll(rows[1..]);
      assert rows == [rows[0]] + rows[1..];
    }
  }

  /** A row's `isPerp` is the rule of its id and type. */
  predicate Extracted(row: Option<Market>)
  {
    row.Some? ==> (row.value.isPerp <==> IsPerp(row.value.id, row.value.marketType))
  }

  /** Rows built by `Extract` mark as perpetual only futures, so every row `perps_only` keeps
      is also kept by `futures_only`. */
  lemma PerpsAreFutures(rows: seq<Option<Market>>, futuresOnly: bool)
    requires forall i :: 0 <= i < |rows| ==> Extracted(rows[i])
    ensures forall x :: x in Filter(rows, futuresOnly, true) ==> x in Filter(rows, true, false)
  {
    forall x | x in Filter(rows, futuresOnly, true) ensures x in Filter(rows, true, false) {
      var i :| 0 <= i < |rows| && rows[i] == x;
    }
  }

  /** `pd.DataFrame(out)` has an `id` column only when some slot holds a full row; with no
      records, or none complete, `df['id']` raises the KeyError. */
  predicate HasIdColumn(markets: seq<RawMarket>)
  {
    exists i :: 0 <= i < |markets| && Complete(markets[i])
  }

  /** `get_markets`: the extracted rows, filtered. */
  method GetMarkets(timestamp: int, markets: seq<RawMarket>, futuresOnly: bool, perpsOnly: bool)
    returns (r: Result<seq<Option<Market>>>)
    ensures r.Err? <==> (exists i :: 0 <= i < |markets| && markets[i].id.None?) || !HasIdColumn(markets)
    ensures r.Err? ==> r.error == MissingMarketId
    ensures r.Ok? ==> r.value == Filter(Rows(timestamp, markets), futuresOnly, perpsOnly)
    ensures r.Ok? ==> forall x :: x in r.value ==> Extracted(x)
  {
    var all := ExtractAll(timestamp, markets);
    if all.Err? {
      return Err(all.error);
    }
    if forall k :: 0 <= k < |all.value| ==> all.value[k].None? {
      assert !HasIdColumn(markets) by {
        forall i | 0 <= i < |markets| ensures !Complete(markets[i]) {
          assert Extract(timestamp, markets[i]) == Ok(all.value[i]);
        }
      }
      return Err(MissingMarketId);
    }
    assert HasIdColumn(markets) by {
      var k :| 0 <= k < |all.value| && all.value[k].Some?;
      assert Extract(timestamp, markets[k]) == Ok(all.value[k]);
    }
    r := Ok(Filter(all.value, futuresOnly, perpsOnly));
    forall x | x in r.value ensures Extracted(x) {
      var i :| 0 <= i < |all.value| && all.value[i] == x;
    }
  }

  // ------------------------------------------------------------ ranking

  /** `a` may come before `b` in descending 24h volume; a placeholder (NaN volume) sorts last. */
  predicate RanksAtLeast(a: Option<Market>, b: Option<Market>)
  {
    b.None? || (a.Some? && a.value.volumeUsd24h >= b.value.volumeUsd24h)
  }

  predicate Ranked(s: seq<Option<Market>>)
  {
    forall i, j :: 0 <= i < j < |s| ==> RanksAtLeast(s[i], s[j])
  }

  function InsertByVolume(x: Option<Market>, s: seq<Option<Market>>): seq<Option<Market>>
  {
    if s == [] || RanksAtLeast(x, s[0]) then [x] + s else [s[0]] + InsertByVolume(x, s[1..])
  }

  /** `sort_values('volumeUsd24h', ascending=False)`. */
  function RankByVolume(s: seq<Option<Market>>): seq<Option<Market>>
  {
    if s == [] then [] else InsertByVolume(s[0], RankByVolume(s[1..]))
  }

  lemma {:induction false} InsertByVolumeMultiset(x: Option<Market>, s: seq<Option<Market>>)
    ensures multiset(InsertByVolume(x, s)) == multiset(s) + multiset{x}
  {
    if s != [] && !RanksAtLeast(x, s[0]) {
      InsertByVolumeMultiset(x, s[1..]);
      assert s == [s[0]] + s[1..];
    }
  }

  lemma {:induction false} InsertByVolumeRanked(x: Option<Market>, s: seq<Option<Market>>)
    requires Ranked(s)
    ensures Ranked(InsertByVolume(x, s))
  {
    if s == [] || RanksAtLeast(x, s[0]) {
      if s != [] {
        forall j | 0 <= j < |s| ensures RanksAtLeast(x, s[j]) {
          assert RanksAtLeast(s[0], s[j]) || j == 0;
        }
      }
    } else {
      var t := s[1..];
      InsertByVolumeRanked(x, t);
      InsertByVolumeMultiset(x, t);
      var r := InsertByVolume(x, t);
      forall i | 0 <= i < |r| ensures RanksAtLeast(s[0], r[i]) {
        assert r[i] in multiset(r);
        if r[i] != x {
          assert r[i] in multiset(t);
          var j :| 0 <= j < |t| && t[j] == r[i];
          assert s[j + 1] == r[i];
        }
      }
    }
  }

  lemma {:induction false} RankByVolumeFacts(s: seq<Option<Market>>)
    ensures multiset(RankByVolume(s)) == multiset(s)
    ensures Ranked(RankByVolume(s))
  {
    if s != [] {
      RankByVolumeFacts(s[1..]);
      InsertByVolumeMultiset(s[0], RankByVolume(s[1..]));
      InsertByVolumeRanked(s[0], RankByVolume(s[1..]));
      assert s == [s[0]] + s[1..];
    }
  }

  /** Python's `s[:n]`: the first `n` items, or all but the last `-n` when `n` is negative. */
  function Head<T>(s: seq<T>, n: int): (r: seq<T>)
    ensures n >= 0 ==> |r| == if n <= |s| then n else |s|
    ensures n < 0 ==> |r| == if |s| + n >= 0 then |s| + n else 0
    ensures r <= s
  {
    if n >= 0 then s[..if n <= |s| then n else |s|]
    else s[..if |s| + n >= 0 then |s| + n else 0]
  }

  function IdOf(row: Option<Market>): Option<string>
  {
    if row.Some? then Some(row.value.id) else None
  }

  /** The rows `get_topvolumes` reports, in order. */
  function TopRows(rows: seq<Option<Market>>, n: int): seq<Option<Market>>
  {
    Head(RankByVolume(rows), n)
  }

  /** `list(... .index[:n])`: the ids of the top rows; a placeholder row's id is NaN (`None`). */
  function TopVolumes(rows: seq<Option<Market>>, n: int): (ids: seq<Option<string>>)
    ensures |ids| == |TopRows(rows, n)|
    ensures forall i :: 0 <= i < |ids| ==> ids[i] == IdOf(TopRows(rows, n)[i])
  {
    var top := TopRows(rows, n);
    seq(|top|, i requires 0 <= i < |top| => IdOf(top[i]))
  }

  /** The top rows: at most `n` of them (Python slicing for a negative `n`), taken from the
      input, in non-increasing 24h volume, and none of the rows left out ranks above any of them. */
  lemma TopRowsSpec(rows: seq<Option<Market>>, n: int)
    ensures n >= 0 ==> |TopRows(rows, n)| == if n <= |rows| then n else |rows|
    ensures n < 0 ==> |TopRows(rows, n)| == if |rows| + n >= 0 then |rows| + n else 0
    ensures Ranked(TopRows(rows, n))
    ensures multiset(TopRows(rows, n)) <= multiset(rows)
    ensures forall x, i :: x in multiset(rows) - multiset(TopRows(rows, n)) && 0 <= i < |TopRows(rows, n)| ==>
              RanksAtLeast(TopRows(rows, n)[i], x)
  {
    var ranked := RankByVolume(rows);
    RankByVolumeFacts(rows);
    var top := TopRows(rows, n);
    var rest := ranked[|top|..];
    assert ranked == top + rest;
    assert multiset(ranked) == multiset(top) + multiset(rest);
    forall x, i | x in multiset(rows) - multiset(top) && 0 <= i < |top|
      ensures RanksAtLeast(top[i], x)
    {
      assert x in multiset(rest);
      var k :| 0 <= k < |rest| && rest[k] == x;
      assert ranked[|top| + k] == x && ranked[i] == top[i];
    }
  }

  /** After either filter every row is a real market, so no NaN id is reported. */
  lemma FilteredIdsPresent(rows: seq<Option<Market>>, futuresOnly: bool, perpsOnly: bool, n: int)
    requires futuresOnly || perpsOnly
    ensures forall i :: 0 <= i < |TopVolumes(Filter(rows, futuresOnly, perpsOnly), n)| ==>
              TopVolumes(Filter(rows, futuresOnly, perpsOnly), n)[i].Some?
  {
    var f := Filter(rows, futuresOnly, perpsOnly);
    RankByVolumeFacts(f);
    var top := TopRows(f, n);
    forall i | 0 <= i < |top| ensures top[i].Some? {
      assert top[i] in RankByVolume(f);
      assert top[i] in multiset(RankByVolume(f));
      assert top[i] in f;
    }
  }

  /** `get_topvolumes`. */
  method GetTopVolumes(timestamp: int, markets: seq<RawMarket>, n: int, futuresOnly: bool, perpsOnly: bool)
    returns (r: Result<seq<Option<string>>>)
    ensures r.Err? <==> (exists i :: 0 <= i < |markets| && markets[i].id.None?) || !HasIdColumn(markets)
    ensures r.Err? ==> r.error == MissingMarketId
    ensures r.Ok? ==> r.value == TopVolumes(Filter(Rows(timestamp, markets), futuresOnly, perpsOnly), n)
  {
    var m := GetMarkets(timestamp, markets, futuresOnly, perpsOnly);
    if m.Err? {
      return Err(m.error);
    }
    r := Ok(TopVolumes(m.value, n));
  }

  function Sample(id: string, volume: real): Market
  {
    Market(0, id, "BTC", "future", false, 1.0, 1.0, 1.0, 1.0, 1.0, 1.0, 0.0, 0.0, 0.0, volume)
  }

  /** Three markets with 24h volumes 50, 200 and 10: the top two are the 200 and the 50 one. */
  lemma TopTwoExample()
    ensures TopVolumes([Some(Sample("A", 50.0)), Some(Sample("B", 200.0)), Some(Sample("C", 10.0))], 2)
         == [Some("B"), Some("A")]
  {
    var a, b, c := Some(Sample("A", 50.0)), Some(Sample("B", 200.0)), Some(Sample("C", 10.0));
    var rows := [a, b, c];
    assert rows[1..] == [b, c] && [b, c][1..] == [c] && [c][1..] == [];
    assert RankByVolume([c]) == [c];
    assert RankByVolume([b, c]) == [b, c];
    assert InsertByVolume(a, [b, c]) == [b] + InsertByVolume(a, [c]);
    assert RankByVolume(rows) == [b, a, c];
    assert TopRows(rows, 2) == [b, a];
  }
}
