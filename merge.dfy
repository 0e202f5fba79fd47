/** Turning the accumulated chunks of one symbol into its frame: flatten the chunks in
    append order, drop repeated timestamps keeping the first row, sort by timestamp. */
module Merge {
  import opened Candles

  /** The chunks laid end to end in the order they were appended. */
  function Concat(acc: seq<Chunk>): seq<Candle>
  {
    if acc == [] then [] else Concat(acc[..|acc| - 1]) + acc[|acc| - 1]
  }

  function TotalLength(acc: seq<Chunk>): nat
  {
    if acc == [] then 0 else TotalLength(acc[..|acc| - 1]) + |acc[|acc| - 1]|
  }

  lemma {:induction false} ConcatLength(acc: seq<Chunk>)
    ensures |Concat(acc)| == TotalLength(acc)
  {
    if acc != [] {
      ConcatLength(acc[..|acc| - 1]);
    }
  }

  lemma {:induction false} ConcatMembers(acc: seq<Chunk>, c: Candle)
    ensures c in Concat(acc) <==> exists k :: 0 <= k < |acc| && c in acc[k]
  {
    if acc != [] {
      var init := acc[..|acc| - 1];
      ConcatMembers(init, c);
      assert forall k :: 0 <= k < |init| ==> init[k] == acc[k];
    }
  }

  /** The nested loops of the collector that append every row of every chunk to `out`. */
  method Flatten(acc: seq<Chunk>) returns (out: seq<Candle>)
    ensures out == Concat(acc)
  {
    out := [];
    for k := 0 to |acc|
      invariant out == Concat(acc[..k])
    {
      for i := 0 to |acc[k]|
        invariant out == Concat(acc[..k]) + acc[k][..i]
      {
        out := out + [acc[k][i]];
      }
      assert acc[..k + 1][..k] == acc[..k];
      assert acc[k][..|acc[k]|] == acc[k];
    }
    assert acc[..|acc|] == acc;
  }

  // ---------------------------------------------------------------- dedup

  /** Row `i` of `s` is the first row carrying its timestamp. */
  predicate IsFirst(s: seq<Candle>, i: int)
    requires 0 <= i < |s|
  {
    forall j :: 0 <= j < i ==> s[j].ts != s[i].ts
  }

  /** Drops every row whose timestamp already occurred earlier (`keep='first'`). */
  function KeepFirst(s: seq<Candle>): seq<Candle>
  {
    if s == [] then []
    else
      var init := s[..|s| - 1];
      if s[|s| - 1].ts in Timestamps(init) then KeepFirst(init)
      else KeepFirst(init) + [s[|s| - 1]]
  }

  lemma {:induction false} KeepFirstTimestamps(s: seq<Candle>)
    ensures Timestamps(KeepFirst(s)) == Timestamps(s)
  {
    if s != [] {
      var init := s[..|s| - 1];
      KeepFirstTimestamps(init);
      assert s == init + [s[|s| - 1]];
      assert Timestamps(s) == Timestamps(init) + {s[|s| - 1].ts};
    }
  }

  lemma {:induction false} KeepFirstUnique(s: seq<Candle>)
    ensures UniqueTs(KeepFirst(s))
  {
    if s != [] {
      var init := s[..|s| - 1];
      KeepFirstUnique(init);
      KeepFirstTimestamps(init);
      var r := KeepFirst(init);
      if s[|s| - 1].ts !in Timestamps(init) {
        forall i | 0 <= i < |r| ensures r[i].ts != s[|s| - 1].ts {
          assert r[i] in r;
        }
      }
    }
  }

  /** A row survives the dedup exactly when it is the first row with its timestamp. */
  lemma {:induction false} KeepFirstFirstWins(s: seq<Candle>, c: Candle)
    ensures c in KeepFirst(s) <==> exists i :: 0 <= i < |s| && s[i] == c && IsFirst(s, i)
  {
    if s != [] {
      var n := |s| - 1;
      var init := s[..n];
      KeepFirstFirstWins(init, c);
      assert forall i :: 0 <= i < n ==> (IsFirst(init, i) <==> IsFirst(s, i));
      var lastFirst := s[n].ts !in Timestamps(init);
      assert lastFirst <==> IsFirst(s, n) by {
        if !lastFirst {
          var d :| d in init && d.ts == s[n].ts;
          var j :| 0 <= j < n && init[j] == d;
        } else {
          forall j | 0 <= j < n ensures s[j].ts != s[n].ts {
            assert init[j] in init;
          }
        }
      }
    }
  }

  lemma {:induction false} KeepFirstOfUnique(s: seq<Candle>)
    requires UniqueTs(s)
    ensures KeepFirst(s) == s
  {
    if s != [] {
      var n := |s| - 1;
      var init := s[..n];
      KeepFirstOfUnique(init);
      assert s[n].ts !in Timestamps(init) by {
        forall d | d in init ensures d.ts != s[n].ts {
          var j :| 0 <= j < n && init[j] == d;
        }
      }
      assert s == init + [s[n]];
    }
  }

  // ---------------------------------------------------------------- sort

  function Insert(c: Candle, s: seq<Candle>): seq<Candle>
  {
    if s == [] || c.ts <= s[0].ts then [c] + s else [s[0]] + Insert(c, s[1..])
  }

  /** `sort_index()`: the rows ordered by ascending timestamp. */
  function SortByTs(s: seq<Candle>): seq<Candle>
  {
    if s == [] then [] else Insert(s[0], SortByTs(s[1..]))
  }

  lemma {:induction false} InsertMultiset(c: Candle, s: seq<Candle>)
    ensures multiset(Insert(c, s)) == multiset(s) + multiset{c}
  {
    if s != [] && c.ts > s[0].ts {
      InsertMultiset(c, s[1..]);
      assert s == [s[0]] + s[1..];
    }
  }

  lemma {:induction false} InsertTimestamps(c: Candle, s: seq<Candle>)
    ensures Timestamps(Insert(c, s)) == Timestamps(s) + {c.ts}
  {
    if s != [] && c.ts > s[0].ts {
      InsertTimestamps(c, s[1..]);
      assert s == [s[0]] + s[1..];
      assert Timestamps(s) == {s[0].ts} + Timestamps(s[1..]);
      assert Timestamps(Insert(c, s)) == {s[0].ts} + Timestamps(Insert(c, s[1..]));
    }
  }

  /** Every row of `Insert(c, s)` is `c` or a row of `s`. */
  lemma InsertMembers(c: Candle, s: seq<Candle>)
    ensures forall x :: x in Insert(c, s) ==> x == c || x in s
  {
    InsertMultiset(c, s);
    forall x | x in Insert(c, s) ensures x == c || x in s {
      assert x in multiset(Insert(c, s));
    }
  }

  /** Inserting into a sorted frame keeps it sorted. */
  lemma {:induction false} InsertSorted(c: Candle, s: seq<Candle>)
    requires Sorted(s)
    ensures Sorted(Insert(c, s))
  {
    if s != [] && c.ts > s[0].ts {
      var t := s[1..];
      InsertSorted(c, t);
      var r := Insert(c, t);
      InsertMembers(c, t);
      forall i | 0 <= i < |r| ensures s[0].ts <= r[i].ts {
        assert r[i] in r;
        if r[i] != c {
          var j :| 0 <= j < |t| && t[j] == r[i];
          assert s[j + 1] == r[i];
        }
      }
    }
  }

  /** Inserting a row with a new timestamp into a strictly increasing frame keeps it
      strictly increasing. */
  lemma {:induction false} InsertStrict(c: Candle, s: seq<Candle>)
    requires StrictlyIncreasing(s) && c.ts !in Timestamps(s)
    ensures StrictlyIncreasing(Insert(c, s))
  {
    if s == [] || c.ts <= s[0].ts {
      if s != [] {
        assert s[0] in s;
      }
    } else {
      var t := s[1..];
      assert Timestamps(s) == {s[0].ts} + Timestamps(t) by {
        assert s == [s[0]] + t;
      }
      InsertStrict(c, t);
      var r := Insert(c, t);
      InsertMembers(c, t);
      forall i | 0 <= i < |r| ensures s[0].ts < r[i].ts {
        assert r[i] in r;
        if r[i] != c {
          var j :| 0 <= j < |t| && t[j] == r[i];
          assert s[j + 1] == r[i];
        }
      }
    }
  }

  lemma {:induction false} SortMultiset(s: seq<Candle>)
    ensures multiset(SortByTs(s)) == multiset(s)
  {
    if s != [] {
      SortMultiset(s[1..]);
      InsertMultiset(s[0], SortByTs(s[1..]));
      assert s == [s[0]] + s[1..];
    }
  }

  lemma {:induction false} SortTimestamps(s: seq<Candle>)
    ensures Timestamps(SortByTs(s)) == Timestamps(s)
  {
    if s != [] {
      SortTimestamps(s[1..]);
      InsertTimestamps(s[0], SortByTs(s[1..]));
      assert s == [s[0]] + s[1..];
      assert Timestamps(s) == {s[0].ts} + Timestamps(s[1..]);
    }
  }

  lemma {:induction false} SortSorted(s: seq<Candle>)
    ensures Sorted(SortByTs(s))
  {
    if s != [] {
      SortSorted(s[1..]);
      InsertSorted(s[0], SortByTs(s[1..]));
    }
  }

  /** Sorting rows with distinct timestamps gives strictly increasing timestamps. */
  lemma {:induction false} SortStrict(s: seq<Candle>)
    requires UniqueTs(s)
    ensures StrictlyIncreasing(SortByTs(s))
  {
    if s != [] {
      var t := s[1..];
      assert UniqueTs(t) by {
        forall i, j | 0 <= i < j < |t| ensures t[i].ts != t[j].ts {
          assert t[i] == s[i + 1] && t[j] == s[j + 1];
        }
      }
      SortStrict(t);
      SortTimestamps(t);
      assert s[0].ts !in Timestamps(t) by {
        forall d | d in t ensures d.ts != s[0].ts {
          var j :| 0 <= j < |t| && t[j] == d;
          assert s[j + 1] == d;
        }
      }
      InsertStrict(s[0], SortByTs(t));
    }
  }

  lemma {:induction false} SortOfSorted(s: seq<Candle>)
    requires Sorted(s)
    ensures SortByTs(s) == s
  {
    if s != [] {
      SortOfSorted(s[1..]);
      assert s == [s[0]] + s[1..];
    }
  }

  // ---------------------------------------------------------------- merge

  /** Dedup on the flattened rows first, then the sort (lines 132-133 of the collector). */
  function Normalize(flat: seq<Candle>): Series
  {
    SortByTs(KeepFirst(flat))
  }

  function MergeChunks(acc: seq<Chunk>): Series
  {
    Normalize(Concat(acc))
  }

  /** The merged frame has strictly increasing timestamps, exactly the timestamps of the
      flattened rows, and each of its rows is the first flattened row with that timestamp. */
  lemma NormalizeSpec(flat: seq<Candle>)
    ensures StrictlyIncreasing(Normalize(flat))
    ensures Timestamps(Normalize(flat)) == Timestamps(flat)
    ensures forall c :: c in Normalize(flat) <==>
              exists i :: 0 <= i < |flat| && flat[i] == c && IsFirst(flat, i)
  {
    var d := KeepFirst(flat);
    KeepFirstUnique(flat);
    KeepFirstTimestamps(flat);
    SortMultiset(d);
    SortTimestamps(d);
    SortStrict(d);
    forall c ensures c in Normalize(flat) <==>
                     exists i :: 0 <= i < |flat| && flat[i] == c && IsFirst(flat, i) {
      KeepFirstFirstWins(flat, c);
      assert c in Normalize(flat) <==> c in multiset(Normalize(flat));
      assert c in d <==> c in multiset(d);
    }
  }

  lemma MergeChunksSpec(acc: seq<Chunk>)
    ensures StrictlyIncreasing(MergeChunks(acc))
    ensures Timestamps(MergeChunks(acc)) == Timestamps(Concat(acc))
    ensures forall c :: c in MergeChunks(acc) <==>
              exists i :: 0 <= i < |Concat(acc)| && Concat(acc)[i] == c && IsFirst(Concat(acc), i)
  {
    NormalizeSpec(Concat(acc));
  }

  /** Merging a frame that is already merged, as the only chunk, gives it back unchanged. */
  lemma MergeOfSeries(s: Series)
    requires StrictlyIncreasing(s)
    ensures MergeChunks([s]) == s
  {
    assert Concat([s]) == s by {
      assert [s][..0] == [];
    }
    KeepFirstOfUnique(s);
    SortOfSorted(s);
  }

  lemma MergeIdempotent(acc: seq<Chunk>)
    ensures MergeChunks([MergeChunks(acc)]) == MergeChunks(acc)
  {
    MergeChunksSpec(acc);
    MergeOfSeries(MergeChunks(acc));
  }

  /** Two chunks overlapping at t = 1000: the row fetched first is the one kept. */
  lemma MergeOverlapExample()
    ensures MergeChunks([[Candle(1000, Bar(1.0, 2.0, 0.5, 1.5, 100.0))],
                         [Candle(1000, Bar(9.0, 9.0, 9.0, 9.0, 9.0)),
                          Candle(2000, Bar(2.0, 3.0, 1.0, 2.0, 200.0))]])
         == [Candle(1000, Bar(1.0, 2.0, 0.5, 1.5, 100.0)),
             Candle(2000, Bar(2.0, 3.0, 1.0, 2.0, 200.0))]
  {
    var a := Candle(1000, Bar(1.0, 2.0, 0.5, 1.5, 100.0));
    var b := Candle(1000, Bar(9.0, 9.0, 9.0, 9.0, 9.0));
    var c := Candle(2000, Bar(2.0, 3.0, 1.0, 2.0, 200.0));
    var acc := [[a], [b, c]];
    assert Concat(acc) == [a, b, c] by {
      assert acc[..1] == [[a]];
      assert Concat([[a]]) == [a] by {
        assert [[a]][..0] == [];
      }
    }
    assert KeepFirst([a]) == [a] by {
      assert [a][..0] == [];
    }
    assert KeepFirst([a, b]) == [a] by {
      assert [a, b][..1] == [a];
      assert a in [a];
      assert b.ts in Timestamps([a]);
    }
    assert KeepFirst([a, b, c]) == [a, c] by {
      assert [a, b, c][..2] == [a, b];
      assert c.ts !in Timestamps([a, b]) by {
        forall d | d in [a, b] ensures d.ts != c.ts {}
      }
    }
    assert SortByTs([a, c]) == [a, c] by {
      assert [a, c][1..] == [c];
      assert SortByTs([c]) == [c] by {
        assert [c][1..] == [];
      }
    }
  }
}
