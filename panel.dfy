/** `select_equal_rows_stock`: keep the rows of every ticker whose number of
    rows is at least the mean number of rows per ticker. With `n` distinct
    tickers and `N` rows the mean is `N / n`, so a ticker with `c` rows is
    kept exactly when `c * n >= N`; the test is stated that way, without
    division. */
module Panel {
  import opened Seqs
  import opened Table

  /** Number of rows of ticker `t` (an entry of `df.tic.value_counts()`). */
  function Count(df: seq<Row>, t: string): nat
  {
    if df == [] then 0 else (if df[0].tic == t then 1 else 0) + Count(df[1..], t)
  }

  predicate Distinct(ts: seq<string>)
  {
    forall i, j :: 0 <= i < j < |ts| ==> ts[i] != ts[j]
  }

  /** The index of `df.tic.value_counts()`: each ticker of the table once. */
  function DistinctTickers(df: seq<Row>): (ts: seq<string>)
    ensures Distinct(ts)
    ensures forall t :: t in ts <==> Count(df, t) > 0
  {
    if df == [] then []
    else
      var rest := DistinctTickers(df[1..]);
      if df[0].tic in rest then rest else [df[0].tic] + rest
  }

  /** `counts >= mean`, cross-multiplied by the number of tickers. */
  predicate Kept(df: seq<Row>, t: string)
  {
    Count(df, t) * |DistinctTickers(df)| >= |df|
  }

  /** `select_stocks_list`: the tickers of the table whose count reaches the mean. */
  function SelectedTickers(df: seq<Row>): (sel: set<string>)
    ensures forall t :: t in sel <==> Count(df, t) > 0 && Kept(df, t)
  {
    set t | t in DistinctTickers(df) && Kept(df, t)
  }

  /** `df[df.tic.isin(sel)]`: the rows whose ticker is selected, in order;
      a ticker's rows are all kept or all dropped. */
  function KeepTickers(df: seq<Row>, sel: set<string>): (r: seq<Row>)
    ensures SubseqOf(r, df)
    ensures forall x :: x in r <==> x in df && x.tic in sel
    ensures forall t :: Count(r, t) == if t in sel then Count(df, t) else 0
  {
    if df == [] then []
    else
      var rest := KeepTickers(df[1..], sel);
      assert df == [df[0]] + df[1..];
      if df[0].tic in sel then
        assert ([df[0]] + rest)[1..] == rest;
        [df[0]] + rest
      else rest
  }

  /** `select_equal_rows_stock(df)` */
  function SelectEqualRowsStock(df: seq<Row>): (r: seq<Row>)
    ensures SubseqOf(r, df)
    ensures forall x :: x in r <==> x in df && Kept(df, x.tic)
  {
    KeepTickers(df, SelectedTickers(df))
  }

  /** Whole groups: a kept ticker keeps every one of its rows (ties at the
      mean included), a dropped ticker keeps none. */
  lemma SelectWholeGroups(df: seq<Row>, t: string)
    ensures Count(SelectEqualRowsStock(df), t) == if Kept(df, t) then Count(df, t) else 0
  {
  }

  /** Sum of the counts of the tickers in `ts`. */
  function SumCounts(df: seq<Row>, ts: seq<string>): nat
  {
    if ts == [] then 0 else Count(df, ts[0]) + SumCounts(df, ts[1..])
  }

  lemma {:induction false} DistinctOccursOnce(ts: seq<string>, t: string)
    requires Distinct(ts) && t in ts
    ensures multiset(ts)[t] == 1
  {
    assert ts == [ts[0]] + ts[1..];
    if ts[0] == t {
      assert t !in ts[1..];
    } else {
      DistinctOccursOnce(ts[1..], t);
    }
  }

  /** Prepending a row adds one to the count of its ticker, once for each
      time that ticker is listed. */
  lemma {:induction false} SumCountsCons(x: Row, df: seq<Row>, ts: seq<string>)
    ensures SumCounts([x] + df, ts) == multiset(ts)[x.tic] + SumCounts(df, ts)
  {
    if ts != [] {
      assert ts == [ts[0]] + ts[1..];
      assert ([x] + df)[0] == x && ([x] + df)[1..] == df;
      SumCountsCons(x, df, ts[1..]);
    }
  }

  /** Counting each ticker once, the counts add up to the number of rows. */
  lemma {:induction false} SumCountsTotal(df: seq<Row>, ts: seq<string>)
    requires Distinct(ts)
    requires forall t :: Count(df, t) > 0 ==> t in ts
    ensures SumCounts(df, ts) == |df|
  {
    if df == [] {
      SumCountsZero(ts);
    } else {
      var x, rest := df[0], df[1..];
      assert df == [x] + rest;
      assert Count(df, x.tic) > 0;
      DistinctOccursOnce(ts, x.tic);
      SumCountsCons(x, rest, ts);
      forall t | Count(rest, t) > 0 ensures t in ts {
        assert Count(df, t) > 0;
      }
      SumCountsTotal(rest, ts);
    }
  }

  lemma {:induction false} SumCountsZero(ts: seq<string>)
    ensures SumCounts([], ts) == 0
  {
    if ts != [] { SumCountsZero(ts[1..]); }
  }

  /** If every listed ticker is below the bound, so is their sum. */
  lemma {:induction false} SumCountsBelow(df: seq<Row>, ts: seq<string>, n: nat, m: int)
    requires ts != []
    requires forall t :: t in ts ==> Count(df, t) * n < m
    ensures SumCounts(df, ts) * n < |ts| * m
  {
    var c, s := Count(df, ts[0]), SumCounts(df, ts[1..]);
    assert (c + s) * n == c * n + s * n;
    if ts[1..] == [] {
      assert s == 0;
    } else {
      SumCountsBelow(df, ts[1..], n, m);
      assert |ts| * m == m + |ts[1..]| * m;
    }
  }

  /** Some ticker's count reaches the mean: not every count can lie
      below the average of all counts. */
  lemma {:induction false} SomeTickerKept(df: seq<Row>)
    requires df != []
    ensures exists t :: t in DistinctTickers(df) && Kept(df, t)
  {
    var ts := DistinctTickers(df);
    var n := |ts|;
    assert df[0].tic in ts by { assert Count(df, df[0].tic) > 0; }
    if forall t :: t in ts ==> !Kept(df, t) {
      SumCountsBelow(df, ts, n, |df|);
      SumCountsTotal(df, ts);
      assert false;
    }
  }

  /** On a non-empty table at least one ticker, with all its rows, survives
      the selection. */
  lemma SelectNonEmpty(df: seq<Row>)
    requires df != []
    ensures SelectEqualRowsStock(df) != []
  {
    SomeTickerKept(df);
    var t :| t in DistinctTickers(df) && Kept(df, t);
    SelectWholeGroups(df, t);
    assert Count(SelectEqualRowsStock(df), t) > 0;
  }

  /** A row of ticker `t`; only the ticker matters to the selection. */
  function RowOf(t: string): Row
  {
    Row(Date(2020, 1, 2), None, None, None, None, None, t, 3)
  }

  /** Counts A:3, B:2, C:1. */
  function Sample(): seq<Row>
  {
    [RowOf("A"), RowOf("A"), RowOf("A"), RowOf("B"), RowOf("B"), RowOf("C")]
  }

  /** Counts A:3, B:2. */
  function SampleKept(): seq<Row>
  {
    [RowOf("A"), RowOf("A"), RowOf("A"), RowOf("B"), RowOf("B")]
  }

  lemma SampleTickers()
    ensures |DistinctTickers(Sample())| == 3
    ensures |DistinctTickers(SampleKept())| == 2
  {
    var df, s1 := Sample(), SampleKept();
    assert "A" != "B" && "A" != "C" && "B" != "C";
    assert DistinctTickers(df[5..]) == ["C"];
    assert DistinctTickers(df[4..]) == ["B", "C"];
    assert DistinctTickers(df[3..]) == ["B", "C"];
    assert DistinctTickers(df[2..]) == ["A", "B", "C"];
    assert DistinctTickers(df[1..]) == ["A", "B", "C"];
    assert DistinctTickers(s1[4..]) == ["B"];
    assert DistinctTickers(s1[3..]) == ["B"];
    assert DistinctTickers(s1[2..]) == ["A", "B"];
    assert DistinctTickers(s1[1..]) == ["A", "B"];
  }

  lemma SampleCounts()
    ensures Count(Sample(), "A") == 3 && Count(Sample(), "B") == 2 && Count(Sample(), "C") == 1
    ensures Count(SampleKept(), "B") == 2
  {
    var df, s1 := Sample(), SampleKept();
    assert "A" != "B" && "A" != "C" && "B" != "C";
    assert Count(df[5..], "A") == 0 && Count(df[5..], "B") == 0 && Count(df[5..], "C") == 1;
    assert Count(df[4..], "A") == 0 && Count(df[4..], "B") == 1 && Count(df[4..], "C") == 1;
    assert Count(df[3..], "A") == 0 && Count(df[3..], "B") == 2 && Count(df[3..], "C") == 1;
    assert Count(df[2..], "A") == 1 && Count(df[2..], "B") == 2 && Count(df[2..], "C") == 1;
    assert Count(df[1..], "A") == 2 && Count(df[1..], "B") == 2 && Count(df[1..], "C") == 1;
    assert Count(s1[4..], "B") == 1;
    assert Count(s1[3..], "B") == 2;
    assert Count(s1[2..], "B") == 2;
    assert Count(s1[1..], "B") == 2;
  }

  lemma SampleSelectedTickers()
    ensures "A" in SelectedTickers(Sample()) && "B" in SelectedTickers(Sample())
    ensures "C" !in SelectedTickers(Sample())
  {
    SampleTickers();
    SampleCounts();
  }

  lemma KeepSample(sel: set<string>)
    requires "A" in sel && "B" in sel && "C" !in sel
    ensures KeepTickers(Sample(), sel) == SampleKept()
  {
    KeepThree(RowOf("A"), RowOf("B"), RowOf("C"), sel);
  }

  lemma KeepThree(a: Row, b: Row, c: Row, sel: set<string>)
    requires a.tic in sel && b.tic in sel && c.tic !in sel
    ensures KeepTickers([a, a, a, b, b, c], sel) == [a, a, a, b, b]
  {
    var df := [a, a, a, b, b, c];
    assert KeepTickers(df[5..], sel) == [];
    assert KeepTickers(df[4..], sel) == [b];
    assert KeepTickers(df[3..], sel) == [b, b];
    assert KeepTickers(df[2..], sel) == [a, b, b];
    assert KeepTickers(df[1..], sel) == [a, a, b, b];
  }

  /** The first selection keeps A and B with all their rows. */
  lemma SampleSelected()
    ensures SelectEqualRowsStock(Sample()) == SampleKept()
  {
    SampleSelectedTickers();
    KeepSample(SelectedTickers(Sample()));
  }

  /** Selecting again can drop more tickers: counts A:3, B:2, C:1 have mean
      2 and keep A and B; their counts 3 and 2 then have mean 2.5, which
      drops B. */
  lemma SelectNotIdempotent()
    ensures exists df :: SelectEqualRowsStock(SelectEqualRowsStock(df)) != SelectEqualRowsStock(df)
  {
    SampleSelected();
    SampleTickers();
    SampleCounts();
    var s1 := SampleKept();
    assert !Kept(s1, "B");
    SelectWholeGroups(s1, "B");
    assert SelectEqualRowsStock(SelectEqualRowsStock(Sample())) != SelectEqualRowsStock(Sample());
  }
}
