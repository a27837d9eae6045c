/** The tushare downloader: `date_format`, the tushare copy of `fix_tick`
    (Shanghai becomes `.SH`), and `TushareDownloader` with its constructor
    and `fetch_data`. The `ts.pro_bar` query is a function parameter and the
    directory of cached CSV files is a map from dataset name to table. */
module Tushare {
  import opened Seqs
  import opened TickerCodes
  import opened Table
  import opened Frames

  /** `s.replace('-', '')`: every dash removed, everything else kept in order. */
  function RemoveDashes(s: string): (r: string)
    ensures '-' !in r
    ensures SubseqOf(r, s)
    ensures forall c :: c != '-' ==> multiset(r)[c] == multiset(s)[c]
  {
    if s == [] then []
    else
      assert s == [s[0]] + s[1..];
      var rest := RemoveDashes(s[1..]);
      if s[0] == '-' then rest
      else
        assert ([s[0]] + rest)[1..] == rest;
        [s[0]] + rest
  }

  /** `date_format`: "2020-01-31" becomes "20200131". The result has no dash,
      is the input with characters deleted, and keeps every character that
      is not a dash as often as the input has it. */
  function DateFormat(date: string): (r: string)
    ensures '-' !in r
    ensures SubseqOf(r, date)
    ensures forall c :: c != '-' ==> multiset(r)[c] == multiset(date)[c]
  {
    SubseqOfRefl(date);
    if '-' in date then RemoveDashes(date) else date
  }

  /** A date without dashes is already in the `YYYYMMDD` form it is sent in. */
  lemma DateFormatFixedPoint(date: string)
    requires '-' !in date
    ensures DateFormat(date) == date
  {
  }

  lemma DateFormatIdempotent(date: string)
    ensures DateFormat(DateFormat(date)) == DateFormat(date)
  {
  }

  /** Dashes are removed piecewise: formatting a concatenation formats each part. */
  lemma {:induction false} DateFormatConcat(a: string, b: string)
    ensures DateFormat(a + b) == DateFormat(a) + DateFormat(b)
  {
    RemoveDashesConcat(a, b);
    if '-' !in a {
      assert RemoveDashes(a) == a by { RemoveDashesFixedPoint(a); }
    }
    if '-' !in b {
      assert RemoveDashes(b) == b by { RemoveDashesFixedPoint(b); }
    }
    if '-' !in a + b {
      RemoveDashesFixedPoint(a + b);
    }
  }

  lemma {:induction false} RemoveDashesConcat(a: string, b: string)
    ensures RemoveDashes(a + b) == RemoveDashes(a) + RemoveDashes(b)
  {
    if a == [] {
      assert a + b == b;
    } else {
      assert (a + b)[0] == a[0] && (a + b)[1..] == a[1..] + b;
      RemoveDashesConcat(a[1..], b);
    }
  }

  lemma {:induction false} RemoveDashesFixedPoint(s: string)
    requires '-' !in s
    ensures RemoveDashes(s) == s
  {
    if s != [] {
      RemoveDashesFixedPoint(s[1..]);
      assert [s[0]] + s[1..] == s;
    }
  }

  /** The tushare `fix_tick`: `XSHG` becomes `.SH` and `XSHE` becomes `.SZ`
      after the first dot-segment; every other code is returned unchanged. */
  function FixTick(tick: string): (r: string)
    ensures LastSegment(tick) == "XSHG" ==> r == FirstSegment(tick) + ".SH"
    ensures LastSegment(tick) == "XSHE" ==> r == FirstSegment(tick) + ".SZ"
    ensures LastSegment(tick) != "XSHG" && LastSegment(tick) != "XSHE" ==> r == tick
  {
    assert FirstSegment(tick) + "." + "SH" == FirstSegment(tick) + ".SH";
    Rewrite(tick, "SH")
  }

  /** A code already in tushare form is left alone, so `FixTick` is idempotent. */
  lemma FixTickIdempotent(tick: string)
    ensures FixTick(FixTick(tick)) == FixTick(tick)
  {
    RewriteIdempotent(tick, "SH");
  }

  /** "000001.XSHG" becomes "000001.SH" and "000001.XSHE" becomes "000001.SZ". */
  lemma FixTickQualified(code: string)
    requires '.' !in code
    ensures FixTick(code + ".XSHG") == code + ".SH"
    ensures FixTick(code + ".XSHE") == code + ".SZ"
  {
    assert code + ".XSHG" == code + "." + "XSHG";
    assert code + ".XSHE" == code + "." + "XSHE";
    SegmentsOfQualified(code, "XSHG");
    SegmentsOfQualified(code, "XSHE");
  }

  /** One bar of `ts.pro_bar`: the provider's own code, the trade date and
      the price fields; any numeric cell may be missing. */
  datatype Bar = Bar(
    tsCode: string,
    tradeDate: Date,
    open: Option<real>,
    high: Option<real>,
    low: Option<real>,
    close: Option<real>,
    preClose: Option<real>,
    change: Option<real>,
    pctChg: Option<real>,
    vol: Option<real>,
    amount: Option<real>)

  /** `ts.pro_bar(ts_code, adj, start_date, end_date)`. */
  type ProBar = (string, string, string, string) -> seq<Bar>

  /** Forward-adjusted prices are requested. */
  const Adjustment: string := "qfq"

  /** The query `fetch_data` issues for a normalised code. */
  function Query(proBar: ProBar, startDate: string, endDate: string): string -> seq<Bar>
  {
    code => proBar(code, Adjustment, startDate, endDate)
  }

  /** The output row `r` is bar `b` of ticker `code` without `pre_close`,
      `change`, `pct_chg`, `amount` and `ts_code`, with `trade_date` as
      `date`, every price column and `vol` unchanged (the table keeps the
      name `vol`; the row holds it in `volume`), and the weekday of the
      trade date in `day`. */
  predicate FromBar(r: Row, b: Bar, code: string)
  {
    && r.date == b.tradeDate && r.open == b.open && r.high == b.high && r.low == b.low
    && r.close == b.close && r.volume == b.vol && r.tic == code
    && r.day == Weekday(b.tradeDate)
  }

  /** Drop the provider-only columns, add `day`, turn `trade_date` into `date`. */
  function Normalize(x: Tagged<Bar>): (r: Row)
    ensures FromBar(r, x.bar, x.tic)
  {
    Row(x.bar.tradeDate, x.bar.open, x.bar.high, x.bar.low, x.bar.close, x.bar.vol, x.tic, Weekday(x.bar.tradeDate))
  }

  /** The cleanup steps after concatenation: drop the provider-only
      columns, add `day` and `date` (`Normalize`), reverse the row order
      (`sort_index(ascending=False)` on a 0..n-1 index), `dropna`, and sort
      by (date, tic). */
  function Cleanup(data: seq<Tagged<Bar>>): seq<Row>
  {
    SortRows(DropNa(Reverse(NormalizeAll(Normalize, data))))
  }

  /** The cleaned table is sorted, is a permutation of the complete
      normalised rows, and every row is a complete copy of a bar the
      provider returned for a listed ticker. */
  lemma CleanupFetched(proBar: ProBar, tickers: seq<string>, startDate: string, endDate: string)
    ensures var df := Cleanup(Collected(FixTick, Query(proBar, startDate, endDate), tickers));
      && Sorted(df)
      && multiset(df) == multiset(DropNa(NormalizeAll(Normalize, Collected(FixTick, Query(proBar, startDate, endDate), tickers))))
      && forall r :: r in df ==>
           Complete(r) && 0 <= r.day <= 6 &&
           exists t, b :: t in tickers && b in proBar(FixTick(t), Adjustment, startDate, endDate) && FromBar(r, b, FixTick(t))
  {
    var query := Query(proBar, startDate, endDate);
    var rows := NormalizeAll(Normalize, Collected(FixTick, query, tickers));
    var df := Cleanup(Collected(FixTick, query, tickers));
    DropNaReverse(rows);
    CleanedProvenance(Normalize, FixTick, query, tickers, df);
    forall r | r in df
      ensures exists t, b :: t in tickers && b in proBar(FixTick(t), Adjustment, startDate, endDate) && FromBar(r, b, FixTick(t))
    {
      var t, b :| t in tickers && b in query(FixTick(t)) && r == Normalize(Tagged(b, FixTick(t)));
    }
  }

  class TushareDownloader {
    var startDate: string
    var endDate: string
    var tickerList: seq<string>
    var dataset: Option<string>

    /** Dates are stored dash-free, the ticker list and the dataset name as given. */
    constructor (startDate: string, endDate: string, tickerList: seq<string>, dataset: Option<string>)
      ensures this.startDate == DateFormat(startDate) && this.endDate == DateFormat(endDate)
      ensures this.tickerList == tickerList && this.dataset == dataset
    {
      this.startDate := DateFormat(startDate);
      this.endDate := DateFormat(endDate);
      this.tickerList := tickerList;
      this.dataset := dataset;
    }

    /** A dataset name was given and a file of that name exists. */
    predicate CacheHit(cache: map<string, seq<Row>>)
      reads this
    {
      dataset.Some? && dataset.value in cache
    }

    /** `fetch_data`. On a cache hit the stored table is returned as it is.
        Otherwise an empty ticker list makes `pd.concat` raise, and a
        non-empty one yields the complete fetched rows, each with its
        weekday, sorted by (date, tic); the table is then stored under the
        dataset name, if one was given. */
    method FetchData(proBar: ProBar, cache: map<string, seq<Row>>)
      returns (result: Result<seq<Row>>, cache': map<string, seq<Row>>)
      ensures CacheHit(cache) ==> result == Ok(cache[dataset.value]) && cache' == cache
      ensures !CacheHit(cache) && tickerList == [] ==> result.Err? && cache' == cache
      ensures !CacheHit(cache) && tickerList != [] ==>
        && result.Ok?
        && Sorted(result.value)
        && multiset(result.value) == multiset(DropNa(NormalizeAll(Normalize, Collected(FixTick, Query(proBar, startDate, endDate), tickerList))))
        && (forall r :: r in result.value ==>
              Complete(r) && 0 <= r.day <= 6 &&
              exists t, b :: t in tickerList && b in proBar(FixTick(t), Adjustment, startDate, endDate) && FromBar(r, b, FixTick(t)))
        && cache' == if dataset.Some? then cache[dataset.value := result.value] else cache
    {
      if dataset.Some? && dataset.value in cache {
        return Ok(cache[dataset.value]), cache;
      }
      var dfList: seq<seq<Tagged<Bar>>> := [];
      for i := 0 to |tickerList|
        invariant |dfList| == i
        invariant Flatten(dfList) == Collected(FixTick, Query(proBar, startDate, endDate), tickerList[..i])
      {
        var code := FixTick(tickerList[i]);
        var temp := proBar(code, Adjustment, startDate, endDate);
        var frame := TagRows(temp, code);
        CollectedNext(FixTick, Query(proBar, startDate, endDate), tickerList, i);
        FlattenAppend(dfList, [frame]);
        assert Flatten([frame]) == frame;
        dfList := dfList + [frame];
      }
      if dfList == [] {
        return Err("No objects to concatenate"), cache;
      }
      assert tickerList[..|tickerList|] == tickerList;
      var data := Flatten(dfList);
      // drop the provider-only columns, add `day`, turn `trade_date` into `date`
      var rows := NormalizeAll(Normalize, data);
      // sort_index(ascending=False) then reset_index on a 0..n-1 index
      rows := Reverse(rows);
      rows := DropNa(rows);
      rows := SortRows(rows);
      assert rows == Cleanup(Collected(FixTick, Query(proBar, startDate, endDate), tickerList));
      CleanupFetched(proBar, tickerList, startDate, endDate);
      cache' := if dataset.Some? then cache[dataset.value := rows] else cache;
      result := Ok(rows);
    }
  }
}
