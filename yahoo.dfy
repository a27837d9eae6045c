/** The Yahoo downloader: the Yahoo copy of `fix_tick` (Shanghai becomes
    `.SS`) and `YahooDownloader` with its constructor and `fetch_data`. The
    `yf.download` query is a function parameter and the directory of cached
    CSV files is a map from dataset name to table. */
module Yahoo {
  import opened Seqs
  import opened TickerCodes
  import opened Table
  import opened Frames

  /** The Yahoo `fix_tick`: `XSHG` becomes `.SS` and `XSHE` becomes `.SZ`
      after the first dot-segment; every other code is returned unchanged. */
  function FixTick(tick: string): (r: string)
    ensures LastSegment(tick) == "XSHG" ==> r == FirstSegment(tick) + ".SS"
    ensures LastSegment(tick) == "XSHE" ==> r == FirstSegment(tick) + ".SZ"
    ensures LastSegment(tick) != "XSHG" && LastSegment(tick) != "XSHE" ==> r == tick
  {
    assert FirstSegment(tick) + "." + "SS" == FirstSegment(tick) + ".SS";
    Rewrite(tick, "SS")
  }

  /** A code already in Yahoo form is left alone, so `FixTick` is idempotent. */
  lemma FixTickIdempotent(tick: string)
    ensures FixTick(FixTick(tick)) == FixTick(tick)
  {
    RewriteIdempotent(tick, "SS");
  }

  /** "000001.XSHG" becomes "000001.SS" and "000001.XSHE" becomes "000001.SZ". */
  lemma FixTickQualified(code: string)
    requires '.' !in code
    ensures FixTick(code + ".XSHG") == code + ".SS"
    ensures FixTick(code + ".XSHE") == code + ".SZ"
  {
    assert code + ".XSHG" == code + "." + "XSHG";
    assert code + ".XSHE" == code + "." + "XSHE";
    SegmentsOfQualified(code, "XSHG");
    SegmentsOfQualified(code, "XSHE");
  }

  /** One bar of `yf.download`, in the column order the positional rename expects:
      date, open, high, low, close, adjusted close, volume. */
  datatype Bar = Bar(
    date: Date,
    open: Option<real>,
    high: Option<real>,
    low: Option<real>,
    close: Option<real>,
    adjClose: Option<real>,
    volume: Option<real>)

  /** `yf.download(code, start, end, proxy)`. */
  type Download = (string, string, string, Option<string>) -> seq<Bar>

  /** The query `fetch_data` issues for a normalised code. */
  function Query(download: Download, startDate: string, endDate: string, proxy: Option<string>): string -> seq<Bar>
  {
    code => download(code, startDate, endDate, proxy)
  }

  /** The output row `r` is bar `b` of ticker `code` with the adjusted close
      in `close`, the raw close and `adjcp` gone, every other column
      unchanged, and the weekday of its date in `day`. */
  predicate FromBar(r: Row, b: Bar, code: string)
  {
    && r.date == b.date && r.open == b.open && r.high == b.high && r.low == b.low
    && r.close == b.adjClose && r.volume == b.volume && r.tic == code
    && r.day == Weekday(b.date)
  }

  /** Rename the columns, copy `adjcp` into `close`, drop `adjcp`, and add `day`. */
  function Normalize(x: Tagged<Bar>): (r: Row)
    ensures FromBar(r, x.bar, x.tic)
  {
    Row(x.bar.date, x.bar.open, x.bar.high, x.bar.low, x.bar.adjClose, x.bar.volume, x.tic, Weekday(x.bar.date))
  }

  /** The cleanup steps after concatenation: `Normalize`, `dropna`, and the
      sort by (date, tic). */
  function Cleanup(data: seq<Tagged<Bar>>): seq<Row>
  {
    SortRows(DropNa(NormalizeAll(Normalize, data)))
  }

  /** The cleaned table is sorted, is a permutation of the complete
      normalised rows, and every row is a complete, adjusted copy of a bar
      the provider returned for a listed ticker. */
  lemma CleanupFetched(download: Download, tickers: seq<string>, startDate: string, endDate: string, proxy: Option<string>)
    ensures var df := Cleanup(Collected(FixTick, Query(download, startDate, endDate, proxy), tickers));
      && Sorted(df)
      && multiset(df) == multiset(DropNa(NormalizeAll(Normalize, Collected(FixTick, Query(download, startDate, endDate, proxy), tickers))))
      && forall r :: r in df ==>
           Complete(r) && 0 <= r.day <= 6 &&
           exists t, b :: t in tickers && b in download(FixTick(t), startDate, endDate, proxy) && FromBar(r, b, FixTick(t))
  {
    var query := Query(download, startDate, endDate, proxy);
    var df := Cleanup(Collected(FixTick, query, tickers));
    CleanedProvenance(Normalize, FixTick, query, tickers, df);
    forall r | r in df
      ensures exists t, b :: t in tickers && b in download(FixTick(t), startDate, endDate, proxy) && FromBar(r, b, FixTick(t))
    {
      var t, b :| t in tickers && b in query(FixTick(t)) && r == Normalize(Tagged(b, FixTick(t)));
    }
  }

  class YahooDownloader {
    var startDate: string
    var endDate: string
    var tickerList: seq<string>
    var dataset: Option<string>

    /** All four arguments are stored as given. */
    constructor (startDate: string, endDate: string, tickerList: seq<string>, dataset: Option<string>)
      ensures this.startDate == startDate && this.endDate == endDate
      ensures this.tickerList == tickerList && this.dataset == dataset
    {
      this.startDate := startDate;
      this.endDate := endDate;
      this.tickerList := tickerList;
      this.dataset := dataset;
    }

    /** A dataset name was given and a file of that name exists. */
    predicate CacheHit(cache: map<string, seq<Row>>)
      reads this
    {
      dataset.Some? && dataset.value in cache
    }

    /** `fetch_data(proxy)`. On a cache hit the stored table is returned as it
        is. Otherwise an empty ticker list makes `pd.concat` raise, and a
        non-empty one yields the complete fetched rows, with the adjusted
        close as `close` and their weekday, sorted by (date, tic); the table
        is then stored under the dataset name, if one was given. */
    method FetchData(download: Download, proxy: Option<string>, cache: map<string, seq<Row>>)
      returns (result: Result<seq<Row>>, cache': map<string, seq<Row>>)
      ensures CacheHit(cache) ==> result == Ok(cache[dataset.value]) && cache' == cache
      ensures !CacheHit(cache) && tickerList == [] ==> result.Err? && cache' == cache
      ensures !CacheHit(cache) && tickerList != [] ==>
        && result.Ok?
        && Sorted(result.value)
        && multiset(result.value)
           == multiset(DropNa(NormalizeAll(Normalize, Collected(FixTick, Query(download, startDate, endDate, proxy), tickerList))))
        && (forall r :: r in result.value ==>
              Complete(r) && 0 <= r.day <= 6 &&
              exists t, b :: t in tickerList && b in download(FixTick(t), startDate, endDate, proxy) && FromBar(r, b, FixTick(t)))
        && cache' == if dataset.Some? then cache[dataset.value := result.value] else cache
    {
      if dataset.Some? && dataset.value in cache {
        return Ok(cache[dataset.value]), cache;
      }
      var dfList: seq<seq<Tagged<Bar>>> := [];
      for i := 0 to |tickerList|
        invariant |dfList| == i
        invariant Flatten(dfList) == Collected(FixTick, Query(download, startDate, endDate, proxy), tickerList[..i])
      {
        var code := FixTick(tickerList[i]);
        var temp := download(code, startDate, endDate, proxy);
        var frame := TagRows(temp, code);
        CollectedNext(FixTick, Query(download, startDate, endDate, proxy), tickerList, i);
        FlattenAppend(dfList, [frame]);
        assert Flatten([frame]) == frame;
        dfList := dfList + [frame];
      }
      if dfList == [] {
        return Err("No objects to concatenate"), cache;
      }
      assert tickerList[..|tickerList|] == tickerList;
      var data := Flatten(dfList);
      // rename the columns, close := adjcp, drop adjcp, add `day`, format `date`
      var rows := NormalizeAll(Normalize, data);
      rows := DropNa(rows);
      rows := SortRows(rows);
      CleanupFetched(download, tickerList, startDate, endDate, proxy);
      cache' := if dataset.Some? then cache[dataset.value := rows] else cache;
      result := Ok(rows);
    }
  }
}
