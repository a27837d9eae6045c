/** The normalised price table both downloaders return: one row per
    fetched bar with a date, open, high, low, close, a traded volume, the
    ticker and the weekday (the Yahoo table names the volume column
    `volume`, the tushare table keeps the provider's name `vol`), plus the
    table-wide steps of the cleanup pipeline: `dropna` and
    `sort_values(by=["date", "tic"])`. */
module Table {
  import opened Seqs
  import opened Strings

  /** A parsed calendar date. Rendered with `%Y-%m-%d`, the order of the
      rendered strings is the order `DateLe` below. */
  datatype Date = Date(year: int, month: int, mday: int)

  /** Days since 1970-01-01 in the proleptic Gregorian calendar, counting
      March as the first month of a year so that leap days come last. */
  function DaysFromCivil(d: Date): int
  {
    var y := if d.month <= 2 then d.year - 1 else d.year;
    var era := y / 400;
    var yoe := y - era * 400;
    var mp := if d.month > 2 then d.month - 3 else d.month + 9;
    var doy := (153 * mp + 2) / 5 + d.mday - 1;
    var doe := yoe * 365 + yoe / 4 - yoe / 100 + doy;
    era * 146097 + doe - 719468
  }

  /** `dt.dayofweek`: Monday is 0 and Sunday is 6 (1970-01-01 was a Thursday). */
  function Weekday(d: Date): (w: int)
    ensures 0 <= w <= 6
  {
    (DaysFromCivil(d) + 3) % 7
  }

  /** 1970-01-01 was a Thursday and 2024-01-01 a Monday. */
  lemma WeekdayKnownDates()
    ensures Weekday(Date(1970, 1, 1)) == 3
    ensures Weekday(Date(2024, 1, 1)) == 0
  {
  }

  /** Within a month, the next day is the next weekday. */
  lemma WeekdayNextDay(d: Date)
    ensures Weekday(Date(d.year, d.month, d.mday + 1)) == (Weekday(d) + 1) % 7
  {
    assert DaysFromCivil(Date(d.year, d.month, d.mday + 1)) == DaysFromCivil(d) + 1;
  }

  /** One row of the normalised table. Price and volume cells may be
      missing; `volume` holds the `volume` column of the Yahoo table and the
      `vol` column of the tushare table; `day` is the weekday of `date`. */
  datatype Row = Row(
    date: Date,
    open: Option<real>,
    high: Option<real>,
    low: Option<real>,
    close: Option<real>,
    volume: Option<real>,
    tic: string,
    day: int)

  /** No cell of the row is missing. */
  predicate Complete(r: Row)
  {
    r.open.Some? && r.high.Some? && r.low.Some? && r.close.Some? && r.volume.Some?
  }

  /** `dropna()`: the complete rows, in their original order, each as many
      times as it occurs; every incomplete row is gone. */
  function DropNa(s: seq<Row>): (r: seq<Row>)
    ensures forall x :: x in r ==> Complete(x)
    ensures forall x :: multiset(r)[x] == if Complete(x) then multiset(s)[x] else 0
    ensures SubseqOf(r, s)
  {
    if s == [] then []
    else
      assert s == [s[0]] + s[1..];
      var rest := DropNa(s[1..]);
      if Complete(s[0]) then [s[0]] + rest else rest
  }

  /** Chronological order of dates. */
  predicate DateLe(a: Date, b: Date)
  {
    a.year < b.year || (a.year == b.year && (a.month < b.month || (a.month == b.month && a.mday <= b.mday)))
  }

  /** The sort key of `sort_values(by=["date", "tic"])`: date first, ticker second. */
  predicate RowLe(a: Row, b: Row)
  {
    (DateLe(a.date, b.date) && a.date != b.date) || (a.date == b.date && StrLe(a.tic, b.tic))
  }

  lemma RowLeTotal(a: Row, b: Row)
    ensures RowLe(a, b) || RowLe(b, a)
  {
    StrLeTotal(a.tic, b.tic);
  }

  lemma RowLeTransitive(a: Row, b: Row, c: Row)
    requires RowLe(a, b) && RowLe(b, c)
    ensures RowLe(a, c)
  {
    if a.date == b.date && b.date == c.date {
      StrLeTransitive(a.tic, b.tic, c.tic);
    }
  }

  /** Ascending by (date, tic). */
  predicate Sorted(s: seq<Row>)
  {
    forall i, j :: 0 <= i < j < |s| ==> RowLe(s[i], s[j])
  }

  /** Places `x` before the first row it does not follow. */
  function Insert(x: Row, s: seq<Row>): (r: seq<Row>)
    ensures multiset(r) == multiset(s) + multiset{x}
  {
    if s == [] then [x]
    else if RowLe(x, s[0]) then [x] + s
    else
      assert s == [s[0]] + s[1..];
      [s[0]] + Insert(x, s[1..])
  }

  lemma {:induction false} InsertSorted(x: Row, s: seq<Row>)
    requires Sorted(s)
    ensures Sorted(Insert(x, s))
  {
    var r := Insert(x, s);
    if s == [] {
    } else if RowLe(x, s[0]) {
      forall j | 0 <= j < |s|
        ensures RowLe(x, s[j])
      {
        if j > 0 { RowLeTransitive(x, s[0], s[j]); }
      }
    } else {
      RowLeTotal(x, s[0]);
      var t := Insert(x, s[1..]);
      InsertSorted(x, s[1..]);
      forall k | 0 <= k < |t|
        ensures RowLe(s[0], t[k])
      {
        assert t[k] in multiset(t);
        if t[k] != x {
          assert t[k] in multiset(s[1..]);
          var j :| 1 <= j < |s| && s[j] == t[k];
        }
      }
    }
  }

  /** `sort_values(by=["date", "tic"])`: the same rows, ascending by
      (date, tic). The order of rows with equal keys is left open. */
  function SortRows(s: seq<Row>): (r: seq<Row>)
    ensures multiset(r) == multiset(s)
    ensures Sorted(r)
  {
    if s == [] then []
    else
      assert s == [s[0]] + s[1..];
      InsertSorted(s[0], SortRows(s[1..]));
      Insert(s[0], SortRows(s[1..]))
  }

  /** Reversing the rows before `dropna` leaves the same rows, in another order. */
  lemma DropNaReverse(s: seq<Row>)
    ensures multiset(DropNa(Reverse(s))) == multiset(DropNa(s))
  {
    var a, b := multiset(DropNa(Reverse(s))), multiset(DropNa(s));
    forall x ensures a[x] == b[x] {
    }
  }
}
