# FinRL market-data downloaders, modelled in Dafny

This project models the two daily-price downloaders of FinRL's preprocessor:
the tushare downloader (`finrl/meta/preprocessor/tusharedownloader.py`) and
the Yahoo Finance downloader (`finrl/meta/preprocessor/yahoodownloader.py`).
Each one is built from a date range, a ticker list and an optional dataset
name. Its `fetch_data` returns the cached table when a file of that name
exists. Otherwise it does the following:

- queries the provider once per ticker, with the ticker's code normalised by
  `fix_tick`;
- tags every returned row with that code and concatenates the frames in
  ticker-list order;
- cleans the table: drops the provider-only columns (for Yahoo it first puts
  the adjusted close into `close`), adds the weekday, drops rows with a
  missing cell, and sorts by (date, tic);
- stores the result under the dataset name.

`select_equal_rows_stock` then keeps the tickers whose row count reaches
the mean count.

Files and modules:

- `seqs.dfy` (`Seqs`): optional cells, results with an error, subsequences,
  concatenation of frames, reversal.
- `strings.dfy` (`Strings`): Python's `str.split` and the code-point order
  of strings.
- `ticker_codes.dfy` (`TickerCodes`): the body shared by both copies of
  `fix_tick`, with the Shanghai suffix as a parameter.
- `table.dfy` (`Table`): dates and weekdays, the normalised row, `dropna`,
  and the sort by (date, tic).
- `frames.dfy` (`Frames`): the per-ticker fetch loop's tagging and
  concatenation.
- `panel.dfy` (`Panel`): `select_equal_rows_stock`.
- `tushare.dfy` (`Tushare`): `date_format`, the tushare `fix_tick`, and the
  `TushareDownloader` class.
- `yahoo.dfy` (`Yahoo`): the Yahoo `fix_tick` and the `YahooDownloader`
  class.

The provider calls (`ts.pro_bar`, `yf.download`) are function parameters of
`FetchData`. The directory of cached CSV files is a map from dataset name to
table: `FetchData` receives it and returns its new value. The mean of
`select_equal_rows_stock` is compared exactly: with `n` tickers and `N`
rows, a ticker with `c` rows is kept when `c * n >= N`.

Behaviour of the code that the model keeps:

- With an empty ticker list and no cached file, `pd.concat([])` raises, so
  `FetchData` returns `Err`.
- The selector is not idempotent: `Panel.SelectNotIdempotent` gives a table
  where selecting twice drops more than selecting once.
- Nothing in the code removes duplicate (date, tic) rows, so the model does
  not claim that (date, tic) is unique.
- The tushare variant reverses the row order (`sort_index(ascending=False)`)
  before the final sort. The model keeps this step; it can only affect the
  order of rows with equal (date, tic).

## Model

| member | source | states |
|---|---|---|
| `Strings.Split` | finrl/meta/preprocessor/tusharedownloader.py:21-24 | `split('.')` returns at least one piece, no piece contains the separator, and joining the pieces with it gives the input back |
| `Strings.SplitJoin` | finrl/meta/preprocessor/tusharedownloader.py:21-24 | splitting a join of dot-free pieces returns exactly those pieces |
| `TickerCodes.Rewrite` | finrl/meta/preprocessor/tusharedownloader.py:20-25 | last segment `XSHG` gives first segment + "." + the provider's Shanghai suffix; `XSHE` gives first segment + ".SZ"; anything else is unchanged; the result's last segment is never `XSHG` or `XSHE` |
| `TickerCodes.RewriteIdempotent` | finrl/meta/preprocessor/tusharedownloader.py:21-24 | applying the rewrite twice equals applying it once |
| `Tushare.FixTick` | finrl/meta/preprocessor/tusharedownloader.py:20-25 | `XSHG` gives first segment + ".SH"; `XSHE` gives first segment + ".SZ"; other codes are returned unchanged. Only the first segment is kept, so `a.b.XSHG` becomes `a.SH` |
| `Tushare.FixTickIdempotent` | finrl/meta/preprocessor/tusharedownloader.py:21-24 | `FixTick(FixTick(t)) == FixTick(t)` |
| `Tushare.FixTickQualified` | finrl/meta/preprocessor/tusharedownloader.py:20-25 | for a dot-free code c, `c.XSHG` gives `c.SH` and `c.XSHE` gives `c.SZ` |
| `Tushare.RemoveDashes` | finrl/meta/preprocessor/tusharedownloader.py:16 | `replace('-', '')`: the result has no dash, is a subsequence of the input, and keeps every other character as often as the input has it |
| `Tushare.DateFormat` | finrl/meta/preprocessor/tusharedownloader.py:14-17 | `date_format`: same three properties as `RemoveDashes`, which together determine the result |
| `Tushare.DateFormatFixedPoint` | finrl/meta/preprocessor/tusharedownloader.py:15-17 | a dash-free date is returned unchanged |
| `Tushare.DateFormatIdempotent` | finrl/meta/preprocessor/tusharedownloader.py:14-17 | formatting twice equals formatting once |
| `Tushare.DateFormatConcat` | finrl/meta/preprocessor/tusharedownloader.py:14-17 | formatting a concatenation equals concatenating the formatted parts, so the characters that remain keep their order |
| `Tushare.TushareDownloader.constructor` | finrl/meta/preprocessor/tusharedownloader.py:59-64 | stores `date_format(start_date)`, `date_format(end_date)`, and the ticker list and dataset name unchanged |
| `Frames.TagRows` | finrl/meta/preprocessor/tusharedownloader.py:89 | every fetched row gets the `tic` column set to the normalised code; the bars themselves are unchanged |
| `Frames.CollectedAppend` | finrl/meta/preprocessor/tusharedownloader.py:84-91 | the concatenation for `a + b` is the concatenation for `a` followed by that for `b` (ticker-list order) |
| `Frames.CollectedNext` | finrl/meta/preprocessor/yahoodownloader.py:66-72 | one more loop iteration appends that ticker's tagged frame at the end |
| `Frames.CollectedProvenance` | finrl/meta/preprocessor/yahoodownloader.py:66-72 | every collected row is a bar the provider returned for `fix_tick(t)` of a listed `t`, tagged with `fix_tick(t)` |
| `Seqs.FlattenAppend` | finrl/meta/preprocessor/tusharedownloader.py:91 | `pd.concat` of two lists of frames is the concatenation of their concatenations |
| `Seqs.Reverse` | finrl/meta/preprocessor/tusharedownloader.py:113-114 | the descending index sort puts row `i` at position `n-1-i`; the rows are unchanged as a multiset |
| `Table.Weekday` | finrl/meta/preprocessor/tusharedownloader.py:111 | `dayofweek` is in 0..6 |
| `Table.WeekdayKnownDates` | finrl/meta/preprocessor/yahoodownloader.py:94 | Monday is 0: 1970-01-01 gives 3 (Thursday) and 2024-01-01 gives 0 (Monday) |
| `Table.WeekdayNextDay` | finrl/meta/preprocessor/yahoodownloader.py:94 | the next day of the same month has the next weekday, modulo 7 |
| `Table.DropNa` | finrl/meta/preprocessor/tusharedownloader.py:125 | `dropna`: every row kept is complete; each complete row is kept as often as it occurs and each incomplete row is dropped; the order is kept |
| `Table.Insert` | finrl/meta/preprocessor/tusharedownloader.py:129 | inserting a row adds exactly that row to the multiset |
| `Table.InsertSorted` | finrl/meta/preprocessor/tusharedownloader.py:129 | inserting into a table sorted by (date, tic) keeps it sorted |
| `Table.SortRows` | finrl/meta/preprocessor/tusharedownloader.py:129 | `sort_values(by=["date", "tic"])`: the result is a permutation of the input, ascending by date and then by ticker |
| `Table.DropNaReverse` | finrl/meta/preprocessor/tusharedownloader.py:113-125 | reversing before `dropna` leaves the same multiset of complete rows |
| `Tushare.Normalize` | finrl/meta/preprocessor/tusharedownloader.py:95-123 | the output row is the bar without `pre_close`, `change`, `pct_chg`, `amount` and `ts_code`, with `trade_date` as `date`, the prices and `vol` unchanged, and the trade date's weekday as `day` |
| `Frames.NormalizeAll` | finrl/meta/preprocessor/tusharedownloader.py:95-123 | the column changes are applied row by row: one output row per tagged row, in the same order |
| `Frames.CleanedProvenance` | finrl/meta/preprocessor/yahoodownloader.py:74-103 | any table that is a permutation of the complete normalised rows holds only complete rows, each the normalised form of a bar returned for `fix_tick(t)` of a listed `t` |
| `Tushare.CleanupFetched` | finrl/meta/preprocessor/tusharedownloader.py:95-129 | the cleaned table is sorted by (date, tic) and is a permutation of the complete fetched rows. Every row is complete, has `day` in 0..6, and comes from a bar the provider returned for `fix_tick(t)` of a listed `t` |
| `Tushare.TushareDownloader.FetchData` | finrl/meta/preprocessor/tusharedownloader.py:67-134 | a cache hit returns the stored table and leaves the store unchanged. Otherwise an empty ticker list is an error. Otherwise the result has the properties of `CleanupFetched` and is stored under the dataset name, if one was given |
| `Yahoo.FixTick` | finrl/meta/preprocessor/yahoodownloader.py:13-18 | `XSHG` gives first segment + ".SS"; `XSHE` gives first segment + ".SZ"; other codes are returned unchanged |
| `Yahoo.FixTickIdempotent` | finrl/meta/preprocessor/yahoodownloader.py:14-17 | `FixTick(FixTick(t)) == FixTick(t)` |
| `Yahoo.FixTickQualified` | finrl/meta/preprocessor/yahoodownloader.py:13-18 | for a dot-free code c, `c.XSHG` gives `c.SS` and `c.XSHE` gives `c.SZ` |
| `Yahoo.YahooDownloader.constructor` | finrl/meta/preprocessor/yahoodownloader.py:41-46 | stores the dates, the ticker list and the dataset name unchanged |
| `Yahoo.Normalize` | finrl/meta/preprocessor/yahoodownloader.py:74-96 | `close` is the input's adjusted close and `adjcp` is gone; date, open, high, low, volume and tic are unchanged; `day` is the weekday |
| `Yahoo.CleanupFetched` | finrl/meta/preprocessor/yahoodownloader.py:74-103 | the cleaned table is sorted by (date, tic) and is a permutation of the complete normalised rows. Every row is complete, has `day` in 0..6, and is a bar returned for `fix_tick(t)` of a listed `t`, with the adjusted close as `close` |
| `Yahoo.YahooDownloader.FetchData` | finrl/meta/preprocessor/yahoodownloader.py:48-108 | a cache hit returns the stored table and leaves the store unchanged. Otherwise an empty ticker list is an error. Otherwise the result has the properties of `CleanupFetched` and is stored under the dataset name, if one was given |
| `Panel.DistinctTickers` | finrl/meta/preprocessor/tusharedownloader.py:137-142 | the index of `value_counts()`: each ticker of the table exactly once |
| `Panel.SelectedTickers` | finrl/meta/preprocessor/tusharedownloader.py:140-143 | a ticker is selected exactly when it occurs and its count times the number of tickers is at least the number of rows (count ≥ mean) |
| `Panel.KeepTickers` | finrl/meta/preprocessor/tusharedownloader.py:144 | `isin` filter: a subsequence holding exactly the rows whose ticker is selected, each selected ticker with all its rows |
| `Panel.SelectEqualRowsStock` | finrl/meta/preprocessor/tusharedownloader.py:136-145 | the result is a subsequence of the input and holds a row exactly when its ticker's count reaches the mean |
| `Panel.SelectWholeGroups` | finrl/meta/preprocessor/yahoodownloader.py:110-119 | a kept ticker keeps all its rows, ties at the mean included; any other ticker keeps none |
| `Panel.SumCountsTotal` | finrl/meta/preprocessor/tusharedownloader.py:137-140 | the counts of the distinct tickers add up to the number of rows |
| `Panel.SumCountsBelow` | finrl/meta/preprocessor/tusharedownloader.py:140-141 | if every count is below a bound, then so is their average |
| `Panel.SomeTickerKept` | finrl/meta/preprocessor/tusharedownloader.py:140-143 | on a non-empty table some ticker's count reaches the mean |
| `Panel.SelectNonEmpty` | finrl/meta/preprocessor/yahoodownloader.py:110-119 | on a non-empty table the selection is non-empty |
| `Panel.SelectNotIdempotent` | finrl/meta/preprocessor/yahoodownloader.py:110-119 | some table has a second selection that differs from the first (counts 3, 2, 1) |

## Left out

- The network queries `ts.pro_bar` and `yf.download` are function parameters. Provider failures, which propagate in the code, are not modelled.
- CSV reading and writing is modelled as a lookup in, and an update of, a map from dataset name to table. The CSV format, its index column, and the re-parsing of the stored table are not modelled. A stored table is returned exactly as stored.
- Progress display (`tqdm`) and the `print` calls are left out; they carry no data.
- pandas date handling is not modelled. Dates are already-parsed (year, month, day) triples, and the parsing of `trade_date` is left out. The `%Y-%m-%d` string is represented by the triple; its string order equals the triple order only for four-digit years.
- Table.Weekday: only the range 0..6 and two calendar facts are proved, not full agreement with pandas' calendar.
- A missing date (NaT) is not modelled; every bar has a date.
- Prices and volumes are mathematical reals; floating-point behaviour is not modelled.
- Panel.SelectEqualRowsStock: the float mean is replaced by the exact cross-multiplied test, so float rounding at the boundary is not modelled. On an empty table pandas' mean is NaN and the result is empty; the model also returns the empty table.
- The `try/except NotImplementedError` fallback around the Yahoo column rename is left out; only the successful rename is modelled. The rename is positional, and the model takes the provider's column order date, open, high, low, close, adjusted close, volume.
- Schema failures (a provider frame missing a column that `drop` names, or `pro_bar` returning no frame) are not modelled.
- The second, identical definition of `select_equal_rows_stock` in the tushare file (lines 147-156) is modelled once, by `Panel.SelectEqualRowsStock`. The same function is also the Yahoo copy.
- Table.SortRows: the result is a permutation of the input and sorted by (date, tic). As a modelling choice, the order of rows with equal keys is left open.
- Renumbering the row index (`reset_index`) is not modelled; a table is a sequence of rows.
- The code calls `fix_tick` twice per ticker in both loops. The model calls it once and uses the value twice; the function is pure.
- Column names and column order are not modelled: a row is a record. `Row.volume` holds the Yahoo `volume` column and the tushare `vol` column; the tushare code never renames `vol`.
