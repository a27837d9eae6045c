/** The fetch loop shared by both downloaders: for each ticker of the list,
    in order, normalise its code, query the provider with that code, add a
    `tic` column holding the code to every returned row, and collect the
    frames for concatenation; then turn the provider rows into rows of the
    output table. */
module Frames {
  import opened Table

  /** A provider row with the `tic` column added. */
  datatype Tagged<B> = Tagged(bar: B, tic: string)

  /** `temp_df["tic"] = code`: every fetched row carries the given code. */
  function TagRows<B>(bars: seq<B>, code: string): (rows: seq<Tagged<B>>)
    ensures |rows| == |bars|
    ensures forall k :: 0 <= k < |rows| ==> rows[k] == Tagged(bars[k], code)
  {
    seq(|bars|, k requires 0 <= k < |bars| => Tagged(bars[k], code))
  }

  /** The tagged rows fetched for one ticker: `fix` normalises the code and
      `query` asks the provider for the rows of a code. */
  function Frame<B>(fix: string -> string, query: string -> seq<B>, tic: string): seq<Tagged<B>>
  {
    TagRows(query(fix(tic)), fix(tic))
  }

  /** The frames of all tickers, concatenated in ticker-list order. */
  function Collected<B>(fix: string -> string, query: string -> seq<B>, tickers: seq<string>): seq<Tagged<B>>
  {
    if tickers == [] then []
    else Frame(fix, query, tickers[0]) + Collected(fix, query, tickers[1..])
  }

  /** Ticker-list order: the rows of earlier tickers come first, each
      ticker's rows in the order the provider returned them. */
  lemma {:induction false} CollectedAppend<B>(fix: string -> string, query: string -> seq<B>, a: seq<string>, b: seq<string>)
    ensures Collected(fix, query, a + b) == Collected(fix, query, a) + Collected(fix, query, b)
  {
    if a == [] {
      assert a + b == b;
    } else {
      assert (a + b)[0] == a[0] && (a + b)[1..] == a[1..] + b;
      CollectedAppend(fix, query, a[1..], b);
    }
  }

  /** A single ticker contributes exactly its own frame. */
  lemma CollectedSingle<B>(fix: string -> string, query: string -> seq<B>, t: string)
    ensures Collected(fix, query, [t]) == Frame(fix, query, t)
  {
    assert [t][1..] == [];
  }

  /** One more ticker appends its frame. */
  lemma CollectedNext<B>(fix: string -> string, query: string -> seq<B>, tickers: seq<string>, i: nat)
    requires i < |tickers|
    ensures Collected(fix, query, tickers[..i + 1]) == Collected(fix, query, tickers[..i]) + Frame(fix, query, tickers[i])
  {
    var done, t := tickers[..i], tickers[i];
    assert tickers[..i + 1] == done + [t];
    CollectedAppend(fix, query, done, [t]);
    CollectedSingle(fix, query, t);
  }

  /** Each collected row is a row the provider returned for a listed ticker. */
  lemma {:induction false} CollectedProvenance<B>(fix: string -> string, query: string -> seq<B>, tickers: seq<string>)
    ensures forall x :: x in Collected(fix, query, tickers) ==>
              exists t :: t in tickers && x.bar in query(fix(t)) && x.tic == fix(t)
  {
    if tickers != [] {
      CollectedProvenance(fix, query, tickers[1..]);
      forall x | x in Collected(fix, query, tickers)
        ensures exists t :: t in tickers && x.bar in query(fix(t)) && x.tic == fix(t)
      {
        if x in Frame(fix, query, tickers[0]) {
          var k :| 0 <= k < |Frame(fix, query, tickers[0])| && Frame(fix, query, tickers[0])[k] == x;
          assert x.bar in query(fix(tickers[0]));
        } else {
          var t :| t in tickers[1..] && x.bar in query(fix(t)) && x.tic == fix(t);
          assert t in tickers;
        }
      }
    }
  }

  /** The provider-specific column changes, applied to every tagged row. */
  function NormalizeAll<B>(norm: Tagged<B> -> Row, xs: seq<Tagged<B>>): (rows: seq<Row>)
    ensures |rows| == |xs|
    ensures forall k :: 0 <= k < |xs| ==> rows[k] == norm(xs[k])
  {
    seq(|xs|, k requires 0 <= k < |xs| => norm(xs[k]))
  }

  /** A table holding the complete normalised rows, in any order, holds
      only complete rows, each the normalised form of a bar the provider
      returned for a listed ticker, tagged with that ticker's code. */
  lemma CleanedProvenance<B>(norm: Tagged<B> -> Row, fix: string -> string, query: string -> seq<B>,
                             tickers: seq<string>, df: seq<Row>)
    requires multiset(df) == multiset(DropNa(NormalizeAll(norm, Collected(fix, query, tickers))))
    ensures forall r :: r in df ==>
              Complete(r) && exists t, b :: t in tickers && b in query(fix(t)) && r == norm(Tagged(b, fix(t)))
  {
    var xs := Collected(fix, query, tickers);
    var rows := NormalizeAll(norm, xs);
    CollectedProvenance(fix, query, tickers);
    forall r | r in df
      ensures Complete(r) && exists t, b :: t in tickers && b in query(fix(t)) && r == norm(Tagged(b, fix(t)))
    {
      assert r in multiset(df);
      assert r in multiset(DropNa(rows));
      assert r in multiset(rows);
      var k :| 0 <= k < |rows| && rows[k] == r;
      assert xs[k] in xs;
      var t :| t in tickers && xs[k].bar in query(fix(t)) && xs[k].tic == fix(t);
      assert xs[k] == Tagged(xs[k].bar, fix(t));
    }
  }
}
