/**
 * The hunt of app.py: for at most the first 300 tickers, strip ".NS", fetch
 * and normalise the fundamentals, drop empty records, tag the rest with the
 * symbol and its score, and sort the rows by score, highest first.
 *
 * The fetch (HTTP request, JSON decoding and the week-long cache in front of
 * them) is the function `fetch` from symbol to decoded response.
 */
module Hunt {
  import opened Wrappers
  import opened Ratios
  import opened Scoring
  import opened Tickers

  /** At most this many tickers are looked at. */
  const HuntLimit: nat := 300

  /** A row of the result table: the fundamentals with the Ticker and Score columns added. */
  datatype Row = Row(ticker: string, fundamentals: Fundamentals, score: int)

  /**
   * The row one ticker contributes, or None when its record is empty. A row
   * holds what fetching its own Ticker column gives, and a score in range.
   */
  function RowFor(t: string, fetch: string -> Response): (r: Option<Row>)
    ensures r.Some? ==>
      && Normalise(fetch(r.value.ticker)) == Some(r.value.fundamentals)
      && r.value.score == Score(r.value.fundamentals)
      && 0 <= r.value.score <= MaxScore
  {
    var symbol := StripSuffix(t);
    match Normalise(fetch(symbol))
    case None => None
    case Some(f) => Some(Row(symbol, f, Score(f)))
  }

  /**
   * A ticker built from a symbol without ".NS" of its own yields a row exactly
   * when fetching that symbol gives a record, and the row names the symbol.
   */
  lemma RowForBuiltTicker(symbol: string, fetch: string -> Response)
    requires !Contains(symbol, Suffix)
    ensures RowFor(WithSuffix(symbol), fetch).Some? <==> Normalise(fetch(symbol)).Some?
    ensures RowFor(WithSuffix(symbol), fetch).Some? ==> RowFor(WithSuffix(symbol), fetch).value.ticker == symbol
  {
    StripWithSuffix(symbol);
  }

  /**
   * The positions, in increasing order, of the tickers of `ts` whose record
   * is not empty.
   */
  function KeptIndices(ts: seq<string>, fetch: string -> Response): (idx: seq<nat>)
    ensures forall k :: 0 <= k < |idx| ==> idx[k] < |ts|
    ensures forall k, l :: 0 <= k < l < |idx| ==> idx[k] < idx[l]
    ensures forall i :: 0 <= i < |ts| ==> (i in idx <==> RowFor(ts[i], fetch).Some?)
    decreases |ts|
  {
    if ts == [] then []
    else
      var init := ts[..|ts| - 1];
      assert forall i :: 0 <= i < |init| ==> init[i] == ts[i];
      KeptIndices(init, fetch) + (if RowFor(ts[|ts| - 1], fetch).Some? then [|ts| - 1] else [])
  }

  /**
   * The rows collected over `ts`: one row per ticker with a non-empty record,
   * in ticker order, each carrying the score of its fundamentals.
   */
  function Collect(ts: seq<string>, fetch: string -> Response): (rows: seq<Row>)
    ensures |rows| <= |ts|
    ensures forall r :: r in rows ==> r.score == Score(r.fundamentals) && 0 <= r.score <= MaxScore
    ensures forall r :: r in rows ==> exists t :: t in ts && RowFor(t, fetch) == Some(r)
    ensures forall t :: t in ts && RowFor(t, fetch).Some? ==> RowFor(t, fetch).value in rows
    decreases |ts|
  {
    if ts == [] then []
    else
      var init := ts[..|ts| - 1];
      var last := ts[|ts| - 1];
      assert forall t :: t in ts ==> t in init || t == last;
      assert forall t :: t in init ==> t in ts;
      Collect(init, fetch) + Rows(RowFor(last, fetch))
  }

  /**
   * Collect is the ordered filter of the tickers: its k-th row is the row of
   * the k-th ticker with a non-empty record, so there is one row per such
   * ticker, in ticker order, and no other.
   */
  lemma {:induction false} CollectIsOrderedFilter(ts: seq<string>, fetch: string -> Response)
    ensures |Collect(ts, fetch)| == |KeptIndices(ts, fetch)|
    ensures forall k :: 0 <= k < |Collect(ts, fetch)| ==>
      Collect(ts, fetch)[k] == RowFor(ts[KeptIndices(ts, fetch)[k]], fetch).value
    decreases |ts|
  {
    if ts != [] {
      var init := ts[..|ts| - 1];
      CollectIsOrderedFilter(init, fetch);
      var rows, idx := Collect(ts, fetch), KeptIndices(ts, fetch);
      var rows0, idx0 := Collect(init, fetch), KeptIndices(init, fetch);
      assert rows == rows0 + Rows(RowFor(ts[|ts| - 1], fetch));
      assert idx == idx0 + (if RowFor(ts[|ts| - 1], fetch).Some? then [|ts| - 1] else []);
      forall k | 0 <= k < |rows| ensures rows[k] == RowFor(ts[idx[k]], fetch).value
      {
        if k < |rows0| {
          assert rows[k] == rows0[k] && idx[k] == idx0[k] && init[idx0[k]] == ts[idx0[k]];
        }
      }
    }
  }

  /** The row, if any, as a sequence of at most one row. */
  function Rows(o: Option<Row>): seq<Row>
  {
    match o
    case None => []
    case Some(r) => [r]
  }

  /** One more ticker adds its row, if any, at the end. */
  lemma CollectStep(ts: seq<string>, i: nat, fetch: string -> Response)
    requires i < |ts|
    ensures Collect(ts[..i + 1], fetch) == Collect(ts[..i], fetch) + Rows(RowFor(ts[i], fetch))
  {
    assert ts[..i + 1][..i] == ts[..i];
  }

  /** `tickers[:300]`. */
  function Batch(tickers: seq<string>): (b: seq<string>)
    ensures |b| <= HuntLimit && |b| <= |tickers|
    ensures b == tickers[..|b|]
    ensures |b| == HuntLimit || b == tickers
  {
    if |tickers| <= HuntLimit then tickers else tickers[..HuntLimit]
  }

  /** The rows the loop collects before sorting. */
  function Collected(tickers: seq<string>, fetch: string -> Response): (rows: seq<Row>)
    ensures |rows| <= HuntLimit && |rows| <= |tickers|
  {
    Collect(Batch(tickers), fetch)
  }

  predicate SortedByScore(rows: seq<Row>)
  {
    forall i, j :: 0 <= i < j < |rows| ==> rows[i].score >= rows[j].score
  }

  /** Places `r` after every row scoring at least as much, keeping the rows sorted. */
  method InsertByScore(sorted: seq<Row>, r: Row) returns (res: seq<Row>)
    requires SortedByScore(sorted)
    ensures multiset(res) == multiset(sorted) + multiset{r}
    ensures SortedByScore(res)
  {
    var k := 0;
    while k < |sorted| && sorted[k].score >= r.score
      invariant 0 <= k <= |sorted|
      invariant forall m :: 0 <= m < k ==> sorted[m].score >= r.score
    {
      k := k + 1;
    }
    res := sorted[..k] + [r] + sorted[k..];
    assert sorted[..k] + sorted[k..] == sorted;
    InsertKeepsSorted(sorted, k, r);
  }

  /** Inserting a row between the rows scoring at least as much and those scoring less keeps the order. */
  lemma InsertKeepsSorted(sorted: seq<Row>, k: nat, r: Row)
    requires SortedByScore(sorted) && k <= |sorted|
    requires forall m :: 0 <= m < k ==> sorted[m].score >= r.score
    requires k < |sorted| ==> sorted[k].score < r.score
    ensures SortedByScore(sorted[..k] + [r] + sorted[k..])
  {
  }

  /**
   * `sort_values('Score', ascending=False)`: the same rows, non-increasing by
   * score. The order of rows with equal scores is not promised.
   */
  method SortByScore(rows: seq<Row>) returns (sorted: seq<Row>)
    ensures multiset(sorted) == multiset(rows)
    ensures SortedByScore(sorted)
  {
    sorted := [];
    var i := 0;
    while i < |rows|
      invariant 0 <= i <= |rows|
      invariant multiset(sorted) == multiset(rows[..i])
      invariant SortedByScore(sorted)
    {
      assert rows[..i + 1] == rows[..i] + [rows[i]];
      sorted := InsertByScore(sorted, rows[i]);
      i := i + 1;
    }
    assert rows[..i] == rows;
  }

  /** The hunt loop, then the sort. */
  method Hunt(tickers: seq<string>, fetch: string -> Response) returns (table: seq<Row>)
    ensures multiset(table) == multiset(Collected(tickers, fetch))
    ensures SortedByScore(table)
    ensures |table| <= HuntLimit && |table| <= |tickers|
    ensures forall r :: r in table ==> r.score == Score(r.fundamentals) && 0 <= r.score <= MaxScore
  {
    var batch := Batch(tickers);
    var data: seq<Row> := [];
    var i := 0;
    while i < |batch|
      invariant 0 <= i <= |batch|
      invariant data == Collect(batch[..i], fetch)
    {
      var symbol := StripSuffix(batch[i]);
      var fundamentals := Normalise(fetch(symbol));
      CollectStep(batch, i, fetch);
      if fundamentals.Some? {
        var score := CalculateMultibaggerScore(fundamentals.value);
        data := data + [Row(symbol, fundamentals.value, score)];
      }
      i := i + 1;
    }
    assert batch[..i] == batch;
    table := SortByScore(data);
    assert |multiset(table)| == |table| && |multiset(data)| == |data|;
    assert forall r :: r in table ==> r in multiset(data);
  }

  /** When no ticker of `ts` yields a record, no rows are collected. */
  lemma {:induction false} CollectWithoutRecords(ts: seq<string>, fetch: string -> Response)
    requires forall t :: t in ts ==> Normalise(fetch(StripSuffix(t))).None?
    ensures Collect(ts, fetch) == []
    decreases |ts|
  {
    if ts != [] {
      var init := ts[..|ts| - 1];
      assert forall t :: t in init ==> t in ts;
      assert ts[|ts| - 1] in ts;
      CollectWithoutRecords(init, fetch);
    }
  }

  /** When no looked-at ticker yields a record (every fetch failed or came back empty), the table is empty. */
  lemma NoRecordsNoRows(tickers: seq<string>, fetch: string -> Response)
    requires forall t :: t in Batch(tickers) ==> Normalise(fetch(StripSuffix(t))).None?
    ensures Collected(tickers, fetch) == []
  {
    CollectWithoutRecords(Batch(tickers), fetch);
  }

  /**
   * On a ticker list built from NSE symbols without ".NS" of their own, each
   * row is tagged with one of those symbols, and every symbol among the first
   * 300 tickers with a non-empty record has its row.
   */
  lemma RowsNameListedSymbols(small: seq<string>, mid: seq<string>, fetch: string -> Response)
    requires forall s :: s in small + mid ==> !Contains(s, Suffix)
    ensures forall r :: r in Collected(BuildTickers(small, mid), fetch) ==> r.ticker in small + mid
    ensures forall i :: 0 <= i < |small + mid| && i < HuntLimit && Normalise(fetch((small + mid)[i])).Some? ==>
      exists r :: r in Collected(BuildTickers(small, mid), fetch) && r.ticker == (small + mid)[i]
  {
    var ts := BuildTickers(small, mid);
    var b := Batch(ts);
    forall t | t in b ensures StripSuffix(t) in small + mid
    {
      var j :| 0 <= j < |b| && b[j] == t;
      StripWithSuffix((small + mid)[j]);
    }
    forall i | 0 <= i < |small + mid| && i < HuntLimit && Normalise(fetch((small + mid)[i])).Some?
      ensures exists r :: r in Collected(ts, fetch) && r.ticker == (small + mid)[i]
    {
      StripWithSuffix((small + mid)[i]);
      assert b[i] == ts[i];
      assert RowFor(b[i], fetch).value in Collected(ts, fetch);
    }
  }
}
