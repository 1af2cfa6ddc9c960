# Multibagger Hunter (NSE) — a Dafny model of its screening core

The screener reads NSE small-cap and mid-cap symbols and appends ".NS" to each one.
For each of the first 300 tickers it does the following:

- It strips ".NS" again.
- It fetches the latest financial-ratio object from Financial Modeling Prep.
- It normalises that object into a fixed six-field record: ROE, debt/equity, P/E, revenue growth, net profit margin, and market cap in crore.
- It drops tickers whose record is empty.
- It scores each remaining record with six threshold checks, worth 5/5/5/3/3/2 points.

Finally it sorts the rows by score, highest first.

The model has five modules:

- `Wrappers`: `Option`. `None` stands for the source's empty record `{}`.
- `Ratios` (`ratios.dfy`): models the decoded JSON answer and the normaliser.
  - A field of the ratio object is `Absent`, `Null` or a number.
  - The answer itself is one of four things: a failed request, a JSON object (the provider's error form), a scalar, or an array of entries.
  - Python's behaviour is modelled case by case:
    - `get(key, default)` is modelled for missing keys.
    - `None * 100` raises, and the normaliser's handler catches it.
    - The market-cap truthiness test is modelled.
    - `.get` on a first element that is not an object raises.
- `Scoring` (`scoring.dfy`):
  - the six criteria;
  - the score as a specification function;
  - the accumulator-style scorer as a method proved against that function.
- `Tickers` (`tickers.dfy`):
  - the ".NS" suffix;
  - the list comprehension that builds the ticker list;
  - `str.replace('.NS', '')`, which removes every non-overlapping occurrence from left to right.
- `Hunt` (`hunt.dfy`):
  - the hunt loop, as a method with a loop invariant over the growing list of rows;
  - the rows it collects, as a specification function;
  - the pandas sort, as an insertion sort. It promises only a permutation that does not increase by score, because the pandas sort is not stable.

Some inputs are abstract:

- The fetch is a function from symbol to decoded response. That also covers the week-long cache in front of it: a cached answer is the same answer.
- The symbol lists are sequences of strings.
- Reals are exact.

The code fetches from one provider only. It has no worker pool, no technical indicators and no overall blended score. It replaces missing values with 0 or 999 rather than keeping them as unknown, and the model does the same.

## Model

| member | source | states |
|---|---|---|
| `Ratios.Normalise` | app.py:29-44 | A failed request, an error object, a scalar answer or an empty array gives the empty record. A record is produced exactly when the first element is an object whose ROE, revenue growth and net margin are not null. |
| `Ratios.NormaliseFieldDefaults` | app.py:35-42 | Field by field: a missing percentage becomes 0 and a present one is multiplied by 100. A missing or null debt/equity or P/E becomes 999 and a present one is kept. A missing, null or zero market cap becomes 0 crore and any other is divided by 1e7. |
| `Ratios.NormaliseReadsLatestOnly` | app.py:34 | Only the first (most recent) entry is read. Later entries never change the record. |
| `Ratios.NullPercentEmptiesRecord` | app.py:36-44 | A null ROE, revenue growth or net margin raises inside the handler, so the record is empty. |
| `Ratios.MissingKeysGiveDefaults` | app.py:35-42 | An object with none of the keys gives 0 for ROE, growth, margin and market cap, and 999 for debt/equity and P/E. |
| `Ratios.NormaliseInvertsRatiosOf` | app.py:36-41 | The record from the raw ratios (percentages / 100, market cap × 1e7) is exactly the record started from. So the scaling by 100 and the conversion to crore lose nothing. |
| `Ratios.RatioAsWritten` | app.py:37-38 | As written, a debt/equity or P/E value is Python None exactly when the raw field is null. |
| `Ratios.NormaliseAsWritten` | app.py:29-44 | The normaliser exactly as written, with None kept for null ratios. It yields a record only from an array whose first element is an object. |
| `Ratios.NormaliseDiffersOnlyOnNull` | app.py:37-38 | The corrected and the written normaliser keep the same responses. They differ only where the written one stores None, which the corrected one reads as 999. |
| `Scoring.Score` | app.py:46-54 | The score lies between 0 and 23. It is 23 exactly when all six criteria are met and 0 exactly when none is. |
| `Scoring.CalculateMultibaggerScore` | app.py:46-54 | The accumulator ends at the sum of the weights 5, 5, 5, 3, 3, 2 of the criteria met, which is always between 0 and 23. |
| `Scoring.CriteriaOnRawRatios` | app.py:36-53 | Each criterion holds on the normalised record exactly when the raw field is a number in the scaled range. For market cap that range is 1e10 < cap < 2e11 rupees, strictly. For P/E it is 0 < P/E < 25. ROE must exceed 0.18, growth 0.12 and margin 0.10. So a missing, null or zero market cap, a missing or null debt/equity or P/E, a missing percentage and a non-positive P/E never earn points. A zero or negative debt/equity does earn its points. |
| `Scoring.MissingKeysScoreZero` | app.py:35-54 | An object with none of the keys is kept and scores 0. |
| `Scoring.ScoreAsWritten` | app.py:46-54 | As written, scoring raises exactly when debt/equity or P/E is None. Otherwise the score is between 0 and 23. |
| `Scoring.NullPeRaisesAsWritten` | app.py:38-51 | A ratio object with a null P/E passes the written normaliser, and the written scorer then raises on it. |
| `Scoring.NullRatioEarnsNothing` | app.py:37-51 | In the corrected model, when the first object's percentages are not null, the record is kept. A null debt/equity or P/E in it is stored as 999 and earns no points for that criterion. |
| `Tickers.WithSuffix` | app.py:24 | A built ticker is the symbol followed by ".NS". |
| `Tickers.BuildTickers` | app.py:20-24 | The ticker list has one entry per small-cap symbol, then one per mid-cap symbol, in order, each with ".NS" appended. Every ticker ends with ".NS". |
| `Tickers.RemoveAll` | app.py:61 | `replace(pat, '')` never lengthens a string. It leaves a string without the pattern unchanged, and shortens a string containing it by at least the pattern's length. |
| `Tickers.StripSuffix` | app.py:61 | Stripping ".NS" never lengthens a ticker. |
| `Tickers.StripWithSuffix` | app.py:61 | Stripping ".NS" from a built ticker gives back the symbol, whenever the symbol contains no ".NS" of its own. |
| `Tickers.InnerSuffixIsLost` | app.py:61 | Without that condition the round trip fails: "A.NSB" comes back as "AB". |
| `Hunt.RowFor` | app.py:61-66 | A row holds the record that fetching its own Ticker column gives, and the score of that record, between 0 and 23. |
| `Hunt.RowForBuiltTicker` | app.py:24-66 | A ticker built from a symbol without ".NS" of its own yields a row exactly when fetching that symbol gives a record, and the row is tagged with that symbol. |
| `Hunt.KeptIndices` | app.py:60-67 | The kept positions are strictly increasing and in range. A position is kept exactly when its ticker's record is not empty. |
| `Hunt.Collect` | app.py:58-67 | There are no more rows than tickers. Each row comes from a ticker with a non-empty record and carries that record's score, between 0 and 23. Every such ticker contributes its row. |
| `Hunt.CollectIsOrderedFilter` | app.py:58-67 | The k-th collected row is the row of the k-th ticker with a non-empty record. So there is exactly one row per such ticker, in ticker order. |
| `Hunt.Batch` | app.py:60 | `tickers[:300]` is a prefix of the tickers, of length min(300, \|tickers\|). |
| `Hunt.Collected` | app.py:58-67 | The collected rows number at most 300 and at most the number of tickers. |
| `Hunt.InsertByScore` | app.py:72 | Inserting a row into rows sorted by descending score adds exactly that row and keeps the order. |
| `Hunt.SortByScore` | app.py:72 | The sorted table is a permutation of the rows, non-increasing by score. The order of ties is not promised. |
| `Hunt.Hunt` | app.py:58-72 | The table is a permutation of the collected rows, non-increasing by score, with at most min(300, \|tickers\|) rows. Each row's score is the score of its fundamentals. |
| `Hunt.CollectWithoutRecords` | app.py:64-67 | A list of tickers none of which yields a record collects no rows. |
| `Hunt.NoRecordsNoRows` | app.py:62-70 | When no looked-at ticker yields a record, for example because every fetch failed, no rows are collected. |
| `Hunt.RowsNameListedSymbols` | app.py:24-66 | On a ticker list built from symbols without ".NS" of their own, each row names one of those symbols. Every symbol among the first 300 with a non-empty record has a row. |

## Left out

- The Streamlit page is left out: configuration, title, API-key prompt and `st.stop`, button, spinner, progress bar, table styling, and the success and "no data" messages. It is presentation only. An empty table stands for the "no data" branch.
- The HTTP requests to NSE and to Financial Modeling Prep are left out, and so is CSV parsing with `pd.read_csv`. They are network I/O and library calls. The symbol lists and the decoded responses are inputs.
- `st.cache_data` with its one-day and one-week TTLs is left out. Expiry is invisible to one hunt, and the fetch is a plain function.
- `time.sleep(0.3)` is left out. It is timing only.
- Floating-point rounding in `* 100`, `/ 1e7` and the progress fraction is left out. The model uses exact reals.
- Ratio-object fields holding JSON strings or booleans are left out. Python would multiply or compare them in ways of their own, and only numbers, null and missing keys are modelled.
- `Tickers.StripSuffix`: states only that the result is no longer than the ticker. Its round trip is the separate lemma `Tickers.StripWithSuffix`.

## Findings

| source | as written | input that shows it | evidently intended | confidence | as-written member | corrected member |
|---|---|---|---|---|---|---|
| app.py:37-38 | A null `debtEquityRatioTTM` or `priceEarningsRatio` is stored as None. The scorer then compares None with a number (app.py:50-51) outside any handler, so the whole hunt stops with a TypeError. | A ratios array whose first object has numeric ROE, growth and margin and `"priceEarningsRatio": null` | A null ratio is treated like a missing one (999) and earns no points | not executed; medium | `Scoring.NullPeRaisesAsWritten` | `Scoring.NullRatioEarnsNothing` |
