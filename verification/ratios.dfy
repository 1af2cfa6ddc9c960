/**
 * The fundamentals normaliser of app.py (fetch_fmp_fundamentals): it turns the
 * JSON answer of the ratios endpoint into the fixed six-field record the scorer
 * reads, or into the empty record when the answer is unusable.
 *
 * The HTTP request and the JSON decoding are not modelled: their outcome is the
 * Response value given to Normalise.
 */
module Ratios {
  import opened Wrappers

  /** One field of a decoded JSON object: the key is missing, present with null, or a number. */
  datatype Field = Absent | Null | Num(value: real)

  /** The keys of one ratio object that the normaliser reads. */
  datatype RatioRecord = RatioRecord(
    returnOnEquity: Field,   // returnOnEquityTTM, a ratio (0.25 is 25%)
    debtEquity: Field,       // debtEquityRatioTTM
    priceEarnings: Field,    // priceEarningsRatio
    revenueGrowth: Field,    // revenueGrowthTTM, a ratio
    netProfitMargin: Field,  // netProfitMarginTTM, a ratio
    marketCap: Field)        // marketCap, in rupees

  /** An element of a JSON array answer: an object, or any other JSON value. */
  datatype Entry = Record(record: RatioRecord) | NonObject

  /** The decoded answer of the ratios endpoint. */
  datatype Response =
    | Failed                      // the request or the JSON decoding raised
    | Object                      // a JSON object, which is how the provider reports errors
    | Scalar                      // a JSON string, number, boolean or null
    | Array(entries: seq<Entry>)  // most recent period first

  /** The record the screener scores; percentages are in percent, market cap in crore. */
  datatype Fundamentals = Fundamentals(
    roe: real,
    debtEquity: real,
    pe: real,
    revenueGrowth: real,
    netProfitMargin: real,
    marketCapCr: real)

  const PercentScale: real := 100.0
  /** Rupees in one crore (1e7). */
  const Crore: real := 10000000.0
  /** Stand-in for a missing debt/equity or P/E: large enough never to earn points. */
  const MissingRatio: real := 999.0

  /** The record made when every key is missing. */
  const AllDefaults := Fundamentals(0.0, MissingRatio, MissingRatio, 0.0, 0.0, 0.0)

  /** The object the normaliser reads: the first element of a non-empty array, if it is an object. */
  function Latest(resp: Response): Option<RatioRecord>
  {
    if resp.Array? && |resp.entries| > 0 && resp.entries[0].Record? then
      Some(resp.entries[0].record)
    else
      None
  }

  /**
   * `latest.get(key, 0) * 100`: a missing key gives 0, a number is scaled,
   * and null raises (None * 100), which the normaliser's handler turns into
   * the empty record.
   */
  function Percent(f: Field): (p: Option<real>)
  {
    match f
    case Absent => Some(0.0)
    case Null => None
    case Num(v) => Some(v * PercentScale)
  }

  /** `latest.get(key, 999)`, with null read as missing (see Findings in README.md). */
  function RatioOrMissing(f: Field): (x: real)
  {
    match f
    case Num(v) => v
    case _ => MissingRatio
  }

  /** `marketCap / 1e7 if marketCap else 0`: missing, null and zero all give 0. */
  function MarketCapCrore(f: Field): (crore: real)
  {
    if f.Num? && f.value != 0.0 then f.value / Crore else 0.0
  }

  /**
   * The normaliser: None is the empty record `{}`, returned for a failed request,
   * an error object, an empty array, a first element that is not an object, and
   * a null percentage field.
   */
  function Normalise(resp: Response): (r: Option<Fundamentals>)
    ensures resp.Failed? || resp.Object? || resp.Scalar? || resp == Array([]) ==> r.None?
    ensures r.Some? <==>
      && Latest(resp).Some?
      && !Latest(resp).value.returnOnEquity.Null?
      && !Latest(resp).value.revenueGrowth.Null?
      && !Latest(resp).value.netProfitMargin.Null?
  {
    match Latest(resp)
    case None => None
    case Some(rec) =>
      match (Percent(rec.returnOnEquity), Percent(rec.revenueGrowth), Percent(rec.netProfitMargin))
      case (Some(roe), Some(growth), Some(margin)) =>
        Some(Fundamentals(
          roe,
          RatioOrMissing(rec.debtEquity),
          RatioOrMissing(rec.priceEarnings),
          growth,
          margin,
          MarketCapCrore(rec.marketCap)))
      case _ => None
  }

  /**
   * Field by field, on the object that was read: a missing percentage is 0 and
   * a present one is scaled by 100; a missing or null ratio is 999 and a
   * present one is kept; a missing, null or zero market cap is 0 crore and any
   * other is divided by 1e7.
   */
  lemma NormaliseFieldDefaults(resp: Response)
    requires Normalise(resp).Some?
    ensures
      var rec := Latest(resp).value;
      var f := Normalise(resp).value;
      && (rec.returnOnEquity.Absent? ==> f.roe == 0.0)
      && (rec.returnOnEquity.Num? ==> f.roe == rec.returnOnEquity.value * 100.0)
      && (rec.revenueGrowth.Absent? ==> f.revenueGrowth == 0.0)
      && (rec.revenueGrowth.Num? ==> f.revenueGrowth == rec.revenueGrowth.value * 100.0)
      && (rec.netProfitMargin.Absent? ==> f.netProfitMargin == 0.0)
      && (rec.netProfitMargin.Num? ==> f.netProfitMargin == rec.netProfitMargin.value * 100.0)
      && (!rec.debtEquity.Num? ==> f.debtEquity == 999.0)
      && (rec.debtEquity.Num? ==> f.debtEquity == rec.debtEquity.value)
      && (!rec.priceEarnings.Num? ==> f.pe == 999.0)
      && (rec.priceEarnings.Num? ==> f.pe == rec.priceEarnings.value)
      && (rec.marketCap.Absent? || rec.marketCap.Null? || rec.marketCap == Num(0.0) ==> f.marketCapCr == 0.0)
      && (rec.marketCap.Num? && rec.marketCap.value != 0.0 ==> f.marketCapCr == rec.marketCap.value / 10000000.0)
  {
  }

  /** Only the most recent period is read: later entries never change the record. */
  lemma NormaliseReadsLatestOnly(e: Entry, rest: seq<Entry>)
    ensures Normalise(Array([e] + rest)) == Normalise(Array([e]))
  {
  }

  /** A null return on equity, revenue growth or net margin makes the record empty. */
  lemma NullPercentEmptiesRecord(rec: RatioRecord, rest: seq<Entry>)
    requires rec.returnOnEquity.Null? || rec.revenueGrowth.Null? || rec.netProfitMargin.Null?
    ensures Normalise(Array([Record(rec)] + rest)).None?
  {
  }

  /** An object with none of the keys gives 0 for the percentages and market cap and 999 for the ratios. */
  lemma MissingKeysGiveDefaults(rest: seq<Entry>)
    ensures Normalise(Array([Record(RatioRecord(Absent, Absent, Absent, Absent, Absent, Absent))] + rest))
            == Some(AllDefaults)
  {
  }

  /**
   * The raw object that normalises to a given record: the inverse of the
   * scaling by 100 and of the crore conversion.
   */
  function RatiosOf(f: Fundamentals): (rec: RatioRecord)
    ensures rec.returnOnEquity.Num? && rec.revenueGrowth.Num? && rec.netProfitMargin.Num?
  {
    RatioRecord(
      Num(f.roe / PercentScale),
      Num(f.debtEquity),
      Num(f.pe),
      Num(f.revenueGrowth / PercentScale),
      Num(f.netProfitMargin / PercentScale),
      if f.marketCapCr == 0.0 then Absent else Num(f.marketCapCr * Crore))
  }

  /** Every record is reached, from exactly the raw ratios RatiosOf gives: the scalings lose nothing. */
  lemma NormaliseInvertsRatiosOf(f: Fundamentals, rest: seq<Entry>)
    ensures Normalise(Array([Record(RatiosOf(f))] + rest)) == Some(f)
  {
  }

  // ---- The normaliser as written, kept for the finding about null ratios ----

  /** A value of the dict the source builds: a float or Python's None. */
  datatype PyValue = PyFloat(x: real) | PyNone

  /** The dict the source builds, where debt/equity and P/E may hold None. */
  datatype RawFundamentals = RawFundamentals(
    roe: real,
    debtEquity: PyValue,
    pe: PyValue,
    revenueGrowth: real,
    netProfitMargin: real,
    marketCapCr: real)

  /** `latest.get(key, 999)` as written: a null value comes back as None. */
  function RatioAsWritten(f: Field): (v: PyValue)
    ensures v.PyNone? <==> f.Null?
  {
    match f
    case Absent => PyFloat(MissingRatio)
    case Null => PyNone
    case Num(x) => PyFloat(x)
  }

  /** The normaliser exactly as app.py writes it. */
  function NormaliseAsWritten(resp: Response): (r: Option<RawFundamentals>)
    ensures r.Some? ==> Latest(resp).Some?
  {
    match Latest(resp)
    case None => None
    case Some(rec) =>
      match (Percent(rec.returnOnEquity), Percent(rec.revenueGrowth), Percent(rec.netProfitMargin))
      case (Some(roe), Some(growth), Some(margin)) =>
        Some(RawFundamentals(
          roe,
          RatioAsWritten(rec.debtEquity),
          RatioAsWritten(rec.priceEarnings),
          growth,
          margin,
          MarketCapCrore(rec.marketCap)))
      case _ => None
  }

  /** The float a dict value holds, or the stand-in for a missing ratio when it is None. */
  function FloatOr(v: PyValue): (x: real)
  {
    match v
    case PyFloat(x) => x
    case PyNone => MissingRatio
  }

  /**
   * The corrected normaliser keeps and drops the same responses as the one
   * written, and differs from it only where the written one stores None.
   */
  lemma NormaliseDiffersOnlyOnNull(resp: Response)
    ensures Normalise(resp).Some? <==> NormaliseAsWritten(resp).Some?
    ensures NormaliseAsWritten(resp).Some? ==>
      var raw := NormaliseAsWritten(resp).value;
      Normalise(resp).value
        == Fundamentals(raw.roe, FloatOr(raw.debtEquity), FloatOr(raw.pe),
                        raw.revenueGrowth, raw.netProfitMargin, raw.marketCapCr)
  {
  }
}
