/**
 * The multibagger score of app.py (calculate_multibagger_score): six
 * independent threshold checks on a fundamentals record, each worth a fixed
 * number of points, for a score from 0 to 23.
 */
module Scoring {
  import opened Wrappers
  import opened Ratios

  const MarketCapPoints: int := 5
  const RoePoints: int := 5
  const DebtPoints: int := 5
  const PePoints: int := 3
  const GrowthPoints: int := 3
  const MarginPoints: int := 2
  const MaxScore: int := 23

  /** Small-mid sweet spot: strictly between 1,000 and 20,000 crore. */
  predicate MarketCapMet(f: Fundamentals) { 1000.0 < f.marketCapCr < 20000.0 }
  predicate RoeMet(f: Fundamentals) { f.roe > 18.0 }
  predicate DebtMet(f: Fundamentals) { f.debtEquity < 0.4 }
  predicate PeMet(f: Fundamentals) { f.pe < 25.0 && f.pe > 0.0 }
  predicate GrowthMet(f: Fundamentals) { f.revenueGrowth > 12.0 }
  predicate MarginMet(f: Fundamentals) { f.netProfitMargin > 10.0 }

  predicate AllMet(f: Fundamentals)
  {
    MarketCapMet(f) && RoeMet(f) && DebtMet(f) && PeMet(f) && GrowthMet(f) && MarginMet(f)
  }

  predicate NoneMet(f: Fundamentals)
  {
    !MarketCapMet(f) && !RoeMet(f) && !DebtMet(f) && !PeMet(f) && !GrowthMet(f) && !MarginMet(f)
  }

  /** The points a criterion awards. */
  function Points(met: bool, weight: int): (points: int)
  {
    if met then weight else 0
  }

  /**
   * The score: the sum of the weights of the criteria the record meets. It
   * reaches 23 exactly when every criterion is met and 0 exactly when none is.
   */
  function Score(f: Fundamentals): (r: int)
    ensures 0 <= r <= MaxScore
    ensures r == MaxScore <==> AllMet(f)
    ensures r == 0 <==> NoneMet(f)
  {
    Points(MarketCapMet(f), MarketCapPoints)
    + Points(RoeMet(f), RoePoints)
    + Points(DebtMet(f), DebtPoints)
    + Points(PeMet(f), PePoints)
    + Points(GrowthMet(f), GrowthPoints)
    + Points(MarginMet(f), MarginPoints)
  }

  /** The scorer as the source runs it: an accumulator raised by each criterion met. */
  method CalculateMultibaggerScore(row: Fundamentals) returns (score: int)
    ensures score == Score(row)
    ensures 0 <= score <= MaxScore
  {
    score := 0;
    if 1000.0 < row.marketCapCr < 20000.0 { score := score + 5; }
    if row.roe > 18.0 { score := score + 5; }
    if row.debtEquity < 0.4 { score := score + 5; }
    if row.pe < 25.0 && row.pe > 0.0 { score := score + 3; }
    if row.revenueGrowth > 12.0 { score := score + 3; }
    if row.netProfitMargin > 10.0 { score := score + 2; }
  }

  /**
   * Each criterion read back on the raw ratio object: a point is earned exactly
   * when the raw value is present, is a number, and lies in the scaled range.
   * So a missing, null or zero market cap, a missing or null ratio, a missing
   * percentage and a non-positive P/E never earn points.
   */
  lemma CriteriaOnRawRatios(resp: Response)
    requires Normalise(resp).Some?
    ensures
      var rec := Latest(resp).value;
      var f := Normalise(resp).value;
      && (MarketCapMet(f) <==> rec.marketCap.Num? && 10000000000.0 < rec.marketCap.value < 200000000000.0)
      && (RoeMet(f) <==> rec.returnOnEquity.Num? && rec.returnOnEquity.value > 0.18)
      && (DebtMet(f) <==> rec.debtEquity.Num? && rec.debtEquity.value < 0.4)
      && (PeMet(f) <==> rec.priceEarnings.Num? && 0.0 < rec.priceEarnings.value < 25.0)
      && (GrowthMet(f) <==> rec.revenueGrowth.Num? && rec.revenueGrowth.value > 0.12)
      && (MarginMet(f) <==> rec.netProfitMargin.Num? && rec.netProfitMargin.value > 0.10)
  {
  }

  /** A ratio object with none of the keys is kept, and scores 0. */
  lemma MissingKeysScoreZero(rest: seq<Entry>)
    ensures
      var resp := Array([Record(RatioRecord(Absent, Absent, Absent, Absent, Absent, Absent))] + rest);
      Normalise(resp).Some? && Score(Normalise(resp).value) == 0
  {
  }

  // ---- The scorer as written, on the dict the written normaliser builds ----

  /**
   * calculate_multibagger_score on the dict as written: None when a comparison
   * with None raises TypeError, which happens exactly when debt/equity or P/E
   * is None; otherwise the score of the same numbers.
   */
  function ScoreAsWritten(row: RawFundamentals): (r: Option<int>)
    ensures r.None? <==> row.debtEquity.PyNone? || row.pe.PyNone?
    ensures r.Some? ==> 0 <= r.value <= MaxScore
  {
    match (row.debtEquity, row.pe)
    case (PyFloat(de), PyFloat(pe)) =>
      Some(Score(Fundamentals(row.roe, de, pe, row.revenueGrowth, row.netProfitMargin, row.marketCapCr)))
    case _ => None
  }

  /**
   * A ratio object whose P/E is null passes the written normaliser, and then
   * the written scorer raises on it: the hunt loop has no handler, so the whole
   * hunt stops.
   */
  lemma NullPeRaisesAsWritten()
    ensures
      var resp := Array([Record(RatioRecord(Num(0.2), Num(0.1), Null, Num(0.15), Num(0.12), Num(50000000000.0)))]);
      NormaliseAsWritten(resp).Some? && ScoreAsWritten(NormaliseAsWritten(resp).value).None?
  {
  }

  /**
   * Corrected: a null debt/equity or P/E no longer stops anything. When the
   * percentages are present the record is kept, the null ratio is stored as
   * 999, and it earns nothing for that criterion.
   */
  lemma NullRatioEarnsNothing(resp: Response)
    requires Latest(resp).Some?
    requires !Latest(resp).value.returnOnEquity.Null?
    requires !Latest(resp).value.revenueGrowth.Null?
    requires !Latest(resp).value.netProfitMargin.Null?
    ensures Normalise(resp).Some?
    ensures Latest(resp).value.debtEquity.Null? ==>
      Normalise(resp).value.debtEquity == 999.0 && !DebtMet(Normalise(resp).value)
    ensures Latest(resp).value.priceEarnings.Null? ==>
      Normalise(resp).value.pe == 999.0 && !PeMet(Normalise(resp).value)
  {
  }
}
