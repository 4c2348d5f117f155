/** The spread between an on-chain DEX rate and the oracle reference rate. */
module Spread {
  import opened Numbers

  datatype Direction = Premium | Discount | Par

  datatype SpreadInfo = SpreadInfo(absolute: real, percent: real, direction: Direction, favorable: bool)

  /** Below this many percent (either way) a spread counts as par. */
  const ParThresholdPercent: real := 0.005
  /** Below this many percent (either way) a spread counts as favourable. */
  const FavorableThresholdPercent: real := 0.5

  /** `calculateSpread(dexRate, oracleRate)`. */
  function CalculateSpread(dexRate: real, oracleRate: real): (s: SpreadInfo)
    ensures oracleRate == 0.0 ==> s == SpreadInfo(0.0, 0.0, Par, true)
    ensures oracleRate != 0.0 ==> s.absolute == dexRate - oracleRate && s.percent * oracleRate == 100.0 * s.absolute
    ensures s.direction == Par <==> Abs(s.percent) < ParThresholdPercent
    ensures s.direction == Premium <==> s.percent >= ParThresholdPercent
    ensures s.direction == Discount <==> s.percent <= -ParThresholdPercent
    ensures s.favorable <==> Abs(s.percent) < FavorableThresholdPercent
  {
    if oracleRate == 0.0 then SpreadInfo(0.0, 0.0, Par, true)
    else
      var absolute := dexRate - oracleRate;
      var percent := (absolute / oracleRate) * 100.0;
      var direction := if Abs(percent) < ParThresholdPercent then Par else if percent > 0.0 then Premium else Discount;
      SpreadInfo(absolute, percent, direction, Abs(percent) < FavorableThresholdPercent)
  }

  /** A par spread is always favourable. */
  lemma ParIsFavorable(dexRate: real, oracleRate: real)
    ensures CalculateSpread(dexRate, oracleRate).direction == Par ==> CalculateSpread(dexRate, oracleRate).favorable
  {
  }

  /** Identical rates give a zero, par, favourable spread. */
  lemma IdenticalRates(rate: real)
    ensures CalculateSpread(rate, rate) == SpreadInfo(0.0, 0.0, Par, true)
  {
  }

  /** For a positive oracle rate the sign of the percentage is the sign of `dexRate - oracleRate`. */
  lemma PercentSign(dexRate: real, oracleRate: real)
    requires oracleRate > 0.0
    ensures CalculateSpread(dexRate, oracleRate).percent > 0.0 <==> dexRate > oracleRate
    ensures CalculateSpread(dexRate, oracleRate).percent < 0.0 <==> dexRate < oracleRate
  {
  }

  /** Quoting both rates in another unit (scaling both by `k > 0`) changes neither percent, direction nor favourability. */
  lemma ScaleInvariant(dexRate: real, oracleRate: real, k: real)
    requires k > 0.0
    ensures var a, b := CalculateSpread(dexRate, oracleRate), CalculateSpread(k * dexRate, k * oracleRate);
      a.percent == b.percent && a.direction == b.direction && a.favorable == b.favorable
  {
    if oracleRate != 0.0 {
      var p := CalculateSpread(dexRate, oracleRate).percent;
      var q := CalculateSpread(k * dexRate, k * oracleRate).percent;
      assert q * (k * oracleRate) == 100.0 * (k * dexRate - k * oracleRate);
      assert (q * oracleRate) * k == (100.0 * (dexRate - oracleRate)) * k;
      assert q * oracleRate == p * oracleRate;
    }
  }

  /** A DEX rate of 1.09 against an oracle rate of 1.08 is a premium of 25/27 percent, not favourable. */
  lemma PremiumExample()
    ensures CalculateSpread(1.09, 1.08) == SpreadInfo(0.01, 25.0 / 27.0, Premium, false)
  {
  }

  /** 1.0795 against 1.08 is a discount of 5/108 percent, still favourable. */
  lemma DiscountExample()
    ensures CalculateSpread(1.0795, 1.08) == SpreadInfo(-0.0005, -5.0 / 108.0, Discount, true)
  {
  }
}
