/** Normalising a raw Pyth price (mantissa, confidence, exponent) to decimal values. */
module PriceMath {
  import opened Numbers

  /**
   * The decoded oracle price of one feed. `confidence` is the half-width of the confidence
   * interval, in the same unit as `price`.
   */
  datatype OraclePrice = OraclePrice(price: real, confidence: real, expo: int, publishTime: int)

  /** The raw Hermes payload: decimal-string mantissas (here already read as integers), exponent, publish time. */
  datatype RawPythPrice = RawPythPrice(price: int, conf: int, expo: int, publishTime: int)

  /** `normalizePythPrice`: both mantissas scaled by `10^expo`; exponent and publish time carried over. */
  function NormalizePythPrice(raw: RawPythPrice): (p: OraclePrice)
    ensures p.expo == raw.expo && p.publishTime == raw.publishTime
    ensures p.price * Pow10(-raw.expo) == raw.price as real
    ensures p.confidence * Pow10(-raw.expo) == raw.conf as real
  {
    Pow10Inverse(raw.expo);
    var multiplier := Pow10(raw.expo);
    OraclePrice(raw.price as real * multiplier, raw.conf as real * multiplier, raw.expo, raw.publishTime)
  }

  lemma Pow10Inverse(e: int)
    ensures Pow10(e) * Pow10(-e) == 1.0
  {
  }

  /** Normalisation keeps the sign of the price and the relative width of the confidence interval. */
  lemma NormalizeKeepsRatio(raw: RawPythPrice)
    requires raw.price != 0
    ensures var p := NormalizePythPrice(raw);
      (p.price > 0.0 <==> raw.price > 0) && p.confidence / p.price == raw.conf as real / raw.price as real
  {
    ScaledRatio(raw.conf as real, raw.price as real, Pow10(raw.expo));
  }

  lemma ScaledRatio(a: real, b: real, m: real)
    requires b != 0.0 && m > 0.0
    ensures (b * m > 0.0 <==> b > 0.0) && (a * m) / (b * m) == a / b
  {
    var q := a / b;
    assert a == q * b;
    assert a * m == q * (b * m);
  }

  /** Mantissa 108450000 and confidence 50000 at exponent -8 decode to 1.0845 ± 0.0005. */
  lemma EurUsdExample()
    ensures NormalizePythPrice(RawPythPrice(108450000, 50000, -8, 1700000000))
      == OraclePrice(1.0845, 0.0005, -8, 1700000000)
  {
  }

  /** Exponent -5: mantissa 100000 is exactly 1.0. */
  lemma UnitExample()
    ensures NormalizePythPrice(RawPythPrice(100000, 10, -5, 0)).price == 1.0
  {
  }
}
