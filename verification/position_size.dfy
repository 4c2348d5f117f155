/**
 * The position size calculator: the amount at risk, the USD value of a pip on a standard lot,
 * the number of lots that loses exactly the amount at risk when the stop is hit, and the units.
 */
module PositionSize {
  import opened Wrappers
  import opened Markets
  import opened MarketData
  import opened AmountInput
  import PipValue

  /** A standard lot: the calculator sizes positions in lots of 100,000 units. */
  const StandardLot: nat := 100_000

  /** The calculator's initial inputs: EUR/USD, a balance of 10000, 1% risk, a 50-pip stop. */
  const DefaultPair: (Iso, Iso) := (EUR, USD)
  const DefaultBalance: string := "10000"
  const DefaultRiskPercent: string := "1"
  const DefaultStopLossPips: string := "50"

  /** The initial inputs are texts the amount fields accept. */
  lemma DefaultsAccepted()
    ensures Accepts(DefaultBalance) && Accepts(DefaultRiskPercent) && Accepts(DefaultStopLossPips)
  {
    AcceptsExactly(DefaultBalance);
    AcceptsExactly(DefaultRiskPercent);
    AcceptsExactly(DefaultStopLossPips);
  }

  /** `riskAmountUsd`: the risked percentage of the balance. */
  function RiskAmountUsd(balance: real, risk: real): (r: real)
    ensures balance >= 0.0 && risk >= 0.0 ==> r >= 0.0
  {
    balance * (risk / 100.0)
  }

  /** Risking between none and all of the balance puts between nothing and the whole balance at risk. */
  lemma RiskIsShareOfBalance(balance: real, risk: real)
    requires balance >= 0.0 && 0.0 <= risk <= 100.0
    ensures 0.0 <= RiskAmountUsd(balance, risk) <= balance
    ensures risk == 100.0 ==> RiskAmountUsd(balance, risk) == balance
  {
    var share := risk / 100.0;
    assert 0.0 <= share <= 1.0;
    assert balance * share <= balance * 1.0;
  }

  /**
   * `pipValuePerLot`: the USD value of a pip on a standard lot, through the row linking the quote
   * currency to USD; nothing without such a row or when its rate is not positive.
   */
  function PipValuePerLot(rows: seq<MarketRow>, quote: Iso): (v: Option<real>)
    ensures v.Some? <==> PipValue.QuoteToUsd(rows, quote).Some?
    ensures v.Some? ==> v.value > 0.0 && v.value == PipValue.PipValueInQuote(quote, StandardLot) * PipValue.QuoteToUsd(rows, quote).value
    ensures quote == USD ==> v == Some(10.0)
  {
    PipValue.PipValueInUsd(rows, quote, StandardLot)
  }

  /**
   * `positionSizeLots`: the amount at risk over the loss a lot takes at the stop; nothing without
   * a positive pip value or a positive stop distance. The position loses exactly the amount at
   * risk when the stop is hit.
   */
  function Lots(riskAmountUsd: real, slPips: real, pipValuePerLot: Option<real>): (lots: Option<real>)
    ensures lots.Some? <==> pipValuePerLot.Some? && pipValuePerLot.value > 0.0 && slPips > 0.0
    ensures lots.Some? ==> lots.value * (slPips * pipValuePerLot.value) == riskAmountUsd
    ensures lots.Some? && riskAmountUsd >= 0.0 ==> lots.value >= 0.0
  {
    if pipValuePerLot.Some? && slPips > 0.0 && pipValuePerLot.value > 0.0 then
      var lossPerLot := slPips * pipValuePerLot.value;
      assert lossPerLot > 0.0;
      Some(riskAmountUsd / lossPerLot)
    else None
  }

  /** `positionSizeUnits`: the lots in units, when there are lots. */
  function Units(lots: Option<real>): (units: Option<real>)
    ensures units.Some? <==> lots.Some?
    ensures units.Some? ==> units.value == lots.value * StandardLot as real
  {
    if lots.Some? then Some(lots.value * StandardLot as real) else None
  }

  /**
   * What the calculator shows for the market rows, the selected pair and the three typed
   * amounts, each read as `parseFloat(text) || 0`: the lots and the units.
   */
  function Sizing(rows: seq<MarketRow>, pair: (Iso, Iso), accountBalance: string, riskPercent: string, stopLossPips: string): (r: (Option<real>, Option<real>))
    requires Accepts(accountBalance) && Accepts(riskPercent) && Accepts(stopLossPips)
    ensures r.1 == Units(r.0)
    ensures r.0 == Lots(RiskAmountUsd(AmountValue(accountBalance), AmountValue(riskPercent)), AmountValue(stopLossPips), PipValuePerLot(rows, pair.1))
  {
    var risk := RiskAmountUsd(AmountValue(accountBalance), AmountValue(riskPercent));
    var lots := Lots(risk, AmountValue(stopLossPips), PipValuePerLot(rows, pair.1));
    (lots, Units(lots))
  }

  /**
   * The position loses the amount at risk at the stop: the units times the stop distance in pips,
   * times the pip size, converted to USD, is the amount at risk.
   */
  lemma LossAtStopIsRisk(rows: seq<MarketRow>, quote: Iso, riskAmountUsd: real, slPips: real)
    ensures var lots := Lots(riskAmountUsd, slPips, PipValuePerLot(rows, quote));
      lots.Some? ==>
        Units(lots).value * slPips * PipValue.PipSize(quote) * PipValue.QuoteToUsd(rows, quote).value == riskAmountUsd
  {
    var lots := Lots(riskAmountUsd, slPips, PipValuePerLot(rows, quote));
    if lots.Some? {
      Regroup(lots.value, slPips, PipValue.PipSize(quote), PipValue.QuoteToUsd(rows, quote).value, StandardLot as real);
    }
  }

  /** `(l * n) * s * p * q` is `l * (s * (p * n * q))`. */
  lemma Regroup(l: real, s: real, p: real, q: real, n: real)
    ensures (l * n) * s * p * q == l * (s * (p * n * q))
  {
    calc {
      (l * n) * s * p * q;
      l * (n * s * p * q);
      l * (s * (p * n * q));
    }
  }

  /** The initial inputs on a EUR/USD row: 100 USD at risk over a 50-pip stop at 10 USD a pip is 0.2 lots, 20,000 units. */
  lemma DefaultSizing(rows: seq<MarketRow>)
    ensures var lots := Lots(RiskAmountUsd(10000.0, 1.0), 50.0, PipValuePerLot(rows, DefaultPair.1));
      lots == Some(0.2) && Units(lots) == Some(20000.0)
  {
    assert RiskAmountUsd(10000.0, 1.0) == 100.0;
    assert PipValuePerLot(rows, USD) == Some(10.0);
  }
}
