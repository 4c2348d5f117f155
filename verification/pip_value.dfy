/**
 * The pip value calculator: the pip size of a pair, the value of one pip on a lot in the quote
 * currency, and that value in USD through the market row that links the quote currency to USD.
 */
module PipValue {
  import opened Wrappers
  import opened Markets
  import opened MarketData

  /** `getPipSize`: a pip is the second decimal for JPY quotes and the fourth for all others. */
  function PipSize(quote: Iso): (p: real)
    ensures p > 0.0
    ensures p == 0.01 <==> quote == JPY
    ensures p == 0.0001 <==> quote != JPY
  {
    if quote == JPY then 0.01 else 0.0001
  }

  /** `PAIRS`, as (base, quote): the pairs the calculators offer. */
  const Pairs: seq<(Iso, Iso)> := [
    (EUR, USD), (USD, JPY), (GBP, USD), (USD, CHF),
    (EUR, JPY), (EUR, GBP), (GBP, JPY), (GBP, CHF),
    (EUR, CHF), (USD, BRL), (USD, MXN), (USD, TRY), (USD, ZAR)
  ]

  /** The id a pair is selected by: "BASE/QUOTE". */
  function PairId(pair: (Iso, Iso)): (id: string)
    ensures |id| == 7 && id[3] == '/' && id[..3] == IsoName(pair.0) && id[4..] == IsoName(pair.1)
  {
    IsoName(pair.0) + "/" + IsoName(pair.1)
  }

  /** Every offered pair is a market of the table, quoted the same way round. */
  lemma PairsAreMarkets()
    ensures forall p :: p in Pairs ==> MarketIndex(p.0, p.1).Some?
  {
  }

  /** `LOT_SIZES`: standard, mini and micro lots. */
  const LotSizes: seq<nat> := [100_000, 10_000, 1_000]

  /** The calculator's initial selection: EUR/USD on a standard lot. */
  const DefaultPair: (Iso, Iso) := (EUR, USD)
  const DefaultLotIndex: nat := 0

  /** `pipValueInQuote`: what one pip on `lotSize` units is worth in the quote currency. */
  function PipValueInQuote(quote: Iso, lotSize: nat): (v: real)
    ensures lotSize > 0 ==> v > 0.0
  {
    PipSize(quote) * lotSize as real
  }

  /** The familiar values: ten dollars a pip on a standard lot of a USD-quoted pair, a thousand yen on a JPY-quoted one. */
  lemma StandardLotPipValues()
    ensures PipValueInQuote(USD, LotSizes[0]) == 10.0 && PipValueInQuote(JPY, LotSizes[0]) == 1000.0
    ensures PipValueInQuote(USD, LotSizes[1]) == 1.0 && PipValueInQuote(USD, LotSizes[2]) == 0.1
  {
  }

  /** The pip value grows in proportion to the lot: a lot `k` times larger is worth `k` times more a pip. */
  lemma PipValueScalesWithLot(quote: Iso, lotSize: nat, k: nat)
    ensures PipValueInQuote(quote, k * lotSize) == k as real * PipValueInQuote(quote, lotSize)
  {
    var p := PipSize(quote);
    calc {
      PipValueInQuote(quote, k * lotSize);
      p * (k as real * lotSize as real);
      k as real * (p * lotSize as real);
    }
  }

  /**
   * `calculatePipValue`: the pip value in the quote currency times `accountCurrencyRate`. The
   * pair's own rate and the account currency are taken and not used.
   */
  function CalculatePipValue(rate: real, quote: Iso, accountCurrency: Iso, lotSize: nat, accountCurrencyRate: real): (v: real)
    ensures lotSize > 0 && accountCurrencyRate > 0.0 ==> v > 0.0
  {
    PipValueInQuote(quote, lotSize) * accountCurrencyRate
  }

  /** The result does not depend on the pair's rate or on the account currency. */
  lemma CalculatePipValueIgnoresRate(rate: real, rate': real, quote: Iso, account: Iso, account': Iso, lotSize: nat, accountCurrencyRate: real)
    ensures CalculatePipValue(rate, quote, account, lotSize, accountCurrencyRate) ==
            CalculatePipValue(rate', quote, account', lotSize, accountCurrencyRate)
    ensures CalculatePipValue(rate, quote, account, lotSize, 1.0) == PipValueInQuote(quote, lotSize)
  {
  }

  /** `markets.find` by market id: the first row of the pair, if any. */
  function FindRow(rows: seq<MarketRow>, pair: string): (r: Option<MarketRow>)
    ensures r.Some? <==> exists i :: 0 <= i < |rows| && rows[i].market.pair == pair
    ensures r.Some? ==>
      r.value.market.pair == pair &&
      exists i :: 0 <= i < |rows| && rows[i] == r.value && forall k :: 0 <= k < i ==> rows[k].market.pair != pair
  {
    if rows == [] then None
    else if rows[0].market.pair == pair then Some(rows[0])
    else
      var r := FindRow(rows[1..], pair);
      assert forall i :: 1 <= i < |rows| ==> rows[i] == rows[1..][i - 1];
      r
  }

  /** `rate`: the selected pair's rate, 0 when it has no row. */
  function SelectedRate(rows: seq<MarketRow>, pair: (Iso, Iso)): (rate: real)
    ensures FindRow(rows, PairId(pair)).None? ==> rate == 0.0
    ensures FindRow(rows, PairId(pair)).Some? ==> rate == FindRow(rows, PairId(pair)).value.rate
  {
    match FindRow(rows, PairId(pair))
    case Some(row) => row.rate
    case None => 0.0
  }

  /** Over the market rows every market id selects its own row. */
  lemma MarketSelectsOwnRow(prices: map<string, PriceMath.OraclePrice>, initial: map<string, real>, i: nat)
    requires i < |FxMarkets|
    ensures FindRow(Rows(prices, initial), FxMarkets[i].pair) == Some(Rows(prices, initial)[i])
  {
    var rows := Rows(prices, initial);
    PairIdsDistinct();
    var r := FindRow(rows, FxMarkets[i].pair);
    var j :| 0 <= j < |rows| && rows[j] == r.value && forall k :: 0 <= k < j ==> rows[k].market.pair != FxMarkets[i].pair;
    assert rows[j].market == FxMarkets[j] && rows[i].market == FxMarkets[i];
  }

  /** A market linking `quote` to USD, either way round. */
  predicate UsdLeg(m: FXMarket, quote: Iso) {
    (m.base == quote && m.quote == USD) || (m.base == USD && m.quote == quote)
  }

  /** `quoteUsdRow`: the first row whose market links `quote` to USD. */
  function FindUsdLeg(rows: seq<MarketRow>, quote: Iso): (r: Option<MarketRow>)
    ensures r.Some? <==> exists i :: 0 <= i < |rows| && UsdLeg(rows[i].market, quote)
    ensures r.Some? ==>
      UsdLeg(r.value.market, quote) &&
      exists i :: 0 <= i < |rows| && rows[i] == r.value && forall k :: 0 <= k < i ==> !UsdLeg(rows[k].market, quote)
  {
    if rows == [] then None
    else if UsdLeg(rows[0].market, quote) then Some(rows[0])
    else
      var r := FindUsdLeg(rows[1..], quote);
      assert forall i :: 1 <= i < |rows| ==> rows[i] == rows[1..][i - 1];
      r
  }

  /** A JavaScript number as far as these calculators can produce one: finite, or `Infinity`. */
  datatype Number = Finite(value: real) | Infinity

  /** `1 / x` on JavaScript numbers: dividing by zero gives `Infinity`. */
  function Reciprocal(x: real): (r: Number)
    ensures r.Infinity? <==> x == 0.0
    ensures r.Finite? ==> r.value * x == 1.0
  {
    if x == 0.0 then Infinity else Finite(1.0 / x)
  }

  /** `quoteToUsd` as the pip value calculator writes it: no check of the row's rate. */
  function QuoteToUsdAsWritten(row: MarketRow, quote: Iso): (r: Number)
    ensures r.Infinity? <==> row.market.base != quote && row.rate == 0.0
    ensures r.Finite? && row.market.base == quote ==> r.value == row.rate
    ensures r.Finite? && row.market.base != quote ==> r.value * row.rate == 1.0
  {
    if row.market.base == quote then Finite(row.rate) else Reciprocal(row.rate)
  }

  /**
   * `quoteToUsd` as the position size calculator writes it: nothing when the row has no positive
   * rate, otherwise the row's rate, or its inverse when USD is the row's base.
   */
  function CheckedQuoteToUsd(row: MarketRow, quote: Iso): (r: Option<real>)
    ensures r.Some? <==> row.rate > 0.0
    ensures r.Some? ==> r.value > 0.0
    ensures r.Some? && row.market.base == quote ==> r.value == row.rate
    ensures r.Some? && row.market.base != quote ==> r.value * row.rate == 1.0
  {
    if row.rate <= 0.0 then None
    else if row.market.base == quote then Some(row.rate)
    else Some(1.0 / row.rate)
  }

  /** A positive amount times a JavaScript number. */
  function Scale(x: real, n: Number): (r: Number)
    requires x > 0.0
    ensures r.Infinity? <==> n.Infinity?
    ensures r.Finite? ==> r.value == x * n.value
  {
    match n
    case Finite(v) => Finite(x * v)
    case Infinity => Infinity
  }

  /**
   * The conversion of the pip value calculator, as written: one for USD (the pip value in the
   * quote is returned as it is); with no row linking the quote to USD, null; otherwise the
   * conversion through that row, whatever its rate.
   */
  function UsdLegAsWritten(rows: seq<MarketRow>, quote: Iso): (r: Option<Number>)
    ensures quote == USD ==> r == Some(Finite(1.0))
    ensures quote != USD ==> (r.Some? <==> FindUsdLeg(rows, quote).Some?)
    ensures quote != USD && r.Some? ==> r.value == QuoteToUsdAsWritten(FindUsdLeg(rows, quote).value, quote)
  {
    if quote == USD then Some(Finite(1.0))
    else
      match FindUsdLeg(rows, quote)
      case None => None
      case Some(row) => Some(QuoteToUsdAsWritten(row, quote))
  }

  /** `pipValueInUsd` of the pip value calculator, as written: the pip value in the quote, converted. */
  function PipValueInUsdAsWritten(rows: seq<MarketRow>, quote: Iso, lotIndex: nat): (r: Option<Number>)
    requires lotIndex < |LotSizes|
    ensures quote == USD ==> r == Some(Finite(PipValueInQuote(USD, LotSizes[lotIndex])))
    ensures r.Some? <==> UsdLegAsWritten(rows, quote).Some?
    ensures r.Some? ==> r.value == Scale(PipValueInQuote(quote, LotSizes[lotIndex]), UsdLegAsWritten(rows, quote).value)
  {
    var inQuote := PipValueInQuote(quote, LotSizes[lotIndex]);
    match UsdLegAsWritten(rows, quote)
    case None => None
    case Some(toUsd) => Some(Scale(inQuote, toUsd))
  }

  /**
   * The "Pip Value (USD)" line: "--" unless there is a USD value and the selected pair has a
   * positive rate; the value is the written one or the checked one.
   */
  function Shown<T>(pipValueInUsd: Option<T>, rate: real): (shown: Option<T>)
    ensures shown.Some? <==> pipValueInUsd.Some? && rate > 0.0
    ensures shown.Some? ==> shown == pipValueInUsd
  {
    if pipValueInUsd.Some? && rate > 0.0 then pipValueInUsd else None
  }

  /**
   * The conversion from the quote currency to USD as the position size calculator writes it, and
   * as the pip value calculator evidently intends it: one for USD; nothing without a row linking
   * the quote to USD or when that row has no positive rate; otherwise the row's rate, or its
   * inverse when USD is the row's base.
   */
  function QuoteToUsd(rows: seq<MarketRow>, quote: Iso): (r: Option<real>)
    ensures quote == USD ==> r == Some(1.0)
    ensures quote != USD && FindUsdLeg(rows, quote).None? ==> r.None?
    ensures quote != USD && FindUsdLeg(rows, quote).Some? ==> r == CheckedQuoteToUsd(FindUsdLeg(rows, quote).value, quote)
    ensures r.Some? ==> r.value > 0.0
  {
    if quote == USD then Some(1.0)
    else
      match FindUsdLeg(rows, quote)
      case None => None
      case Some(row) => CheckedQuoteToUsd(row, quote)
  }

  /**
   * `pipValueInUsd` with the rate of the linking row checked: the pip value in the quote times the
   * conversion, present exactly when the conversion is, and positive.
   */
  function PipValueInUsd(rows: seq<MarketRow>, quote: Iso, lotSize: nat): (r: Option<real>)
    ensures r.Some? <==> QuoteToUsd(rows, quote).Some?
    ensures r.Some? ==> r.value == PipValueInQuote(quote, lotSize) * QuoteToUsd(rows, quote).value
    ensures quote == USD ==> r == Some(PipValueInQuote(USD, lotSize))
    ensures r.Some? && lotSize > 0 ==> r.value > 0.0
  {
    match QuoteToUsd(rows, quote)
    case None => None
    case Some(toUsd) => Some(PipValueInQuote(quote, lotSize) * toUsd)
  }

  /**
   * A checked value and a written one agree: where the checked one exists the written one is the
   * same finite number, and where only the written one exists it is `Infinity` or at most zero.
   */
  predicate Agree(fixed: Option<real>, written: Option<Number>) {
    (fixed.Some? ==> written == Some(Finite(fixed.value))) &&
    (fixed.None? && written.Some? ==> written.value.Infinity? || written.value.value <= 0.0)
  }

  /** On one linking row the checked and the written conversions agree. */
  lemma RowAgrees(row: MarketRow, quote: Iso)
    ensures Agree(CheckedQuoteToUsd(row, quote), Some(QuoteToUsdAsWritten(row, quote)))
  {
    if row.rate < 0.0 && row.market.base != quote {
      InverseOfNegative(row.rate, QuoteToUsdAsWritten(row, quote).value);
    }
  }

  lemma InverseOfNegative(x: real, y: real)
    requires x < 0.0 && y * x == 1.0
    ensures y < 0.0
  {
    assert y == 1.0 / x;
  }

  /** The checked and the written conversions of the quote currency agree. */
  lemma ConversionsAgree(rows: seq<MarketRow>, quote: Iso)
    ensures Agree(QuoteToUsd(rows, quote), UsdLegAsWritten(rows, quote))
  {
    if quote != USD && FindUsdLeg(rows, quote).Some? {
      RowAgrees(FindUsdLeg(rows, quote).value, quote);
    }
  }

  /** Scaling both by the same positive pip value keeps them in agreement. */
  lemma ScaledAgree(x: real, fixed: Option<real>, written: Option<Number>)
    requires x > 0.0 && Agree(fixed, written)
    ensures Agree(if fixed.Some? then Some(x * fixed.value) else None, if written.Some? then Some(Scale(x, written.value)) else None)
  {
    if fixed.None? && written.Some? && written.value.Finite? {
      var v := written.value.value;
      assert Scale(x, written.value) == Finite(x * v);
      assert x * v <= 0.0;
    } else if fixed.Some? {
      assert written == Some(Finite(fixed.value));
      assert Scale(x, written.value) == Finite(x * fixed.value);
    }
  }

  /**
   * The two versions of `pipValueInUsd` differ only on a linking row without a positive rate:
   * where the checked value exists the written one is the same finite number; where only the
   * written one exists it is `Infinity` or at most zero.
   */
  lemma CheckedConversionAgrees(rows: seq<MarketRow>, quote: Iso, lotIndex: nat)
    requires lotIndex < |LotSizes|
    ensures Agree(PipValueInUsd(rows, quote, LotSizes[lotIndex]), PipValueInUsdAsWritten(rows, quote, lotIndex))
  {
    ConversionsAgree(rows, quote);
    ScaledAgree(PipValueInQuote(quote, LotSizes[lotIndex]), QuoteToUsd(rows, quote), UsdLegAsWritten(rows, quote));
  }

  /** Without a linking row both versions give nothing; with one the written version always gives a value. */
  lemma WrittenValueExists(rows: seq<MarketRow>, quote: Iso, lotIndex: nat)
    requires lotIndex < |LotSizes|
    ensures quote != USD ==>
      (PipValueInUsdAsWritten(rows, quote, lotIndex).Some? <==> FindUsdLeg(rows, quote).Some?)
    ensures quote != USD && FindUsdLeg(rows, quote).None? ==> PipValueInUsd(rows, quote, LotSizes[lotIndex]).None?
  {
  }

  /**
   * The input that shows the missing check: EUR/JPY has a price and USD/JPY, the first row
   * linking JPY to USD, does not yet, so its row reads a rate of 0. The pip value calculator on
   * EUR/JPY then shows a USD pip value of `Infinity`; with the checked conversion it shows "--".
   */
  lemma EurJpyWithoutUsdJpy(prices: map<string, PriceMath.OraclePrice>, initial: map<string, real>, lotIndex: nat)
    requires "EUR/JPY" in prices && prices["EUR/JPY"].price > 0.0 && "USD/JPY" !in prices
    requires lotIndex < |LotSizes|
    ensures var rows := Rows(prices, initial);
      var rate := SelectedRate(rows, (EUR, JPY));
      Shown(PipValueInUsdAsWritten(rows, JPY, lotIndex), rate) == Some(Infinity) &&
      Shown(PipValueInUsd(rows, JPY, LotSizes[lotIndex]), rate).None?
  {
    EurJpyRate(prices, initial);
    UsdJpyIsFirstJpyLeg(prices, initial);
  }

  /** The rate of EUR/JPY over the market rows is its price. */
  lemma EurJpyRate(prices: map<string, PriceMath.OraclePrice>, initial: map<string, real>)
    requires "EUR/JPY" in prices
    ensures SelectedRate(Rows(prices, initial), (EUR, JPY)) == prices["EUR/JPY"].price
  {
    assert FxMarkets[7].pair == "EUR/JPY" == PairId((EUR, JPY));
    MarketSelectsOwnRow(prices, initial, 7);
  }

  /** USD/JPY, the second market of the table, is the first row linking JPY to USD. */
  lemma UsdJpyIsFirstJpyLeg(prices: map<string, PriceMath.OraclePrice>, initial: map<string, real>)
    ensures var rows := Rows(prices, initial);
      FindUsdLeg(rows, JPY) == Some(rows[1]) && rows[1].market.base == USD &&
      ("USD/JPY" !in prices ==> rows[1].rate == 0.0)
  {
    var rows := Rows(prices, initial);
    assert FxMarkets[0] == Majors[0] && FxMarkets[1] == Majors[1];
    assert rows[1].market == FxMarkets[1] && !UsdLeg(rows[0].market, JPY);
  }
}
