/**
 * The currency converter: a rate lookup built from the market rows, the conversion rate of the
 * selected pair (one for a currency against itself, the direct rate, or the product of the legs
 * through USD), the converted amount or "--", and the flip of the two selected currencies.
 */
module Converter {
  import opened Wrappers
  import opened Markets
  import opened MarketData
  import opened AmountInput
  import CrossRates

  /** The converter's lookup, keyed by `(base, quote)`: rates only, no changes. */
  type RateMap = map<(Iso, Iso), real>

  /** The lookup the converter builds for `rows`: every rate in it is positive. */
  function Rates(rows: seq<MarketRow>): (l: RateMap)
    ensures forall k :: k in l ==> l[k] > 0.0
    decreases |rows|
  {
    if rows == [] then map[]
    else
      var l := Rates(rows[..|rows| - 1]);
      var row := rows[|rows| - 1];
      if row.rate <= 0.0 then l
      else l[(row.market.base, row.market.quote) := row.rate][(row.market.quote, row.market.base) := 1.0 / row.rate]
  }

  /** `rateLookup`: the loop over the market rows. */
  method BuildRates(markets: seq<MarketRow>) returns (lookup: RateMap)
    ensures lookup == Rates(markets)
  {
    lookup := map[];
    for i := 0 to |markets|
      invariant lookup == Rates(markets[..i])
    {
      var row := markets[i];
      if row.rate > 0.0 {
        lookup := lookup[(row.market.base, row.market.quote) := row.rate];
        lookup := lookup[(row.market.quote, row.market.base) := 1.0 / row.rate];
      }
      assert markets[..i + 1][..i] == markets[..i];
    }
    assert markets[..|markets|] == markets;
  }

  /** The rates of a cross-rates lookup, without the changes. */
  function RatesOf<K(==)>(l: map<(K, K), CrossRates.Quote>): (r: map<(K, K), real>)
    ensures r.Keys == l.Keys && forall k :: k in r ==> r[k] == l[k].rate
  {
    map k | k in l :: l[k].rate
  }

  /** The converter's lookup holds the same keys and rates as the one of the cross-rates matrix. */
  lemma {:induction false} RatesAreMatrixRates(rows: seq<MarketRow>)
    ensures Rates(rows) == RatesOf(CrossRates.RateLookup(rows))
    decreases |rows|
  {
    if rows != [] {
      RatesAreMatrixRates(rows[..|rows| - 1]);
      var l := Rates(rows);
      var m := RatesOf(CrossRates.RateLookup(rows));
      assert forall k :: k in l <==> k in m;
      assert forall k :: k in l ==> l[k] == m[k];
    }
  }

  /**
   * The `rate` selection, with the currency it crosses through as `hub`: one for a currency against
   * itself; the direct rate when there is one; otherwise the product of the legs through the hub;
   * otherwise nothing.
   */
  function ConversionVia<K(==)>(from: K, to: K, hub: K, lookup: map<(K, K), real>): (r: Option<real>)
    ensures from == to ==> r == Some(1.0)
    ensures from != to && (from, to) in lookup ==> r == Some(lookup[(from, to)])
    ensures from != to && (from, to) !in lookup ==>
      (r.Some? <==> (from, hub) in lookup && (hub, to) in lookup) &&
      (r.Some? ==> r.value == lookup[(from, hub)] * lookup[(hub, to)])
  {
    if from == to then Some(1.0)
    else if (from, to) in lookup then Some(lookup[(from, to)])
    else if (from, hub) in lookup && (hub, to) in lookup then Some(lookup[(from, hub)] * lookup[(hub, to)])
    else None
  }

  /** The `rate` of the converter: crossing through USD. */
  function Rate(from: Iso, to: Iso, lookup: RateMap): Option<real> {
    ConversionVia(from, to, USD, lookup)
  }

  /**
   * Between two different currencies the converter's rate is the rate of the matrix cell; a
   * currency against itself converts at one where the matrix cell is empty.
   */
  lemma ConversionIsCrossRate<K>(l: map<(K, K), CrossRates.Quote>, from: K, to: K, hub: K)
    ensures var r := ConversionVia(from, to, hub, RatesOf(l));
      var cell := CrossRates.CrossVia(from, to, hub, l);
      (from == to ==> r == Some(1.0) && cell.None?) &&
      (from != to ==> (r.Some? <==> cell.Some?) && (r.Some? ==> r.value == cell.value.rate))
  {
  }

  /** The same for the lookups built from the market rows. */
  lemma RateIsCrossRate(rows: seq<MarketRow>, from: Iso, to: Iso)
    ensures var r := Rate(from, to, Rates(rows));
      var cell := CrossRates.GetCrossRate(from, to, CrossRates.RateLookup(rows));
      (from == to ==> r == Some(1.0) && cell.None?) &&
      (from != to ==> (r.Some? <==> cell.Some?) && (r.Some? ==> r.value == cell.value.rate))
  {
    RatesAreMatrixRates(rows);
    ConversionIsCrossRate(CrossRates.RateLookup(rows), from, to, USD);
  }

  /** Two rates in opposite directions: both missing, or both present, positive and inverse. */
  predicate RatesInverse(there: Option<real>, back: Option<real>) {
    (there.Some? <==> back.Some?) && (there.Some? ==> there.value > 0.0 && there.value * back.value == 1.0)
  }

  /** Over a reciprocal lookup of positive rates, the conversion rates in the two directions are inverse. */
  lemma ConversionReciprocal<K(!new)>(l: map<(K, K), CrossRates.Quote>, from: K, to: K, hub: K)
    requires CrossRates.Reciprocal(l) && CrossRates.Positive(l)
    ensures RatesInverse(ConversionVia(from, to, hub, RatesOf(l)), ConversionVia(to, from, hub, RatesOf(l)))
  {
    ConversionIsCrossRate(l, from, to, hub);
    ConversionIsCrossRate(l, to, from, hub);
    CrossRates.CrossRateInverse(l, from, to, hub);
  }

  /**
   * Converting back: the rate from `to` to `from` exists exactly when the rate from `from` to `to`
   * does, and the two are positive and multiply to one.
   */
  lemma RateReciprocal(rows: seq<MarketRow>, from: Iso, to: Iso)
    ensures RatesInverse(Rate(from, to, Rates(rows)), Rate(to, from, Rates(rows)))
  {
    RatesAreMatrixRates(rows);
    CrossRates.LookupReciprocal(rows);
    ConversionReciprocal(CrossRates.RateLookup(rows), from, to, USD);
  }

  /** What the result field shows: "--" without a rate, otherwise the converted amount. */
  datatype Output = Dashes | Amount(value: real)

  /** `toAmount`: the typed amount, already read as a number, times the rate. */
  function ToAmount(fromNum: real, rate: Option<real>): (o: Output)
    ensures o.Dashes? <==> rate.None?
    ensures o.Amount? && fromNum >= 0.0 && rate.value > 0.0 ==> o.value >= 0.0
  {
    if rate.Some? then Amount(fromNum * rate.value) else Dashes
  }

  lemma TimesInverse(n: real, r: real, r': real)
    requires r * r' == 1.0
    ensures (n * r) * r' == n
  {
    calc {
      (n * r) * r';
      n * (r * r');
    }
  }

  /** Converting `fromNum` at `there` and the result back at `back` returns `fromNum`. */
  predicate RoundTrips(fromNum: real, there: Option<real>, back: Option<real>) {
    ToAmount(fromNum, there).Amount? ==> back.Some? && ToAmount(fromNum, there).value * back.value == fromNum
  }

  /**
   * The round trip: the converted amount, converted back at the inverse rate, is the amount that
   * was typed.
   */
  lemma ConvertBackAt(fromNum: real, there: Option<real>, back: Option<real>)
    requires RatesInverse(there, back)
    ensures RoundTrips(fromNum, there, back)
  {
    if there.Some? {
      TimesInverse(fromNum, there.value, back.value);
    }
  }

  /** The same for the converter's rates: converting back at the rate of the flipped pair. */
  lemma ConvertBack(rows: seq<MarketRow>, from: Iso, to: Iso, fromNum: real)
    ensures RoundTrips(fromNum, Rate(from, to, Rates(rows)), Rate(to, from, Rates(rows)))
  {
    RateReciprocal(rows, from, to);
    ConvertBackAt(fromNum, Rate(from, to, Rates(rows)), Rate(to, from, Rates(rows)));
  }

  /** The converter's state: the two selected currencies and the typed amount. */
  class CurrencyConverter {
    var fromCurrency: Iso
    var toCurrency: Iso
    var fromAmount: string

    /** The amount field only ever holds text the field accepts. */
    predicate Valid()
      reads this
    {
      Accepts(fromAmount)
    }

    /** The initial state: 1000 USD into EUR. */
    constructor()
      ensures fromCurrency == USD && toCurrency == EUR && fromAmount == "1000" && Valid()
    {
      fromCurrency, toCurrency, fromAmount := USD, EUR, "1000";
      AcceptanceExamples();
    }

    /** `fromNum`: the typed amount as `parseFloat(fromAmount) || 0` reads it. */
    function FromNum(): (n: real)
      reads this
      requires Valid()
      ensures n >= 0.0
    {
      AmountValue(fromAmount)
    }

    /** The result field: "--" exactly when the selected pair has no rate, and never negative. */
    function Shown(lookup: RateMap): (o: Output)
      reads this
      requires Valid()
      requires forall k :: k in lookup ==> lookup[k] > 0.0
      ensures o.Dashes? <==> Rate(fromCurrency, toCurrency, lookup).None?
      ensures o.Amount? ==> o.value >= 0.0
    {
      ToAmount(FromNum(), Rate(fromCurrency, toCurrency, lookup))
    }

    /** `handleFlip`: the two currencies swap and the amount stays. */
    method Flip()
      modifies this
      ensures fromCurrency == old(toCurrency) && toCurrency == old(fromCurrency)
      ensures fromAmount == old(fromAmount)
    {
      var from := fromCurrency;
      fromCurrency := toCurrency;
      toCurrency := from;
    }

    /** A keystroke in the amount field: accepted text replaces the amount, refused text is dropped. */
    method Edit(raw: string)
      requires Valid()
      modifies this
      ensures Valid()
      ensures fromAmount == HandleChange(old(fromAmount), raw)
      ensures fromCurrency == old(fromCurrency) && toCurrency == old(toCurrency)
    {
      if raw == "" || Accepts(raw) {
        fromAmount := raw;
      }
    }

    /** The two currency selectors. */
    method SelectFrom(c: Iso)
      modifies this
      ensures fromCurrency == c && toCurrency == old(toCurrency) && fromAmount == old(fromAmount)
    {
      fromCurrency := c;
    }

    method SelectTo(c: Iso)
      modifies this
      ensures toCurrency == c && fromCurrency == old(fromCurrency) && fromAmount == old(fromAmount)
    {
      toCurrency := c;
    }
  }

  /** Flipping twice restores the selection and the amount. */
  method FlipTwice(c: CurrencyConverter)
    modifies c
    ensures c.fromCurrency == old(c.fromCurrency) && c.toCurrency == old(c.toCurrency)
    ensures c.fromAmount == old(c.fromAmount)
  {
    c.Flip();
    c.Flip();
  }
}
