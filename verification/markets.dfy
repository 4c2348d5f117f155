/**
 * `FX_MARKETS`: the forex markets the app quotes, which of them have an on-chain token pair,
 * and the lookups over the table.
 */
module Markets {
  import opened Wrappers
  import opened Seqs
  import Tokens

  /** The ISO currencies of the markets and of the token registry. */
  datatype Iso = USD | EUR | JPY | GBP | AUD | CAD | CHF | NZD | SGD | BRL | MXN | TRY | ZAR | HKD | NOK | SEK | NGN | IDR

  function IsoName(c: Iso): (s: string)
    ensures |s| == 3
  {
    match c
    case USD => "USD" case EUR => "EUR" case JPY => "JPY" case GBP => "GBP"
    case AUD => "AUD" case CAD => "CAD" case CHF => "CHF" case NZD => "NZD"
    case SGD => "SGD" case BRL => "BRL" case MXN => "MXN" case TRY => "TRY"
    case ZAR => "ZAR" case HKD => "HKD" case NOK => "NOK" case SEK => "SEK"
    case NGN => "NGN" case IDR => "IDR"
  }

  lemma IsoNameInjective(a: Iso, b: Iso)
    ensures IsoName(a) == IsoName(b) <==> a == b
  {
  }

  datatype Category = Major | Cross | Exotic

  /** The two registry tokens a market trades through on Solana. */
  datatype SolanaMapping = SolanaMapping(inputToken: string, outputToken: string)

  datatype FXMarket = FXMarket(
    pair: string, base: Iso, quote: Iso, category: Category,
    solanaMapping: Option<SolanaMapping>, globalVolume24h: nat)

  function Via(inputToken: string, outputToken: string): Option<SolanaMapping> {
    Some(SolanaMapping(inputToken, outputToken))
  }

  /** `FX_MARKETS`, in declaration order, in the groups its comments mark. */
  const FxMarkets: seq<FXMarket> := Majors + EurCrosses + GbpCrosses + OtherCrosses + Exotics

  /** Majors. */
  const Majors: seq<FXMarket> := [
    FXMarket("EUR/USD", EUR, USD, Major, Via("USDC", "EURC"), 1_980_000_000_000),
    FXMarket("USD/JPY", USD, JPY, Major, Via("USDC", "GYEN"), 1_250_000_000_000),
    FXMarket("GBP/USD", GBP, USD, Major, Via("VGBP", "USDC"), 750_000_000_000),
    FXMarket("AUD/USD", AUD, USD, Major, None, 420_000_000_000),
    FXMarket("USD/CAD", USD, CAD, Major, None, 410_000_000_000),
    FXMarket("USD/CHF", USD, CHF, Major, Via("USDC", "VCHF"), 340_000_000_000),
    FXMarket("NZD/USD", NZD, USD, Major, None, 130_000_000_000)
  ]

  /** Crosses with EUR as base. */
  const EurCrosses: seq<FXMarket> := [
    FXMarket("EUR/JPY", EUR, JPY, Cross, Via("EURC", "GYEN"), 180_000_000_000),
    FXMarket("EUR/GBP", EUR, GBP, Cross, Via("EURC", "VGBP"), 160_000_000_000),
    FXMarket("EUR/CHF", EUR, CHF, Cross, Via("EURC", "VCHF"), 110_000_000_000),
    FXMarket("EUR/AUD", EUR, AUD, Cross, None, 45_000_000_000),
    FXMarket("EUR/CAD", EUR, CAD, Cross, None, 38_000_000_000),
    FXMarket("EUR/NZD", EUR, NZD, Cross, None, 18_000_000_000)
  ]

  /** Crosses with GBP as base. */
  const GbpCrosses: seq<FXMarket> := [
    FXMarket("GBP/JPY", GBP, JPY, Cross, Via("VGBP", "GYEN"), 110_000_000_000),
    FXMarket("GBP/AUD", GBP, AUD, Cross, None, 28_000_000_000),
    FXMarket("GBP/CAD", GBP, CAD, Cross, None, 22_000_000_000),
    FXMarket("GBP/NZD", GBP, NZD, Cross, None, 12_000_000_000),
    FXMarket("GBP/CHF", GBP, CHF, Cross, Via("VGBP", "VCHF"), 35_000_000_000)
  ]

  /** Crosses among AUD, CAD, CHF, NZD and JPY. */
  const OtherCrosses: seq<FXMarket> := [
    FXMarket("AUD/JPY", AUD, JPY, Cross, None, 65_000_000_000),
    FXMarket("AUD/NZD", AUD, NZD, Cross, None, 25_000_000_000),
    FXMarket("AUD/CAD", AUD, CAD, Cross, None, 18_000_000_000),
    FXMarket("CAD/JPY", CAD, JPY, Cross, None, 42_000_000_000),
    FXMarket("CHF/JPY", CHF, JPY, Cross, None, 48_000_000_000),
    FXMarket("NZD/JPY", NZD, JPY, Cross, None, 15_000_000_000)
  ]

  /** Exotics. */
  const Exotics: seq<FXMarket> := [
    FXMarket("USD/SGD", USD, SGD, Exotic, None, 85_000_000_000),
    FXMarket("USD/BRL", USD, BRL, Exotic, Via("USDC", "BRZ"), 72_000_000_000),
    FXMarket("USD/MXN", USD, MXN, Exotic, Via("USDC", "MXNe"), 114_000_000_000),
    FXMarket("USD/TRY", USD, TRY, Exotic, Via("USDC", "TRYB"), 36_000_000_000),
    FXMarket("USD/ZAR", USD, ZAR, Exotic, Via("USDC", "ZARP"), 58_000_000_000),
    FXMarket("USD/HKD", USD, HKD, Exotic, None, 95_000_000_000),
    FXMarket("USD/NOK", USD, NOK, Exotic, None, 65_000_000_000),
    FXMarket("USD/SEK", USD, SEK, Exotic, None, 55_000_000_000)
  ]

  /** Where the market quoting BASE against QUOTE sits in the table, if anywhere. */
  function MarketIndex(base: Iso, quote: Iso): (r: Option<nat>)
  {
    match (base, quote)
    case (EUR, USD) => Some(0) case (USD, JPY) => Some(1) case (GBP, USD) => Some(2)
    case (AUD, USD) => Some(3) case (USD, CAD) => Some(4) case (USD, CHF) => Some(5)
    case (NZD, USD) => Some(6) case (EUR, JPY) => Some(7) case (EUR, GBP) => Some(8)
    case (EUR, CHF) => Some(9) case (EUR, AUD) => Some(10) case (EUR, CAD) => Some(11)
    case (EUR, NZD) => Some(12) case (GBP, JPY) => Some(13) case (GBP, AUD) => Some(14)
    case (GBP, CAD) => Some(15) case (GBP, NZD) => Some(16) case (GBP, CHF) => Some(17)
    case (AUD, JPY) => Some(18) case (AUD, NZD) => Some(19) case (AUD, CAD) => Some(20)
    case (CAD, JPY) => Some(21) case (CHF, JPY) => Some(22) case (NZD, JPY) => Some(23)
    case (USD, SGD) => Some(24) case (USD, BRL) => Some(25) case (USD, MXN) => Some(26)
    case (USD, TRY) => Some(27) case (USD, ZAR) => Some(28) case (USD, HKD) => Some(29)
    case (USD, NOK) => Some(30) case (USD, SEK) => Some(31)
    case _ => None
  }

  /**
   * Market `m` spells its id as "BASE/QUOTE", sits at index `i` of the table as `MarketIndex`
   * says, and has no reverse market.
   */
  predicate IndexedAt(m: FXMarket, i: nat) {
    m.pair == IsoName(m.base) + "/" + IsoName(m.quote) &&
    MarketIndex(m.base, m.quote) == Some(i) &&
    MarketIndex(m.quote, m.base) == None
  }

  lemma MajorsAt(k: nat)
    requires k < |Majors|
    ensures IndexedAt(Majors[k], 0 + k)
  {
    if k == 0 {} else if k == 1 {} else if k == 2 {} else if k == 3 {} else if k == 4 {} else if k == 5 {} else {}
  }

  lemma EurCrossesAt(k: nat)
    requires k < |EurCrosses|
    ensures IndexedAt(EurCrosses[k], 7 + k)
  {
    if k == 0 {} else if k == 1 {} else if k == 2 {} else if k == 3 {} else if k == 4 {} else {}
  }

  lemma GbpCrossesAt(k: nat)
    requires k < |GbpCrosses|
    ensures IndexedAt(GbpCrosses[k], 13 + k)
  {
    if k == 0 {} else if k == 1 {} else if k == 2 {} else if k == 3 {} else {}
  }

  lemma OtherCrossesAt(k: nat)
    requires k < |OtherCrosses|
    ensures IndexedAt(OtherCrosses[k], 18 + k)
  {
    if k == 0 {} else if k == 1 {} else if k == 2 {} else if k == 3 {} else if k == 4 {} else {}
  }

  lemma ExoticsAt(k: nat)
    requires k < |Exotics|
    ensures IndexedAt(Exotics[k], 24 + k)
  {
    if k == 0 {} else if k == 1 {} else if k == 2 {} else if k == 3 {} else if k == 4 {} else if k == 5 {} else if k == 6 {} else {}
  }

  /** Every market of the table is indexed as `IndexedAt` says. */
  lemma TableAt(i: nat)
    requires i < |FxMarkets|
    ensures |FxMarkets| == 32 && IndexedAt(FxMarkets[i], i)
  {
    var a := Majors + EurCrosses;
    var b := a + GbpCrosses;
    var c := b + OtherCrosses;
    assert FxMarkets == c + Exotics;
    if i < 7 {
      assert FxMarkets[i] == Majors[i];
      MajorsAt(i);
    } else if i < 13 {
      assert FxMarkets[i] == EurCrosses[i - 7];
      EurCrossesAt(i - 7);
    } else if i < 18 {
      assert FxMarkets[i] == GbpCrosses[i - 13];
      GbpCrossesAt(i - 13);
    } else if i < 24 {
      assert FxMarkets[i] == OtherCrosses[i - 18];
      OtherCrossesAt(i - 18);
    } else {
      assert FxMarkets[i] == Exotics[i - 24];
      ExoticsAt(i - 24);
    }
  }

  /** Every market's id is its base, "/", and its quote. */
  lemma PairIdsSpellBaseQuote()
    ensures |FxMarkets| == 32
    ensures forall i :: 0 <= i < |FxMarkets| ==> FxMarkets[i].pair == IsoName(FxMarkets[i].base) + "/" + IsoName(FxMarkets[i].quote)
  {
    forall i | 0 <= i < |FxMarkets|
      ensures FxMarkets[i].pair == IsoName(FxMarkets[i].base) + "/" + IsoName(FxMarkets[i].quote)
    {
      TableAt(i);
    }
  }

  /** No two markets quote the same currencies, in the same or in the opposite direction. */
  lemma CurrencyPairsDistinct()
    ensures forall i, j :: 0 <= i < j < |FxMarkets| ==>
      (FxMarkets[i].base, FxMarkets[i].quote) != (FxMarkets[j].base, FxMarkets[j].quote)
    ensures forall i, j :: 0 <= i < |FxMarkets| && 0 <= j < |FxMarkets| ==>
      (FxMarkets[i].base, FxMarkets[i].quote) != (FxMarkets[j].quote, FxMarkets[j].base)
  {
    forall i, j | 0 <= i < |FxMarkets| && 0 <= j < |FxMarkets|
      ensures i != j ==> (FxMarkets[i].base, FxMarkets[i].quote) != (FxMarkets[j].base, FxMarkets[j].quote)
      ensures (FxMarkets[i].base, FxMarkets[i].quote) != (FxMarkets[j].quote, FxMarkets[j].base)
    {
      TableAt(i);
      TableAt(j);
    }
  }

  /** An id "BASE/QUOTE" determines its base and its quote. */
  lemma PairIdInjective(a: Iso, b: Iso, c: Iso, d: Iso)
    ensures IsoName(a) + "/" + IsoName(b) == IsoName(c) + "/" + IsoName(d) <==> a == c && b == d
  {
    var x, y := IsoName(a) + "/" + IsoName(b), IsoName(c) + "/" + IsoName(d);
    if x == y {
      assert x[..3] == IsoName(a) && y[..3] == IsoName(c);
      assert x[4..] == IsoName(b) && y[4..] == IsoName(d);
      IsoNameInjective(a, c);
      IsoNameInjective(b, d);
    }
  }

  /** Market ids are unique, and no market's id is another market's id reversed. */
  lemma PairIdsDistinct()
    ensures forall i, j :: 0 <= i < j < |FxMarkets| ==> FxMarkets[i].pair != FxMarkets[j].pair
    ensures forall i, j :: 0 <= i < |FxMarkets| && 0 <= j < |FxMarkets| ==>
      FxMarkets[i].pair != IsoName(FxMarkets[j].quote) + "/" + IsoName(FxMarkets[j].base)
  {
    PairIdsSpellBaseQuote();
    CurrencyPairsDistinct();
    forall i, j | 0 <= i < |FxMarkets| && 0 <= j < |FxMarkets|
      ensures i != j ==> FxMarkets[i].pair != FxMarkets[j].pair
      ensures FxMarkets[i].pair != IsoName(FxMarkets[j].quote) + "/" + IsoName(FxMarkets[j].base)
    {
      PairIdInjective(FxMarkets[i].base, FxMarkets[i].quote, FxMarkets[j].base, FxMarkets[j].quote);
      PairIdInjective(FxMarkets[i].base, FxMarkets[i].quote, FxMarkets[j].quote, FxMarkets[j].base);
    }
  }

  /** `Array.prototype.find` by market id. */
  function FindMarket(ms: seq<FXMarket>, pair: string): (r: Option<FXMarket>)
    ensures r.Some? <==> exists i :: 0 <= i < |ms| && ms[i].pair == pair
    ensures r.Some? ==> r.value.pair == pair && exists i :: 0 <= i < |ms| && ms[i] == r.value && forall k :: 0 <= k < i ==> ms[k].pair != pair
  {
    if ms == [] then None
    else if ms[0].pair == pair then Some(ms[0])
    else
      var r := FindMarket(ms[1..], pair);
      assert forall i :: 1 <= i < |ms| ==> ms[i] == ms[1..][i - 1];
      r
  }

  /** `getMarketByPair`. */
  function GetMarketByPair(pair: string): (r: Option<FXMarket>)
    ensures r.Some? <==> exists i :: 0 <= i < |FxMarkets| && FxMarkets[i].pair == pair
    ensures r.Some? ==> r.value.pair == pair && r.value in FxMarkets
  {
    FindMarket(FxMarkets, pair)
  }

  /** A market that can be traded on-chain. */
  predicate Tradeable(m: FXMarket) {
    m.solanaMapping.Some?
  }

  /** `getTradeableMarkets`: the markets with an on-chain mapping, in table order. */
  function GetTradeableMarkets(): (r: seq<FXMarket>)
    ensures forall m :: m in r <==> m in FxMarkets && Tradeable(m)
    ensures r == Filter(Tradeable, FxMarkets)
  {
    FilterMembers(Tradeable, FxMarkets);
    Filter(Tradeable, FxMarkets)
  }

  /** `getAllPairIds`: the market ids, one per market, in table order. */
  function GetAllPairIds(): (r: seq<string>)
    ensures |r| == |FxMarkets|
    ensures forall i :: 0 <= i < |r| ==> r[i] == FxMarkets[i].pair
  {
    seq(|FxMarkets|, i requires 0 <= i < |FxMarkets| => FxMarkets[i].pair)
  }

  /** Every listed id finds its own market: ids and markets correspond one to one. */
  lemma PairIdsRoundTrip(i: nat)
    requires i < |FxMarkets|
    ensures GetMarketByPair(GetAllPairIds()[i]) == Some(FxMarkets[i])
  {
    PairIdsDistinct();
  }

  /** The id of a market given the other way round finds nothing. */
  lemma ReversedPairIdUnknown(i: nat)
    requires i < |FxMarkets|
    ensures GetMarketByPair(IsoName(FxMarkets[i].quote) + "/" + IsoName(FxMarkets[i].base)).None?
  {
    PairIdsDistinct();
  }

  /** The ISO currency a registry currency code names. */
  function IsoOf(c: Tokens.CurrencyCode): (r: Iso)
    ensures IsoName(r) == Tokens.CodeName(c)
  {
    match c
    case USD => USD case EUR => EUR case JPY => JPY case GBP => GBP case CHF => CHF
    case BRL => BRL case TRY => TRY case MXN => MXN case ZAR => ZAR
    case NGN => NGN case IDR => IDR
  }
}
