/**
 * The link between `FX_MARKETS` and `TOKEN_REGISTRY`: every on-chain mapping names two registry
 * tokens whose currencies are the market's base and quote.
 */
module MarketTokens {
  import opened Wrappers
  import opened Markets
  import Tokens

  /**
   * `m`'s on-chain mapping, if it has one, names two registry tokens whose currencies are its
   * base and its quote, in either order.
   */
  predicate MappingMatches(m: FXMarket) {
    m.solanaMapping.Some? ==>
      var tokens := Tokens.GetTokensByPair(m.solanaMapping.value.inputToken, m.solanaMapping.value.outputToken);
      tokens.Some? &&
      var (a, b) := (IsoOf(tokens.value.0.currency), IsoOf(tokens.value.1.currency));
      (a, b) == (m.base, m.quote) || (a, b) == (m.quote, m.base)
  }

  /** `m` trades registry entries `i` and `j`, whose currencies are its base and quote. */
  predicate MappedTo(m: FXMarket, i: nat, j: nat) {
    i < |Tokens.Registry| && j < |Tokens.Registry| &&
    m.solanaMapping == Some(SolanaMapping(Tokens.Registry[i].key, Tokens.Registry[j].key)) &&
    var (a, b) := (IsoOf(Tokens.Registry[i].token.currency), IsoOf(Tokens.Registry[j].token.currency));
    (a, b) == (m.base, m.quote) || (a, b) == (m.quote, m.base)
  }

  lemma MappedToMatches(m: FXMarket, i: nat, j: nat)
    requires MappedTo(m, i, j)
    ensures MappingMatches(m)
  {
    Tokens.RegistryWellFormed();
    Tokens.LookupBySymbol(i);
    Tokens.LookupBySymbol(j);
  }

  lemma MajorsMapped(k: nat)
    requires k < |Majors|
    ensures MappingMatches(Majors[k])
  {
    if k == 0 { MappedToMatches(Majors[k], 0, 2); }
    else if k == 1 { MappedToMatches(Majors[k], 0, 3); }
    else if k == 2 { MappedToMatches(Majors[k], 24, 0); }
    else if k == 5 { MappedToMatches(Majors[k], 0, 25); }
  }

  lemma EurCrossesMapped(k: nat)
    requires k < |EurCrosses|
    ensures MappingMatches(EurCrosses[k])
  {
    if k == 0 { MappedToMatches(EurCrosses[k], 2, 3); }
    else if k == 1 { MappedToMatches(EurCrosses[k], 2, 24); }
    else if k == 2 { MappedToMatches(EurCrosses[k], 2, 25); }
  }

  lemma GbpCrossesMapped(k: nat)
    requires k < |GbpCrosses|
    ensures MappingMatches(GbpCrosses[k])
  {
    if k == 0 { MappedToMatches(GbpCrosses[k], 24, 3); }
    else if k == 4 { MappedToMatches(GbpCrosses[k], 24, 25); }
  }

  lemma ExoticsMapped(k: nat)
    requires k < |Exotics|
    ensures MappingMatches(Exotics[k])
  {
    if k == 1 { MappedToMatches(Exotics[k], 0, 26); }
    else if k == 2 { MappedToMatches(Exotics[k], 0, 28); }
    else if k == 3 { MappedToMatches(Exotics[k], 0, 27); }
    else if k == 4 { MappedToMatches(Exotics[k], 0, 31); }
  }

  /**
   * Every mapped market trades two registry tokens whose currencies are its base and its quote,
   * in either order.
   */
  lemma MappedMarketsMatchRegistry(i: nat)
    requires i < |FxMarkets|
    ensures MappingMatches(FxMarkets[i])
  {
    var a := Majors + EurCrosses;
    var b := a + GbpCrosses;
    var c := b + OtherCrosses;
    assert FxMarkets == c + Exotics;
    if i < 7 {
      assert FxMarkets[i] == Majors[i];
      MajorsMapped(i);
    } else if i < 13 {
      assert FxMarkets[i] == EurCrosses[i - 7];
      EurCrossesMapped(i - 7);
    } else if i < 18 {
      assert FxMarkets[i] == GbpCrosses[i - 13];
      GbpCrossesMapped(i - 13);
    } else if i < 24 {
      assert FxMarkets[i] == OtherCrosses[i - 18];
    } else {
      assert FxMarkets[i] == Exotics[i - 24];
      ExoticsMapped(i - 24);
    }
  }
}
