# spl-forex in Dafny

A model of the rate-comparison and arbitrage core of spl-forex, a Solana FX dashboard. The model
covers three parts:

- The SDK's spread classifier, the oracle price normaliser, the token registry and pair
  enumeration, the static and USD-hub currency routes, and the rate engine's DEX-versus-oracle
  comparison.
- The web app's arbitrage scan: its configuration, result mapping and de-duplication, filtering
  and sorting, and the depth (price-impact) analysis.
- The client-side data operations around them:
  - the tick-to-candle aggregator and the market-data provider's live state;
  - the market filter and sort;
  - the cross-rates matrix and the currency converter;
  - the pip-value and position-size calculators and the amount field they share;
  - the watchlist, the stablecoin preferences, the cluster helpers and the toast queue.

Rates are exact `real` numbers and amounts are unbounded integers. The Solana, Jupiter and Pyth
services, the clock, timers, randomness and browser storage appear as parameters of the
operations that use them. Objects the source updates in place are classes:

- `RouteTable` and `FXRateEngine`: the route cache;
- `OHLCAggregator`: the candle store;
- `MarketDataProvider`: the live prices, histories and connection status;
- `CurrencyConverter`: the converter's form state;
- `ToastProvider`: the toast list and its timers.

Everything else is functions and lemmas over values. The modules follow the source files, and
`Wrappers`, `Numbers`, `Seqs`, `Strings` and `Sorting` hold shared helpers: option and result
types, powers of ten, filtering, code-unit string order and case, and a stable insertion sort.

## Model

| member | source | states |
|---|---|---|
| Spread.CalculateSpread | packages/sdk/src/fx/spread.ts:3-26 | a zero oracle rate gives the all-zero par, favourable spread; otherwise the absolute difference, the percentage of the oracle rate, par exactly below 0.005 % either way, premium at or above it, discount at or below its negative, favourable exactly below 0.5 % |
| Spread.ParIsFavorable | packages/sdk/src/fx/spread.ts:12-24 | every par spread is favourable |
| Spread.IdenticalRates | packages/sdk/__tests__/spread.test.ts:5-9 | equal rates give a zero, par, favourable spread |
| Spread.PercentSign | packages/sdk/src/fx/spread.ts:8-18 | for a positive oracle rate the percentage is positive exactly when the DEX rate is higher and negative exactly when it is lower |
| Spread.ScaleInvariant | packages/sdk/src/fx/spread.ts:8-24 | scaling both rates by the same positive factor changes neither percentage, direction nor favourability |
| Spread.PremiumExample | packages/sdk/__tests__/spread.test.ts:11-15 | 1.09 against 1.08 is a premium of 25/27 percent, not favourable |
| Spread.DiscountExample | packages/sdk/__tests__/spread.test.ts:23-26 | 1.0795 against 1.08 is a favourable discount |
| PriceMath.NormalizePythPrice | packages/sdk/src/pyth/price-math.ts:3-14 | price and confidence are the mantissas scaled by ten to the exponent (multiplying back by ten to the negated exponent gives the mantissas); exponent and publish time carried over |
| PriceMath.NormalizeKeepsRatio | packages/sdk/src/pyth/price-math.ts:7-10 | normalisation keeps the sign of the price and the ratio of confidence to price |
| PriceMath.EurUsdExample | packages/sdk/__tests__/price-math.test.ts:5-18 | mantissa 108450000 with confidence 50000 at exponent -8 is 1.0845 with confidence 0.0005 |
| PriceMath.UnitExample | packages/sdk/__tests__/price-math.test.ts:34-45 | mantissa 100000 at exponent -5 is exactly 1 |
| Tokens.CodeNameInjective | packages/types/src/token.ts:1 | the eleven currency codes are spelled distinctly |
| Tokens.ParseCode | packages/types/src/token.ts:1 | a recognised spelling names the code spelled that way |
| Tokens.ParseCodeName | packages/types/src/token.ts:1 | every code's own spelling parses back to it |
| Tokens.Find | packages/sdk/src/tokens/registry.ts:311 | a lookup of a record key succeeds exactly when the key is present, returning a value stored under it |
| Tokens.FindUnique | packages/sdk/src/tokens/registry.ts:3-308 | with distinct keys, the lookup of an entry's key returns that entry's token |
| Tokens.GetTokenBySymbol | packages/sdk/src/tokens/registry.ts:310-312 | a token exactly when the symbol is a registry key, and then the token carries that symbol |
| Tokens.GetTokensByPair | packages/sdk/src/tokens/registry.ts:314-319 | both tokens exactly when both symbols are registered (null otherwise), with the requested symbols in order |
| Tokens.GetAllTokens | packages/sdk/src/tokens/registry.ts:321-323 | the registry's tokens, one per entry, in declaration order |
| Tokens.GetTokenType | packages/sdk/src/tokens/registry.ts:325-328 | the declared type, or "stablecoin" when none is declared |
| Tokens.IsStablecoinIff | packages/sdk/src/tokens/registry.ts:330-333 | a token is a plain stablecoin exactly when it declares no type or declares "stablecoin" |
| Tokens.KeyedByConcat | packages/sdk/src/tokens/registry.ts:40-308 | the registry's currency groups, each well formed, concatenate to a well-formed table |
| Tokens.RegistryKeysListed | packages/sdk/src/tokens/registry.ts:3-308 | 32 entries stored under the listed keys, each under its own symbol, with 2, 4, 6 or 9 decimals |
| Tokens.RegistryKeysDistinct | packages/sdk/src/tokens/registry.ts:3-308 | the 32 keys are pairwise distinct |
| Tokens.RegistryWellFormed | packages/sdk/src/tokens/registry.ts:3-308 | the registry has 32 distinct keys, each entry keyed by its own symbol, decimals among 2, 4, 6 and 9 |
| Tokens.NonStablecoins | packages/sdk/src/tokens/registry.ts:58-171 | exactly BUIDL, USDY, legacyUSD, sUSD, syrupUSDC and USDe are not plain stablecoins |
| Tokens.LookupBySymbol | packages/sdk/src/tokens/registry.ts:310-312 | every registry token is found by its own symbol |
| Pairs.RowPairs | packages/sdk/src/tokens/pairs.ts:8-15 | one inner loop's pairs all have the loop's input symbol and are at most as many as the outputs |
| Pairs.MakePair | packages/sdk/src/tokens/pairs.ts:10-14 | the record pushed for an input and an output: both symbols and the "INPUT/OUTPUT" currency label; characterised by `PairsOfMembers` and `TokensByPairAt` |
| Pairs.RowPairsMembers | packages/sdk/src/tokens/pairs.ts:8-15 | one inner loop pairs the input with exactly the outputs of another symbol |
| Pairs.PairsOfMembers | packages/sdk/src/tokens/pairs.ts:7-16 | the nested loops pair exactly every input with every token of another symbol |
| Pairs.PairsOf | packages/sdk/src/tokens/pairs.ts:7-16 | the pairs of the outer loop after some inputs; characterised by `PairsOfMembers`, `PairsOfLength` and `PairsOfDistinct` |
| Pairs.AllPairs | packages/sdk/src/tokens/pairs.ts:4-18 | `generatePairs` over a token list; the loops are proved equal to it by `GeneratePairs`, and `NoSelfPairsAndSymmetric` and `AllPairsLookup` characterise it |
| Pairs.GeneratePairs | packages/sdk/src/tokens/pairs.ts:4-18 | the nested loops build the enumeration of all ordered pairs of distinct symbols, input-major |
| Pairs.NoSelfPairsAndSymmetric | packages/sdk/src/tokens/pairs.ts:9 | no pair trades a token against itself, and every pair's reverse is generated too |
| Pairs.RowPairsLengthNoMatch | packages/sdk/src/tokens/pairs.ts:8-15 | against tokens of other symbols, one inner loop pushes a pair per token |
| Pairs.RowPairsLength | packages/sdk/src/tokens/pairs.ts:8-15 | against distinct tokens including the input, one inner loop skips exactly the input |
| Pairs.PairsOfLength | packages/sdk/src/tokens/pairs.ts:7-16 | n tokens of distinct symbols give n(n-1) pairs |
| Pairs.RowPairsDistinct | packages/sdk/src/tokens/pairs.ts:8-15 | one inner loop never repeats an ordered pair of symbols |
| Pairs.PairsOfDistinct | packages/sdk/src/tokens/pairs.ts:7-16 | the nested loops never repeat an ordered pair of symbols |
| Pairs.RegistrySymbolsDistinct | packages/sdk/src/tokens/pairs.ts:5 | the registry's token values have pairwise distinct symbols |
| Pairs.RegistryHasKey | packages/sdk/src/tokens/pairs.ts:5 | a symbol is a registry key exactly when some registry token carries it |
| Pairs.SupportedPairsShape | packages/sdk/src/tokens/pairs.ts:20 | the supported pairs are 992 = 32 × 31, none repeated and none a token against itself |
| Pairs.FindPair | packages/sdk/src/tokens/pairs.ts:23-25 | a pair is found exactly when one with those input and output symbols is listed, and the found pair is one |
| Pairs.AllPairsLookup | packages/sdk/src/tokens/pairs.ts:4-18 | a pair with two symbols is generated exactly when they differ and both are listed |
| Pairs.RegistryListed | packages/sdk/src/tokens/pairs.ts:5 | the registry keys are exactly the symbols of its token values |
| Pairs.TokensByPairAt | packages/sdk/src/tokens/registry.ts:314-319 | looking up two registry tokens by their symbols returns those two tokens |
| Pairs.SupportedPairTokens | packages/sdk/src/tokens/pairs.ts:10-14 | every supported pair is built from the registry tokens its two symbols name, label included |
| Pairs.GetPairForTokens | packages/sdk/src/tokens/pairs.ts:22-26 | a pair exactly when the symbols differ and both are registry keys, and then the pair built from those two tokens |
| Markets.IsoName | packages/sdk/src/fx/markets.ts:5-40 | every currency of the market table is spelled with three letters |
| Markets.IsoNameInjective | packages/sdk/src/fx/markets.ts:5-40 | distinct currencies are spelled differently |
| Markets.MajorsAt | packages/sdk/src/fx/markets.ts:5-11 | each major market's id spells "BASE/QUOTE", it sits at its table index, and no market quotes its reverse |
| Markets.EurCrossesAt | packages/sdk/src/fx/markets.ts:13-18 | the same for the EUR crosses, at indices 7 to 12 |
| Markets.GbpCrossesAt | packages/sdk/src/fx/markets.ts:20-24 | the same for the GBP crosses, at indices 13 to 17 |
| Markets.OtherCrossesAt | packages/sdk/src/fx/markets.ts:26-31 | the same for the AUD, CAD, CHF and NZD crosses, at indices 18 to 23 |
| Markets.ExoticsAt | packages/sdk/src/fx/markets.ts:33-40 | the same for the exotics, at indices 24 to 31 |
| Markets.TableAt | packages/sdk/src/fx/markets.ts:3-41 | the table holds 32 markets, each indexed as above |
| Markets.PairIdsSpellBaseQuote | packages/sdk/src/fx/markets.ts:3-41 | every market's id is its base, a slash, and its quote |
| Markets.CurrencyPairsDistinct | packages/sdk/src/fx/markets.ts:3-41 | no two markets quote the same two currencies, in the same or in the opposite direction |
| Markets.PairIdInjective | packages/types/src/fx.ts:1-36 | a "BASE/QUOTE" id determines its base and its quote |
| Markets.PairIdsDistinct | packages/sdk/src/fx/markets.ts:3-41 | market ids are unique, and no id is another market's id reversed |
| Markets.FindMarket | packages/sdk/src/fx/markets.ts:44 | a market exactly when one has that id, and then the first one with it |
| Markets.GetMarketByPair | packages/sdk/src/fx/markets.ts:43-45 | a market of the table exactly when one has that id, carrying that id |
| Markets.GetTradeableMarkets | packages/sdk/src/fx/markets.ts:47-49 | exactly the markets with an on-chain mapping, in table order (the order-preserving `Filter`) |
| Markets.Tradeable | packages/sdk/src/fx/markets.ts:48 | a market is tradeable when it has an on-chain mapping; used by `GetTradeableMarkets` |
| Markets.GetAllPairIds | packages/sdk/src/fx/markets.ts:51-53 | the ids of the markets, one per market, in table order |
| Markets.PairIdsRoundTrip | packages/sdk/src/fx/markets.ts:43-53 | looking up a listed id finds the market it came from |
| Markets.ReversedPairIdUnknown | packages/sdk/src/fx/markets.ts:43-45 | a market's id written the other way round finds nothing |
| Markets.IsoOf | packages/types/src/token.ts:1 | the market currency a token currency code names, spelled the same |
| MarketTokens.MappedToMatches | packages/sdk/src/fx/markets.ts:5-40 | a market that trades two registry entries whose currencies are its base and quote has a matching mapping |
| MarketTokens.MajorsMapped | packages/sdk/src/fx/markets.ts:5-11 | each major's on-chain mapping, if any, names two registry tokens of its base and quote currencies |
| MarketTokens.EurCrossesMapped | packages/sdk/src/fx/markets.ts:13-18 | the same for the EUR crosses |
| MarketTokens.GbpCrossesMapped | packages/sdk/src/fx/markets.ts:20-24 | the same for the GBP crosses |
| MarketTokens.ExoticsMapped | packages/sdk/src/fx/markets.ts:33-40 | the same for the exotics |
| MarketTokens.MappedMarketsMatchRegistry | packages/sdk/src/fx/markets.ts:3-41 | every mapped market trades two registry tokens whose currencies are its base and its quote, in either order |
| Routes.Feeds | packages/sdk/src/fx/rate-engine.ts:7-10 | a route reads at most two feeds, and none exactly when it is the identity |
| Routes.LegValue | packages/sdk/src/fx/rate-engine.ts:115-117 | a leg reads its feed's price, or one over it when inverted; `OracleRates.LegReciprocal` shows a leg and its inverse multiply to one |
| Routes.Compute | packages/sdk/src/fx/rate-engine.ts:14-83 | a route's `compute` on the positional readings of its feeds: one for the identity, one leg, or the product of two legs; `OracleRates.ComputeIsEvaluate` ties it to each leg's own feed |
| Routes.BuildDynamicRoute | packages/sdk/src/fx/rate-engine.ts:98-121 | a route through USD exactly when neither side is USD and both have a USD feed (NGN and IDR have none) |
| Routes.ResolveRoute | packages/sdk/src/fx/rate-engine.ts:123-137 | the identity for a currency against itself; otherwise the static route, else the dynamic one, else the "no route" error naming the pair |
| Routes.RouteExistsIff | packages/sdk/src/fx/rate-engine.ts:123-137 | the engine fails exactly between two distinct currencies one of which is NGN or IDR |
| Routes.StaticRoutesConnect | packages/sdk/src/fx/rate-engine.ts:14-83 | every static route's legs chain from its source currency to its target currency |
| Routes.DynamicRoutesConnect | packages/sdk/src/fx/rate-engine.ts:98-121 | every dynamic route's legs chain from its source to its target through USD |
| Routes.ResolvedRoutesConnect | packages/sdk/src/fx/rate-engine.ts:123-137 | every route the engine resolves chains from its source to its target |
| Routes.StaticRoutesReverse | packages/sdk/src/fx/rate-engine.ts:14-83 | the static table lists each pair with its reverse, reading the same feeds in the opposite direction |
| Routes.DynamicRoutesReverse | packages/sdk/src/fx/rate-engine.ts:98-121 | a dynamic route exists exactly when the reverse one does, and reads the same feeds in the opposite direction |
| Routes.ResolvedRoutesReverse | packages/sdk/src/fx/rate-engine.ts:123-137 | a route resolves exactly when its reverse does, and the two read the same feeds in opposite directions |
| Routes.UsdRoutes | packages/sdk/src/fx/rate-engine.ts:28-58 | a currency with a USD feed converts to and from USD through that single feed, in the two directions |
| Routes.ProductRouteLegs | packages/sdk/src/fx/rate-engine.ts:60-76 | every two-feed route is "FROM in USD" times "USD in TO", in some order, between two currencies other than USD with USD feeds |
| OracleRates.Readings | packages/sdk/src/fx/rate-engine.ts:209 | one reading per feed, the snapshot's price of that feed, in the order of the feeds |
| OracleRates.ComputeIsEvaluate | packages/sdk/src/fx/rate-engine.ts:105-120 | a route's feeds are all answered exactly when each of its legs is priced, and `compute` over the positional readings (a repeated feed read once) applies each leg to its own feed |
| OracleRates.Evaluate | packages/sdk/src/fx/rate-engine.ts:177 | the route's rate on a price snapshot, each leg on its own feed; characterised by `ComputeIsEvaluate`, `EvaluateProduct` and `ReverseRoutesReciprocal` |
| OracleRates.OracleRate | packages/sdk/src/fx/rate-engine.ts:206-211 | 1 for a currency against itself; an error exactly when no route resolves (the "no route" error) or a feed goes unanswered (a provider failure) |
| OracleRates.OracleRateOfRoute | packages/sdk/src/fx/rate-engine.ts:206-211 | given the resolved route, a rate exactly when its feeds are priced, the route's value on them |
| OracleRates.OracleRateSteps | packages/sdk/src/fx/rate-engine.ts:206-211 | the rate is computed as the source does: the route's error, 1 for a route without feeds, a failure for an unanswered feed, else `compute` over the readings |
| OracleRates.LegReciprocal | packages/sdk/src/fx/rate-engine.ts:29-30 | the direct and the inverted reading of one nonzero price multiply to one |
| OracleRates.ReverseRoutesReciprocal | packages/sdk/src/fx/rate-engine.ts:14-83 | two reverse routes, on any snapshot pricing one, are both priced and yield rates whose product is one |
| OracleRates.OracleRatesReciprocal | packages/sdk/src/fx/rate-engine.ts:123-137 | whenever FROM to TO has an oracle rate, so does TO to FROM, and the two multiply to exactly one |
| OracleRates.UsdOracleRates | packages/sdk/src/fx/rate-engine.ts:28-58 | a currency's rates against USD, both ways, exist exactly when its USD feed is priced, and read that feed |
| OracleRates.EvaluateProduct | packages/sdk/src/fx/rate-engine.ts:60-76 | a two-feed route's rate is the product of its legs' rates, in either order |
| OracleRates.ProductOracleRate | packages/sdk/src/fx/rate-engine.ts:98-121 | a two-feed route's rate is "FROM in USD" times "USD in TO" |
| OracleRates.CrossRatesChainThroughUsd | packages/sdk/src/fx/rate-engine.ts:12-13 | a cross rate through two feeds is the FROM to USD oracle rate times the USD to TO oracle rate on the same snapshot, both of which exist |
| OracleRates.LegInMarket | packages/sdk/src/fx/rate-engine.ts:12 | a leg applied to a price consistent with a market converts its source currency to its target at the market rate |
| OracleRates.EvaluateInMarket | packages/sdk/src/fx/rate-engine.ts:12-13 | on a market-consistent snapshot, a route connecting FROM to TO evaluates to the market rate FROM to TO |
| OracleRates.OracleRateInMarket | packages/sdk/src/fx/rate-engine.ts:12-13 | on a snapshot priced by a consistent market, every oracle rate the engine returns is "how many TO per 1 FROM" in that market |
| RateEngine.AmountRaw | packages/sdk/src/fx/rate-engine.ts:157 | the largest whole number of base units not above the amount scaled by ten to the decimals |
| RateEngine.PlanComparison | packages/sdk/src/fx/rate-engine.ts:151-158 | the "unknown token" error when either symbol is unregistered; otherwise both tokens, the floored raw amount, the taker and the resolved route, or the route's error |
| RateEngine.RelativeConfidenceNonNegative | packages/sdk/src/fx/rate-engine.ts:180 | over positive prices with non-negative confidences the summed relative confidence is non-negative |
| RateEngine.RelativeConfidence | packages/sdk/src/fx/rate-engine.ts:180 | the summed confidence-to-price ratios of the readings; `RelativeConfidenceNonNegative` bounds it below by zero |
| RateEngine.Human | packages/sdk/src/fx/rate-engine.ts:172-173 | the raw amount divided by ten to the decimals: scaling back gives the raw amount, and a nonzero amount stays nonzero |
| RateEngine.DexRate | packages/sdk/src/fx/rate-engine.ts:172-174 | the rate times the input in whole tokens is the output in whole tokens |
| RateEngine.OracleConfidence | packages/sdk/src/fx/rate-engine.ts:178-181 | zero without readings; otherwise the summed confidence-to-price ratios times the oracle rate |
| RateEngine.OracleConfidenceNonNegative | packages/sdk/src/fx/rate-engine.ts:178-181 | over positive prices with non-negative confidences and a non-negative oracle rate, the oracle confidence is never negative |
| RateEngine.Assemble | packages/sdk/src/fx/rate-engine.ts:171-203 | the result record: DEX rate, output amount, the route's computed oracle rate, the spread of the two, the confidence, the echoed inputs, and order data exactly when a taker is given, with an empty transaction for a missing one |
| RateEngine.Comparison | packages/sdk/src/fx/rate-engine.ts:145-204 | the planning error when planning fails; otherwise a result exactly when the DEX order arrives and every feed of the route is answered, else a provider failure |
| RateEngine.SameCurrencyPeg | packages/sdk/__tests__/rate-engine.test.ts:50-64 | two tokens of one currency compare against an oracle rate of exactly 1 with zero confidence, whatever the oracle holds |
| RateEngine.ComparisonUsesOracleRate | packages/sdk/src/fx/rate-engine.ts:177 | a comparison's oracle rate is the engine's oracle rate between the two tokens' currencies |
| RateEngine.AllCodesComplete | packages/types/src/token.ts:1 | the list of currency codes holds every code |
| RateEngine.RouteTable.constructor | packages/sdk/src/fx/rate-engine.ts:14-83 | the table starts with exactly the routes written out, and every entry is the route the engine resolves for its key |
| RateEngine.RouteTable.GetCurrencyRoute | packages/sdk/src/fx/rate-engine.ts:123-137 | returns the resolved route or the "no route" error, and the table gains exactly that route under its key (unchanged on error), keeping every entry correct |
| RateEngine.FXRateEngine.constructor | packages/sdk/src/fx/rate-engine.ts:139-143 | an engine over a correct route table |
| RateEngine.FXRateEngine.GetComparison | packages/sdk/src/fx/rate-engine.ts:145-204 | the result is the comparison above; the table gains the pair's route when planning succeeds and is unchanged otherwise |
| RateEngine.FXRateEngine.GetOracleRate | packages/sdk/src/fx/rate-engine.ts:206-211 | the result is the oracle rate above; the table gains the resolved route, if any |
| ArbitrageConfig.DepthAmountsIncreasing | apps/web/src/config/arbitrage.ts:22-27 | six positive depth amounts in strictly increasing order, the reference amount 1000 among them |
| ArbitrageConfig.PrimarySet | apps/web/src/config/arbitrage.ts:45 | exactly the primary symbols |
| ArbitrageConfig.ToMapDomain | apps/web/src/config/arbitrage.ts:48-51 | the reverse lookup knows exactly the listed currencies, each mapped to a primary symbol |
| ArbitrageConfig.ToMap | apps/web/src/config/arbitrage.ts:48-51 | the reverse lookup currency to primary, later entries overwriting earlier ones; characterised by `ToMapDomain` and `ToMapListed`, and built by `BuildCurrencyToPrimary` |
| ArbitrageConfig.ToMapListed | apps/web/src/config/arbitrage.ts:48-51 | with distinct currencies the lookup returns the symbol listed with each currency |
| ArbitrageConfig.BuildCurrencyToPrimary | apps/web/src/config/arbitrage.ts:48-51 | the loop builds the reverse lookup, later entries overwriting earlier ones |
| ArbitrageConfig.GeneratePegPairs | apps/web/src/config/arbitrage.ts:53-67 | the loop pushes, per entry it keeps and in registry order, the pair to its primary and the pair back |
| ArbitrageConfig.PrimaryFor | apps/web/src/config/arbitrage.ts:54-62 | the primary an entry is paired with, unless it is itself a primary, is not a plain stablecoin, or its currency has no primary; characterised by `KeptEntryPrimary`, `KeptEntryNotUsde`, `KeptEntryHasPrimaryCurrency` and `KeptEntryNotExcluded` |
| ArbitrageConfig.PegPairs | apps/web/src/config/arbitrage.ts:53-67 | the pairs of the loop, in registry order; characterised by `PegPairsCouples`, `PegPairsComplete` and `PegPairMembers`, and built by `GeneratePegPairs` |
| ArbitrageConfig.GenerateArbitragePairs | apps/web/src/config/arbitrage.ts:42-70 | the pairs generated from the registry and the primary tokens |
| ArbitrageConfig.PegPairsCouples | apps/web/src/config/arbitrage.ts:64-66 | the pairs come in consecutive couples, entry to primary then primary to entry, each from a kept entry |
| ArbitrageConfig.PegPairsComplete | apps/web/src/config/arbitrage.ts:53-67 | every kept entry yields both directions of its pair |
| ArbitrageConfig.PegPairMembers | apps/web/src/config/arbitrage.ts:53-67 | every generated pair joins a kept entry with that entry's primary, in one direction |
| ArbitrageConfig.ExactlyOnePrimarySide | apps/web/src/config/arbitrage.ts:54 | every generated pair has exactly one primary side, so never pairs a token with itself |
| ArbitrageConfig.PrimaryCurrenciesDistinct | apps/web/src/config/arbitrage.ts:9-19 | no currency is listed twice among the primaries |
| ArbitrageConfig.PrimaryRegistered | apps/web/src/config/arbitrage.ts:9-19 | each primary symbol is a registry token of the currency it is listed under |
| ArbitrageConfig.KeptEntryPrimary | apps/web/src/config/arbitrage.ts:61-62 | a kept entry and its primary are registry tokens of the same currency |
| ArbitrageConfig.ArbitragePairsArePegPairs | apps/web/src/config/arbitrage.ts:34-41 | every monitored pair joins two registry tokens of one currency, exactly one of them primary and the other a plain stablecoin |
| ArbitrageConfig.PrimarySymbolsNotExcluded | apps/web/src/config/arbitrage.ts:9-19 | USDe, NGNC and IDRX are not primaries |
| ArbitrageConfig.KeptEntryNotUsde | apps/web/src/config/arbitrage.ts:56-59 | the synthetic USDe is never kept |
| ArbitrageConfig.KeptEntryHasPrimaryCurrency | apps/web/src/config/arbitrage.ts:61-62 | NGNC and IDRX, whose currencies have no primary, are never kept |
| ArbitrageConfig.KeptEntryNotExcluded | apps/web/src/config/arbitrage.ts:53-62 | neither a kept entry nor its primary is USDe, NGNC or IDRX |
| ArbitrageConfig.ExcludedTokensNeverPaired | apps/web/src/config/arbitrage.ts:53-67 | USDe, NGNC and IDRX appear in no monitored pair, in either position |
| ArbitrageScan.ScanParams | apps/web/src/hooks/useArbitrageData.ts:24-28 | the scan compares the pair's two tokens at the reference amount, without a taker |
| ArbitrageScan.QueryData | apps/web/src/hooks/useArbitrageData.ts:23-33 | a comparison that raises yields null; one that succeeds is passed on unchanged |
| ArbitrageScan.IsPegArb | apps/web/src/hooks/useArbitrageData.ts:48-51 | a pair is a peg arbitrage exactly when both symbols are registered and their tokens share a currency |
| ArbitrageScan.ToOpportunity | apps/web/src/hooks/useArbitrageData.ts:44-80 | without data, a zeroed, par, unfavourable record without liquidity for the pair; with data, its tokens, rates, spread and output, liquidity, and "favorable" exactly for a premium |
| ArbitrageScan.Opportunities | apps/web/src/hooks/useArbitrageData.ts:43-81 | one record per pair, each built from that pair's own query result |
| ArbitrageScan.ScanOfComparisons | apps/web/src/hooks/useArbitrageData.ts:16-81 | scanning with the engine's comparisons, each record keeps its pair's tokens, has liquidity exactly when the comparison succeeded, and then carries the spread of its own two rates and the oracle rate of the two currencies |
| ArbitrageScan.ScannedPairsArePeg | apps/web/src/hooks/useArbitrageData.ts:10 | every record of the scan over the monitored pairs is a peg arbitrage, whatever its outcome |
| ArbitrageScan.FavorableMeansPremium | apps/web/src/hooks/useArbitrageData.ts:76 | "favorable" in a record means a premium: equal rates are favourable to the spread classifier but not in the record |
| BestPerKey.Group | apps/web/src/components/markets/ArbitragePanel.tsx:42-57 | the grouping loop after any prefix: the keys in first-seen order, each with the index of its stored element |
| BestPerKey.Picked | apps/web/src/components/markets/ArbitragePanel.tsx:59 | one value per key of the map |
| BestPerKey.GroupSound | apps/web/src/components/markets/ArbitragePanel.tsx:44-57 | every kept element's key is in the map, and the map holds only kept elements under their own key |
| BestPerKey.GroupBest | apps/web/src/components/markets/ArbitragePanel.tsx:53-56 | each key holds the largest of its kept elements, the earliest one on ties |
| BestPerKey.GroupOrder | apps/web/src/components/markets/ArbitragePanel.tsx:42-59 | the keys are in the order of their first kept element |
| BestPerKey.PickedBest | apps/web/src/components/markets/ArbitragePanel.tsx:42-59 | the values are kept elements with pairwise distinct keys, each at least as large as every kept element of its key, and every kept element's key is present |
| BestPerKey.PickedOrder | apps/web/src/components/markets/ArbitragePanel.tsx:59 | the values come in the order of the first kept element of their key |
| ArbitragePanel.PairKey | apps/web/src/components/markets/ArbitragePanel.tsx:50 | the two symbols joined by ":", in one order or the other |
| ArbitragePanel.PairKeySymmetric | apps/web/src/components/markets/ArbitragePanel.tsx:50 | both directions of a pair share one key |
| ArbitragePanel.Dedupe | apps/web/src/components/markets/ArbitragePanel.tsx:41-60 | the loop over the records computes the deduplicated list |
| ArbitragePanel.Deduped | apps/web/src/components/markets/ArbitragePanel.tsx:41-60 | the values of the pair map after the loop; characterised by `DedupedProperties`, `DedupedKeepsEarliestBest` and `DedupedOrder` |
| ArbitragePanel.DedupedProperties | apps/web/src/components/markets/ArbitragePanel.tsx:37-60 | only liquid, plausible (spread of at most 50 %), peg records are shown, one per unordered pair, each at least as far from par as every such record of its pair, and every pair that has one is shown |
| ArbitragePanel.DedupedKeepsEarliestBest | apps/web/src/components/markets/ArbitragePanel.tsx:53-56 | the record kept for a pair is the earliest of its plausible records with the largest absolute spread |
| ArbitragePanel.DedupedOrder | apps/web/src/components/markets/ArbitragePanel.tsx:59 | the pairs appear in the order of their first plausible record |
| ArbitragePanel.PegCurrency | apps/web/src/components/markets/ArbitragePanel.tsx:326-328 | "OTHER" exactly for an unknown input symbol, otherwise the spelling of its registry currency |
| ArbitragePanel.AvailableCurrencies | apps/web/src/components/markets/ArbitragePanel.tsx:63-71 | exactly the peg currencies of the shown records, strictly increasing in code-unit order |
| ArbitragePanel.SortedNames | apps/web/src/components/markets/ArbitragePanel.tsx:70 | sorting distinct strings keeps the same members, strictly increasing |
| ArbitragePanel.LexLeTotalPreorder | apps/web/src/components/markets/ArbitragePanel.tsx:70 | the code-unit order used by the sort is a total preorder |
| ArbitragePanel.Filtered | apps/web/src/components/markets/ArbitragePanel.tsx:74-77 | "all" shows every record; a currency only records pegged to it |
| ArbitragePanel.FilteredMembers | apps/web/src/components/markets/ArbitragePanel.tsx:76 | a currency filter keeps exactly the records of that currency |
| ArbitragePanel.Sorted | apps/web/src/components/markets/ArbitragePanel.tsx:80-100 | the sorted rows are a permutation of the filtered rows |
| ArbitragePanel.Compare | apps/web/src/components/markets/ArbitragePanel.tsx:83-96 | the column comparator before `sortAsc` negates it; characterised by `PairOrder`, `OrderTotalPreorder` and the `SortedBy…` lemmas |
| ArbitragePanel.PairOrder | apps/web/src/components/markets/ArbitragePanel.tsx:88-97 | the "pair" column puts one record before another exactly when the concatenated symbols are in code-unit order, reversed when ascending |
| ArbitragePanel.OrderTotalPreorder | apps/web/src/components/markets/ArbitragePanel.tsx:82-98 | every column's comparator, in both directions, is a total preorder, so the sort is well defined |
| ArbitragePanel.SortedBySpread | apps/web/src/components/markets/ArbitragePanel.tsx:85-87 | the "spread" column puts the largest absolute spread first, or last when ascending |
| ArbitragePanel.SortedByPair | apps/web/src/components/markets/ArbitragePanel.tsx:88-92 | the "pair" column orders by concatenated symbols, reversed when ascending |
| ArbitragePanel.SortedByDexRate | apps/web/src/components/markets/ArbitragePanel.tsx:93-95 | the "dexRate" column puts the highest rate first, or last when ascending |
| ArbitragePanel.Rows | apps/web/src/components/markets/ArbitragePanel.tsx:41-100 | the rows on screen are a permutation of the filtered, deduplicated records |
| ArbitragePanel.RowsPlausible | apps/web/src/components/markets/ArbitragePanel.tsx:37-77 | every row on screen is plausible and a peg arbitrage, and of the selected currency unless "all" |
| ArbitragePanel.HandleSort | apps/web/src/components/markets/ArbitragePanel.tsx:102-109 | the clicked column becomes the sort key; it sorts ascending exactly when it was already the key and was descending |
| ArbitragePanel.HandleSortTwice | apps/web/src/components/markets/ArbitragePanel.tsx:102-109 | clicking the current column twice restores the state |
| ArbitragePanel.HandleInlineSwap | apps/web/src/components/markets/ArbitragePanel.tsx:25-35 | clicking the open pair closes it, any other pair opens that pair; nothing else changes |
| ArbitragePanel.HandleInlineSwapTwice | apps/web/src/components/markets/ArbitragePanel.tsx:25-35 | two clicks on one pair restore the state exactly when nothing or that pair was open |
| Depth.PriceImpact | apps/web/src/hooks/useDepthAnalysis.ts:59 | for a nonzero best rate, a finite non-negative impact, zero exactly when the level is not worse (positive best rate), otherwise the relative shortfall in percent; for a zero best rate, NaN for a zero level rate, +Infinity for a negative one, and 0 for a positive one |
| Depth.SuccessIndices | apps/web/src/hooks/useDepthAnalysis.ts:49-51 | the indices of exactly the queries that returned a comparison, increasing |
| Depth.ValidResults | apps/web/src/hooks/useDepthAnalysis.ts:49-51 | the successful comparisons in query order, each with the notional it was requested for |
| Depth.Level | apps/web/src/hooks/useDepthAnalysis.ts:58-70 | a level carries its notional, the comparison's fields, and the impact against the best rate |
| Depth.AnalysisDefined | apps/web/src/hooks/useDepthAnalysis.ts:43-53 | an analysis exists exactly when every query has settled and at least one returned a comparison |
| Depth.Analysis | apps/web/src/hooks/useDepthAnalysis.ts:43-80 | the `analysis` value; characterised by `AnalysisDefined`, `AnalysisLevels`, `FirstLevelImpact` and `LevelsIncreasing` |
| Depth.AnalysisLevels | apps/web/src/hooks/useDepthAnalysis.ts:55-79 | one level per successful comparison in notional order; best and oracle rate from the first of them; the tokens and the clock's time carried over |
| Depth.FirstLevelImpact | apps/web/src/hooks/useDepthAnalysis.ts:55-59 | the first level has no impact for a nonzero best rate, and NaN (zero over zero) for a zero one |
| Depth.LevelsIncreasing | apps/web/src/config/arbitrage.ts:25-27 | over the depth amounts the levels have strictly increasing notionals |
| Ohlc.Seconds | apps/web/src/lib/ohlc.ts:19-24 | each timeframe lasts 60, 300, 900 or 3600 seconds |
| Ohlc.Position | apps/web/src/lib/ohlc.ts:40 | every timeframe has a place in the iteration order of the timeframes |
| Ohlc.AllTimeframes | apps/web/src/lib/ohlc.ts:17-24 | the iteration order lists every timeframe |
| Ohlc.BucketStart | apps/web/src/lib/ohlc.ts:45-46 | the bucket start is at or before the timestamp, less than one interval before it |
| Ohlc.BucketStartFormula | apps/web/src/lib/ohlc.ts:46 | the bucket start is the floored quotient of the timestamp by the interval, times the interval |
| Ohlc.BucketStartIdempotent | apps/web/src/lib/ohlc.ts:46 | a bucket start lies in its own bucket, so candle times are aligned to the interval |
| Ohlc.BucketStartMonotone | apps/web/src/lib/ohlc.ts:46 | a later timestamp never falls into an earlier bucket |
| Ohlc.AddToSeries | apps/web/src/lib/ohlc.ts:48-68 | one series' step ends with the tick's bucket closed at the tick's price and keeps a series bounded by 200, well formed (low ≤ open, close ≤ high) and aligned |
| Ohlc.SameBucketUpdates | apps/web/src/lib/ohlc.ts:50-54 | a tick in the last candle's bucket keeps its time, open and the series' length, widens high and low to the price, and closes at the price |
| Ohlc.NewBucketAppends | apps/web/src/lib/ohlc.ts:55-68 | a tick in another bucket appends a flat candle at the price, dropping the oldest one beyond 200 |
| Ohlc.AddKeepsIncreasing | apps/web/src/lib/ohlc.ts:48-68 | a tick no earlier than the last candle's bucket keeps the candle times strictly increasing |
| Ohlc.EarlierTickAppended | apps/web/src/lib/ohlc.ts:50-63 | a tick for an earlier bucket is appended after a later candle, so the series is no longer in time order |
| Ohlc.OneBucketOneCandle | apps/web/src/lib/ohlc.ts:48-68 | ticks all in one bucket build one candle on an empty series: opened by the first price, closed by the last, spanning the highest and lowest |
| Ohlc.AddAllLast | apps/web/src/lib/ohlc.ts:48-68 | after at least one tick the last candle is the last tick's bucket |
| Ohlc.OrderedTicksIncreasing | apps/web/src/lib/ohlc.ts:48-68 | ticks with non-decreasing timestamps build strictly increasing candle times |
| Ohlc.TickSeries | apps/web/src/lib/ohlc.ts:44-68 | one timeframe's loop body computes that series' step |
| Ohlc.SeriesOf | apps/web/src/lib/ohlc.ts:41-44 | a timeframe's series, empty when the pair has none yet |
| Ohlc.Ticked | apps/web/src/lib/ohlc.ts:40-69 | after a tick every timeframe is present and its series has taken the tick |
| Ohlc.TickPair | apps/web/src/lib/ohlc.ts:40-69 | the loop over the timeframes computes the ticked map |
| Ohlc.TickedUnique | apps/web/src/lib/ohlc.ts:40-69 | the ticked map is the only map with every timeframe's series ticked |
| Ohlc.PairCandles | apps/web/src/lib/ohlc.ts:35-38 | a pair's map, empty for an unseen pair |
| Ohlc.OHLCAggregator.constructor | apps/web/src/lib/ohlc.ts:29 | the aggregator starts with no pair |
| Ohlc.OHLCAggregator.GetCandles | apps/web/src/lib/ohlc.ts:75-77 | the empty series for an unseen pair or timeframe; every series returned is bounded, well formed and aligned |
| Ohlc.OHLCAggregator.AddTick | apps/web/src/lib/ohlc.ts:34-70 | exactly the tick's pair changes, to its ticked map, and every series stays bounded, well formed and aligned |
| Ohlc.OHLCAggregator.HasData | apps/web/src/lib/ohlc.ts:82-89 | true exactly when some timeframe's series of the pair holds a candle |
| MarketData.TickStatus | apps/web/src/components/providers/MarketDataProvider.tsx:95-107 | the first tick ever makes the status "live"; afterwards a tick turns "stale" into "live" and leaves every other status |
| MarketData.Latch | apps/web/src/components/providers/MarketDataProvider.tsx:112-115 | a tick sets the pair's session-start price only while it is absent or zero; other pairs are untouched |
| MarketData.LatchStable | apps/web/src/components/providers/MarketDataProvider.tsx:113-115 | once a nonzero price is latched, later ticks leave the session-start prices as they are |
| MarketData.PushHistory | apps/web/src/components/providers/MarketDataProvider.tsx:121-126 | the new point is last, and a history within its cap of 200 stays within it |
| MarketData.PushHistoryKeepsRecent | apps/web/src/components/providers/MarketDataProvider.tsx:121-126 | the history keeps the newest points, at most 200, oldest first |
| MarketData.Change24h | apps/web/src/components/providers/MarketDataProvider.tsx:202-206 | a change only with a price and a nonzero session-start price, more than 0.0001 percent from zero, and then the percentage by which the price moved; none when the move is within that margin |
| MarketData.Lookup | apps/web/src/components/providers/MarketDataProvider.tsx:202-203 | a record lookup: a value exactly for a present key |
| MarketData.Row | apps/web/src/components/providers/MarketDataProvider.tsx:201-217 | a market's row: its price's rate, confidence and publish time, or zeros and no change without a price; its session-start price; its change; tradeable exactly when it has a token mapping |
| MarketData.Rows | apps/web/src/components/providers/MarketDataProvider.tsx:201-217 | one row per market of the table, in table order |
| MarketData.SeedEntries | apps/web/src/components/providers/MarketDataProvider.tsx:143-148 | the loop over the fetched pairs sets each fetched pair's session-start price and one-point history, and keeps every other pair's |
| MarketData.MarketDataProvider.constructor | apps/web/src/components/providers/MarketDataProvider.tsx:65-78 | the initial state: no prices, nothing pending, "connecting", no update, no histories, an empty candle store |
| MarketData.MarketDataProvider.HistoryOf | apps/web/src/components/providers/MarketDataProvider.tsx:121 | a pair's accumulated history, empty when it has none |
| MarketData.MarketDataProvider.MarketRows | apps/web/src/components/providers/MarketDataProvider.tsx:201-217 | the market rows of the flushed prices and the session-start prices |
| MarketData.MarketDataProvider.Connected | apps/web/src/components/providers/MarketDataProvider.tsx:56 | connected exactly when the status is "live" |
| MarketData.MarketDataProvider.HandlePriceUpdate | apps/web/src/components/providers/MarketDataProvider.tsx:92-134 | a tick steps the status, turns a pending stale warning into one reconnection notice, records the time, buffers the price, latches the session start, feeds the candle store and appends to the history; flushed prices are untouched |
| MarketData.MarketDataProvider.StepStatus | apps/web/src/components/providers/MarketDataProvider.tsx:95-107 | the status half of a tick: status stepped, first message seen, not stale, time recorded, a reconnection notice exactly when it was stale |
| MarketData.MarketDataProvider.BufferTick | apps/web/src/components/providers/MarketDataProvider.tsx:109-126 | the price half of a tick: buffered, latched, appended to the history, which stays within its cap |
| MarketData.MarketDataProvider.FlushPrices | apps/web/src/components/providers/MarketDataProvider.tsx:80-90 | an empty buffer changes nothing; otherwise the buffered prices overwrite the prices and the update time is now; the buffer is emptied |
| MarketData.MarketDataProvider.Watchdog | apps/web/src/components/providers/MarketDataProvider.tsx:177-198 | when more than 10 s have passed since a first update the status becomes "stale", and the warning and the reconnection flag are raised only on the transition into it |
| MarketData.MarketDataProvider.InitialFetch | apps/web/src/components/providers/MarketDataProvider.tsx:137-154 | the fetched rates replace the prices; each fetched pair's session start and history are reset to its one price, the rest kept; the history is published and the update time is now |
| MarketData.MarketDataProvider.SyncHistory | apps/web/src/components/providers/MarketDataProvider.tsx:161-164 | the published history becomes the accumulated one; every other field keeps its value |
| MarketData.MarketDataProvider.Close | apps/web/src/components/providers/MarketDataProvider.tsx:166-168 | unsubscribing marks the connection "offline"; every other field keeps its value |
| MarketData.TickAfterStale | apps/web/src/components/providers/MarketDataProvider.tsx:107 | a stale feed that ticks again is live, and no tick leaves the status stale |
| CrossRates.Negated | apps/web/src/components/markets/CrossRatesMatrix.tsx:38 | the inverse entry's change is the opposite percentage, or unknown when the row's is |
| CrossRates.Entry | apps/web/src/components/markets/CrossRatesMatrix.tsx:34-39 | every rate a row stores is positive |
| CrossRates.Store | apps/web/src/components/markets/CrossRatesMatrix.tsx:32-39 | one pass of the loop: the keys a row touches (its pair and the reversed pair, for a positive rate) get its entries, the reversed one written last; every other key is kept |
| CrossRates.RateLookup | apps/web/src/components/markets/CrossRatesMatrix.tsx:26-42 | every rate in the lookup is positive |
| CrossRates.BuildRateLookup | apps/web/src/components/markets/CrossRatesMatrix.tsx:26-42 | the loop over the market rows builds the lookup |
| CrossRates.LookupIsLastTouch | apps/web/src/components/markets/CrossRatesMatrix.tsx:31-40 | a key is stored exactly when some row with a positive rate has that pair or its reverse, and it holds what the last such row wrote |
| CrossRates.EntriesInverse | apps/web/src/components/markets/CrossRatesMatrix.tsx:34-39 | the two entries a row writes have inverse rates and opposite changes |
| CrossRates.StoreReciprocal | apps/web/src/components/markets/CrossRatesMatrix.tsx:34-39 | storing a row keeps every stored key's reverse stored with the inverse quote |
| CrossRates.LookupReciprocal | apps/web/src/components/markets/CrossRatesMatrix.tsx:22-42 | the lookup of any rows is reciprocal: each stored pair's reverse holds the inverse rate and the opposite change |
| CrossRates.CrossVia | apps/web/src/components/markets/CrossRatesMatrix.tsx:48-70 | nothing on the diagonal; the direct entry when there is one; otherwise the product of the two legs through USD with an unknown change; otherwise nothing |
| CrossRates.GetCrossRate | apps/web/src/components/markets/CrossRatesMatrix.tsx:59-61 | `getCrossRate`, crossing through USD: `CrossVia` with USD as the hub, whose ensures state the cases; `CrossRateReciprocal` makes the matrix reciprocal |
| CrossRates.CrossRateInverse | apps/web/src/components/markets/CrossRatesMatrix.tsx:48-70 | over a reciprocal lookup of positive rates, a cell is filled exactly when its mirror is, with the inverse rate |
| CrossRates.ViaHubInverse | apps/web/src/components/markets/CrossRatesMatrix.tsx:59-67 | the same when neither direction is stored directly |
| CrossRates.LegsInverse | apps/web/src/components/markets/CrossRatesMatrix.tsx:60-66 | crossing two legs through USD and crossing back through their inverses gives positive inverse rates |
| CrossRates.Reciprocals | apps/web/src/components/markets/CrossRatesMatrix.tsx:64 | a product of two legs times the product of their inverses is one |
| CrossRates.CrossRateReciprocal | apps/web/src/components/markets/CrossRatesMatrix.tsx:44-70 | over the lookup of any rows, a cell is filled exactly when its mirror is, with a positive inverse rate |
| CrossRates.Matrix | apps/web/src/components/markets/CrossRatesMatrix.tsx:84-88 | one row per currency and one column per currency, nine of each |
| CrossRates.MatrixReciprocal | apps/web/src/components/markets/CrossRatesMatrix.tsx:84-88 | the matrix is empty on its diagonal and reciprocal across it |
| CrossRates.MarketRowInLookup | apps/web/src/components/markets/CrossRatesMatrix.tsx:31-40 | a market with a positive rate fills its own cell with its rate and change and the reversed cell with the inverse; without one neither is stored |
| Converter.Rates | apps/web/src/components/tools/CurrencyConverter.tsx:29-37 | every rate in the converter's lookup is positive |
| Converter.BuildRates | apps/web/src/components/tools/CurrencyConverter.tsx:29-37 | the loop over the market rows builds the lookup |
| Converter.RatesOf | apps/web/src/components/tools/CurrencyConverter.tsx:30-35 | the rates of a cross-rates lookup keep its keys and its rates |
| Converter.RatesAreMatrixRates | apps/web/src/components/tools/CurrencyConverter.tsx:29-37 | the converter's lookup has the same keys and rates as the cross-rates matrix's lookup |
| Converter.ConversionVia | apps/web/src/components/tools/CurrencyConverter.tsx:40-50 | one for a currency against itself; the direct rate when stored; otherwise the product of the two legs through USD exactly when both are stored; otherwise nothing |
| Converter.ConversionIsCrossRate | apps/web/src/components/tools/CurrencyConverter.tsx:40-50 | between two different currencies the converter's rate is the matrix cell's rate, and exists exactly when the cell does; against itself it is one where the cell is empty |
| Converter.RateIsCrossRate | apps/web/src/components/tools/CurrencyConverter.tsx:29-50 | the same for the lookups both screens build from the same market rows |
| Converter.ConversionReciprocal | apps/web/src/components/tools/CurrencyConverter.tsx:40-50 | over a reciprocal lookup of positive rates, the rates of the two directions exist together, are positive and multiply to one |
| Converter.RateReciprocal | apps/web/src/components/tools/CurrencyConverter.tsx:29-50 | the same for the converter's own lookup of any market rows |
| Converter.ToAmount | apps/web/src/components/tools/CurrencyConverter.tsx:52-53 | "--" exactly when there is no rate; a non-negative amount at a positive rate is never negative |
| Converter.ConvertBackAt | apps/web/src/components/tools/CurrencyConverter.tsx:53 | an amount converted at a rate and back at its inverse is the amount typed |
| Converter.ConvertBack | apps/web/src/components/tools/CurrencyConverter.tsx:29-58 | converting an amount and converting the result back after a flip returns the amount typed |
| Converter.CurrencyConverter.constructor | apps/web/src/components/tools/CurrencyConverter.tsx:23-25 | the initial state is 1000 USD into EUR, an accepted amount |
| Converter.CurrencyConverter.FromNum | apps/web/src/components/tools/CurrencyConverter.tsx:52 | the typed amount reads as a non-negative number |
| Converter.CurrencyConverter.Shown | apps/web/src/components/tools/CurrencyConverter.tsx:52-53 | the result shows "--" exactly when the selected pair has no rate, and never a negative amount |
| Converter.CurrencyConverter.Flip | apps/web/src/components/tools/CurrencyConverter.tsx:55-58 | the two currencies swap and the amount stays |
| Converter.CurrencyConverter.Edit | apps/web/src/components/tools/CurrencyConverter.tsx:100-104 | an accepted keystroke replaces the amount and a refused one is dropped, so the amount stays accepted; the currencies stay |
| Converter.CurrencyConverter.SelectFrom | apps/web/src/components/tools/CurrencyConverter.tsx:83 | only the source currency changes |
| Converter.CurrencyConverter.SelectTo | apps/web/src/components/tools/CurrencyConverter.tsx:152 | only the target currency changes |
| Converter.FlipTwice | apps/web/src/components/tools/CurrencyConverter.tsx:55-58 | flipping twice restores both currencies and the amount |
| AmountInput.LeadingDigits | apps/web/src/components/swap/AmountInput.tsx:16 | the length of the run of ASCII digits a text starts with: all digits up to it and none at it |
| AmountInput.MatchSplitsAtLeadingDigits | apps/web/src/components/swap/AmountInput.tsx:16 | the first run of digits of a match of the pattern is the leading run |
| AmountInput.Accepts | apps/web/src/components/swap/AmountInput.tsx:16 | a text is accepted exactly when it is empty or matches the pattern of digits, an optional point and digits |
| AmountInput.AcceptsExactly | apps/web/src/components/swap/AmountInput.tsx:16 | accepted texts are exactly those made only of ASCII digits and points with at most one point, in both directions |
| AmountInput.AcceptanceExamples | apps/web/src/components/swap/AmountInput.tsx:15-16 | the empty text, a lone point, "12.", ".5" and "1000" are accepted; "1.2.3", "-1" and "1e5" are refused |
| AmountInput.HandleChange | apps/web/src/components/swap/AmountInput.tsx:13-19 | an accepted text is passed on; a refused one leaves the field as it was |
| AmountInput.FieldStaysAccepted | apps/web/src/components/swap/AmountInput.tsx:13-19 | a field that starts accepted stays accepted after any run of keystrokes (the MAX button is not a keystroke) |
| AmountInput.DigitValue | apps/web/src/components/swap/AmountInput.tsx:16 | a digit's value is at most nine |
| AmountInput.FractionValue | apps/web/src/components/swap/AmountInput.tsx:16 | the digits after the point spell a fraction in [0, 1) |
| AmountInput.AmountValue | apps/web/src/components/swap/AmountInput.tsx:16 | an accepted text reads as a non-negative number, and a run of digits as the whole number it spells |
| AmountInput.AmountValueShifted | apps/web/src/components/swap/AmountInput.tsx:16 | for a text with a point, the value with the point moved past the digits after it (times ten to their count) is the whole number the digits spell with the point taken out |
| AmountInput.AmountValueOfNoDigits | apps/web/src/components/swap/AmountInput.tsx:16 | the empty text and a lone point read as zero |
| AmountInput.AmountValueExamples | apps/web/src/components/swap/AmountInput.tsx:16 | "12." reads as 12 and ".5" as 0.5 |
| AmountInput.AmountValueOfWhole | apps/web/src/components/swap/AmountInput.tsx:16 | "1000" reads as 1000 |
| AmountInput.MaxButton | apps/web/src/components/swap/AmountInput.tsx:32-35 | the MAX button appears exactly for a defined positive balance and fills in that balance |
| PositionSize.DefaultsAccepted | apps/web/src/components/tools/PositionSizeCalc.tsx:20-23 | the initial balance, risk and stop texts are accepted by the amount fields |
| PositionSize.RiskAmountUsd | apps/web/src/components/tools/PositionSizeCalc.tsx:38 | the amount at risk is not negative for a non-negative balance and risk |
| PositionSize.RiskIsShareOfBalance | apps/web/src/components/tools/PositionSizeCalc.tsx:38 | a risk between 0 and 100 percent puts between nothing and the whole balance at risk, and all of it at 100 |
| PositionSize.PipValuePerLot | apps/web/src/components/tools/PositionSizeCalc.tsx:41-55 | the USD value of a pip on a standard lot exists exactly when the quote currency converts to USD, is positive, is the quote-currency pip value times that conversion, and is 10 for a USD quote |
| PositionSize.Lots | apps/web/src/components/tools/PositionSizeCalc.tsx:58-61 | lots exist exactly for a positive pip value and a positive stop, and lose exactly the amount at risk at the stop |
| PositionSize.Units | apps/web/src/components/tools/PositionSizeCalc.tsx:64 | units exist exactly when lots do, at 100,000 units a lot |
| PositionSize.Sizing | apps/web/src/components/tools/PositionSizeCalc.tsx:30-64 | the displayed lots and units are those of the typed balance, risk and stop for the selected pair's quote |
| PositionSize.LossAtStopIsRisk | apps/web/src/components/tools/PositionSizeCalc.tsx:41-64 | the units times the stop in pips times the pip size, converted to USD, is the amount at risk |
| PositionSize.DefaultSizing | apps/web/src/components/tools/PositionSizeCalc.tsx:20-23 | the initial inputs on a USD-quoted pair give 0.2 lots, 20,000 units |
| MarketFilter.Selected | apps/web/src/hooks/useMarketData.ts:17-31 | the filters never add rows |
| MarketFilter.Searching | apps/web/src/hooks/useMarketData.ts:24 | the search applies only for a non-empty term; used by `SelectedMembers` |
| MarketFilter.Matches | apps/web/src/hooks/useMarketData.ts:26-31 | a row matches when the term occurs in its pair id, its base or its quote; used by `SelectedMembers` |
| MarketFilter.Compare | apps/web/src/hooks/useMarketData.ts:39-56 | the comparator of each field before the direction's multiplier; characterised by `PairOrder`, `TradeableOrder`, `OrderTotalPreorder` and the `SortedBy…` lemmas |
| Strings.ToUpper | apps/web/src/hooks/useMarketData.ts:25 | the upper-cased term keeps the length and upper-cases each ASCII letter, leaving every other code unit |
| Strings.LocaleCompare | apps/web/src/hooks/useMarketData.ts:41 | zero exactly for equal strings, otherwise -1 or 1; `LocaleCompareOrder` shows swapping the arguments flips the sign and a non-positive result is code-unit order |
| MarketFilter.SelectedMembers | apps/web/src/hooks/useMarketData.ts:20-31 | a row is kept exactly when it is tradeable (when asked for) and matches the upper-cased term (when one is given) |
| MarketFilter.Filtered | apps/web/src/hooks/useMarketData.ts:17-60 | the rows shown are a permutation of the selected rows |
| MarketFilter.FilteredMembers | apps/web/src/hooks/useMarketData.ts:17-60 | the rows shown are exactly the selected rows |
| MarketFilter.PairOrder | apps/web/src/hooks/useMarketData.ts:40-41 | sorting on the pair orders the ids by code units, ascending or descending |
| MarketFilter.TradeableOrder | apps/web/src/hooks/useMarketData.ts:46-51 | sorting on "tradeable" puts tradeable rows first, then the higher volume, whatever the direction |
| MarketFilter.OrderTotalPreorder | apps/web/src/hooks/useMarketData.ts:38-57 | every field's comparator in either direction is total and transitive |
| Sorting.SortBySorted | apps/web/src/hooks/useMarketData.ts:38-57 | under a comparator that is a total preorder, the sorted rows are in order |
| Sorting.SortByStable | apps/web/src/hooks/useMarketData.ts:38-57 | the sort is stable: the rows the comparator ties with any given row come out in the order they went in |
| MarketFilter.SortedByPair | apps/web/src/hooks/useMarketData.ts:34-41 | by default or on "pair", the rows shown are in pair-id order, reversed for "desc" |
| MarketFilter.SortedByRate | apps/web/src/hooks/useMarketData.ts:42-43 | on "rate", the rows shown are in ascending rate order, descending for "desc" |
| MarketFilter.SortedByChange | apps/web/src/hooks/useMarketData.ts:44-45 | on "change24h", the same with a missing change counting as zero |
| MarketFilter.SortedByVolume | apps/web/src/hooks/useMarketData.ts:52-53 | on "globalVolume", ascending volume, descending for "desc" |
| MarketFilter.SortedByTradeable | apps/web/src/hooks/useMarketData.ts:46-51 | on "tradeable", every tradeable row precedes every other, and within each group the volume descends |
| MarketFilter.DefaultOptions | apps/web/src/hooks/useMarketData.ts:34-57 | without options every row is shown, in pair-id order |
| PipValue.PipSize | apps/web/src/components/tools/PipValueCalc.tsx:13-15 | a pip is positive: 0.01 exactly for a JPY quote, 0.0001 exactly for any other |
| PipValue.PairId | apps/web/src/components/tools/PipValueCalc.tsx:35-39 | a pair's id is its base code, a slash and its quote code |
| PipValue.PairsAreMarkets | apps/web/src/components/tools/PipValueCalc.tsx:35-39 | every offered pair is a market of the table, quoted the same way round |
| PipValue.PipValueInQuote | apps/web/src/components/tools/PipValueCalc.tsx:66 | the pip value in the quote currency of a non-empty lot is positive |
| PipValue.StandardLotPipValues | apps/web/src/components/tools/PipValueCalc.tsx:41-45 | ten dollars a pip on a standard USD-quoted lot, a thousand yen on a JPY-quoted one, one dollar on a mini lot and a tenth on a micro lot |
| PipValue.PipValueScalesWithLot | apps/web/src/components/tools/PipValueCalc.tsx:66 | the pip value grows in proportion to the lot size |
| PipValue.CalculatePipValue | apps/web/src/components/tools/PipValueCalc.tsx:21-33 | the result is positive for a non-empty lot and a positive conversion rate |
| PipValue.CalculatePipValueIgnoresRate | apps/web/src/components/tools/PipValueCalc.tsx:21-33 | the result depends on neither the pair's rate nor the account currency, and at a conversion of one it is the pip value in the quote |
| PipValue.FindRow | apps/web/src/components/tools/PipValueCalc.tsx:55-58 | the selected row exists exactly when some row has the pair's id, and it is the first such row |
| PipValue.SelectedRate | apps/web/src/components/tools/PipValueCalc.tsx:60 | the selected rate is the row's rate, or 0 without a row |
| PipValue.MarketSelectsOwnRow | apps/web/src/components/tools/PipValueCalc.tsx:55-58 | over the market rows every market id selects its own row |
| PipValue.FindUsdLeg | apps/web/src/components/tools/PipValueCalc.tsx:72-76 | the linking row exists exactly when some row links the quote to USD either way round, and it is the first such row |
| PipValue.UsdLeg | apps/web/src/components/tools/PipValueCalc.tsx:74-75 | a market links the quote to USD either way round; used by `FindUsdLeg` |
| PipValue.Reciprocal | apps/web/src/components/tools/PipValueCalc.tsx:81 | dividing one by zero gives Infinity; otherwise the result is the inverse |
| PipValue.QuoteToUsdAsWritten | apps/web/src/components/tools/PipValueCalc.tsx:78-81 | the row's rate when the quote is its base, otherwise its inverse, Infinity for a zero rate |
| PipValue.CheckedQuoteToUsd | apps/web/src/components/tools/PositionSizeCalc.tsx:49-53 | a conversion exists exactly for a row with a positive rate; it is positive, the rate when the quote is the base and its inverse otherwise |
| PipValue.Scale | apps/web/src/components/tools/PipValueCalc.tsx:82 | a positive amount times a number is Infinity exactly when the number is, otherwise the product |
| PipValue.UsdLegAsWritten | apps/web/src/components/tools/PipValueCalc.tsx:69-83 | one for USD; otherwise a conversion exactly when a linking row exists, through that row whatever its rate |
| PipValue.PipValueInUsdAsWritten | apps/web/src/components/tools/PipValueCalc.tsx:69-83 | the pip value in the quote as is for USD, and otherwise scaled by the written conversion when there is one |
| PipValue.QuoteToUsd | apps/web/src/components/tools/PipValueCalc.tsx:69-83 | one for USD; nothing without a linking row or when its rate is not positive; otherwise the checked conversion, always positive |
| PipValue.PipValueInUsd | apps/web/src/components/tools/PipValueCalc.tsx:69-83 | a value exactly when the checked conversion exists, the pip value in the quote times it, positive for a non-empty lot, and the pip value as is for USD |
| PipValue.Shown | apps/web/src/components/tools/PipValueCalc.tsx:178-182 | the USD line shows a value exactly when there is one and the pair's rate is positive, written or checked |
| PipValue.RowAgrees | apps/web/src/components/tools/PipValueCalc.tsx:78-81 | on one linking row the checked and the written conversions agree wherever the checked one exists |
| PipValue.ConversionsAgree | apps/web/src/components/tools/PipValueCalc.tsx:69-83 | the checked and the written conversions of a quote currency agree |
| PipValue.ScaledAgree | apps/web/src/components/tools/PipValueCalc.tsx:82 | scaling both by the same positive pip value keeps them in agreement |
| PipValue.CheckedConversionAgrees | apps/web/src/components/tools/PipValueCalc.tsx:69-83 | the checked pip value is the written one wherever it exists; where only the written one exists it is Infinity or not positive |
| PipValue.WrittenValueExists | apps/web/src/components/tools/PipValueCalc.tsx:72-77 | without a linking row both versions give nothing; with one the written version always gives a value |
| PipValue.EurJpyWithoutUsdJpy | apps/web/src/components/tools/PipValueCalc.tsx:77-82 | with EUR/JPY priced and USD/JPY not yet priced, the written calculator shows an Infinity USD pip value for EUR/JPY and the checked one shows "--" |
| PipValue.EurJpyRate | apps/web/src/components/tools/PipValueCalc.tsx:60 | the rate selected for EUR/JPY is its oracle price |
| PipValue.UsdJpyIsFirstJpyLeg | apps/web/src/components/tools/PipValueCalc.tsx:72-76 | USD/JPY is the first row linking JPY to USD, and without a price its rate is 0 |
| Watchlist.Toggle | apps/web/src/hooks/useWatchlist.ts:35-43 | the pair's membership flips, and every other pair stays, in the same order |
| Watchlist.ToggleKeepsDistinct | apps/web/src/hooks/useWatchlist.ts:37-39 | toggling never introduces a duplicate into a list without one |
| Watchlist.ToggleTwice | apps/web/src/hooks/useWatchlist.ts:35-43 | toggling twice restores membership, and restores the list itself for a pair that was not watched |
| Watchlist.ToggleTwiceMovesToEnd | apps/web/src/hooks/useWatchlist.ts:37-39 | toggling a watched pair twice moves it to the end of the list |
| Watchlist.IsWatched | apps/web/src/hooks/useWatchlist.ts:45-48 | a pair is watched exactly when it occurs in the list |
| Watchlist.ToggleFlipsWatched | apps/web/src/hooks/useWatchlist.ts:35-48 | after a toggle the pair is watched exactly when it was not before |
| Preferences.DefaultsAreOptions | apps/web/src/components/providers/PreferencesProvider.tsx:12-29 | every default currency has options, every currency with options has a default, and each default is one of its currency's options |
| Preferences.Loaded | apps/web/src/components/providers/PreferencesProvider.tsx:54 | the loaded preferences have the default and the stored currencies, a stored symbol overriding the default |
| Preferences.SetPreference | apps/web/src/components/providers/PreferencesProvider.tsx:61-71 | the currency gets the symbol and every other currency keeps its own |
| Preferences.GetPreferredToken | apps/web/src/components/providers/PreferencesProvider.tsx:73-76 | the stored symbol of the currency, or the currency code itself |
| Preferences.SetThenGet | apps/web/src/components/providers/PreferencesProvider.tsx:61-76 | after a preference is set the currency's token is the symbol set, and every other currency's token is unchanged |
| Preferences.LoadedKeepsDefaults | apps/web/src/components/providers/PreferencesProvider.tsx:46-59 | after loading, each default currency's token is the stored symbol or else the default |
| Preferences.DefaultTokens | apps/web/src/components/providers/PreferencesProvider.tsx:39-43 | without a provider USD prefers USDC and a currency without a default is its own token |
| SolanaCluster.ClusterLabel | apps/web/src/lib/solana-cluster.ts:21-27 | "Unknown" without a cluster; the known label of a known id; otherwise the cluster's own label, then its id, then "Unknown"; never empty |
| SolanaCluster.MainnetLabels | apps/web/src/lib/solana-cluster.ts:7-27 | the preferred and legacy mainnet ids read "Mainnet" even over a cluster label; an unknown id reads as itself and an empty one as "Unknown" |
| SolanaCluster.IsDevnet | apps/web/src/lib/solana-cluster.ts:29-32 | an id is devnet exactly when it is present, non-empty and contains "devnet" |
| SolanaCluster.BadgeVariantOf | apps/web/src/lib/solana-cluster.ts:34-42 | the badge is the default one exactly for a mainnet id, secondary exactly for a devnet id that is not mainnet, destructive exactly for a localnet id that is neither |
| SolanaCluster.DotClassName | apps/web/src/lib/solana-cluster.ts:44-51 | emerald exactly when there is no id or it names no known network; green for mainnet; blue only for devnet ids |
| SolanaCluster.ExplorerClusterQuery | apps/web/src/lib/solana-cluster.ts:53-58 | the devnet query exactly for devnet ids, the testnet query exactly for testnet ids that are not devnet, and nothing otherwise |
| SolanaCluster.DevnetAgrees | apps/web/src/lib/solana-cluster.ts:29-58 | a devnet id that is not mainnet gets the secondary badge, the blue dot and the devnet explorer query |
| SolanaCluster.TestnetAgrees | apps/web/src/lib/solana-cluster.ts:34-58 | a testnet id that names no other network gets the outline badge, the yellow dot and the testnet explorer query |
| SolanaCluster.LocalnetAgrees | apps/web/src/lib/solana-cluster.ts:34-58 | a localnet id that names no other network gets the destructive badge, the red dot and no explorer query |
| SolanaCluster.PreferredIds | apps/web/src/lib/solana-cluster.ts:7-51 | the preferred and legacy devnet ids are devnet, and the preferred mainnet id gets the default badge and the green dot |
| Toasts.Duration | apps/web/src/components/providers/ToastProvider.tsx:61 | the given duration, or 5000 milliseconds when none is given |
| Toasts.Pushed | apps/web/src/components/providers/ToastProvider.tsx:58-60 | the new toast is last, at most five are kept, the kept earlier ones are the newest of the previous list, and nothing is dropped below five |
| Toasts.PushedDropsOldest | apps/web/src/components/providers/ToastProvider.tsx:58-60 | showing a toast drops only a prefix of the oldest toasts |
| Toasts.Without | apps/web/src/components/providers/ToastProvider.tsx:52 | a toast is kept exactly when it was there and has another id |
| Toasts.WithoutConcat | apps/web/src/components/providers/ToastProvider.tsx:52 | dismissing works piecewise on a split list, so the toasts that stay keep their relative order |
| Toasts.DismissUnknownOrTwice | apps/web/src/components/providers/ToastProvider.tsx:46-53 | dismissing an unknown id changes nothing, and dismissing twice is dismissing once |
| Toasts.ToastProvider.constructor | apps/web/src/components/providers/ToastProvider.tsx:42-44 | the provider starts with no toasts and no timers |
| Toasts.ToastProvider.ShowToast | apps/web/src/components/providers/ToastProvider.tsx:55-70 | the toast is pushed, a timer is set exactly for a positive duration, and the id is returned |
| Toasts.ToastProvider.Dismiss | apps/web/src/components/providers/ToastProvider.tsx:46-53 | the toast is removed and its timer is cleared |
| Toasts.ToastProvider.ClearTimers | apps/web/src/components/providers/ToastProvider.tsx:73-77 | unmounting clears every timer and leaves the toasts |
| Toasts.PersistentToast | apps/web/src/components/providers/ToastProvider.tsx:55-70 | a toast with a zero duration is shown last and sets no timer |

## Left out

- Network and streams: the Jupiter, Pyth and Helius clients, the API routes and React Query are not part of this model. Their answers are parameters: a DEX order or none, a snapshot of oracle prices, streamed ticks.
- Scheduling: request retries, refetch intervals, the six-per-batch fan-out with its 25 ms stagger, animation-frame batching and all timeouts. The model has the state changes they trigger (`FlushPrices`, `Watchdog`, `SyncHistory`, `Dismiss`) as separate operations.
- Clock and randomness: the current time and the toast id from `crypto.randomUUID` are parameters.
- Floating point: rates are exact reals, so IEEE rounding is not modelled. `toFixed`, `Intl.NumberFormat` and the other display formatting are left out. `parseFloat` is modelled only on the texts the amount fields accept.
- Division by zero in the SDK: the source would give Infinity or NaN for a zero oracle price or a zero DEX input amount. The model requires nonzero values instead. Division by zero is modelled only where a component can reach it unguarded: the pip value conversion and the depth impact.
- RateEngine.DexRate: requires a nonzero input amount; with zero the source divides by zero.
- RateEngine.Assemble, RateEngine.Comparison, RateEngine.FXRateEngine.GetComparison: require the DEX order's input amount to be nonzero, for the same reason.
- ArbitrageScan.ScanOfComparisons: requires a nonzero input amount for every DEX order, for the same reason.
- Routes.LegValue: requires a nonzero oracle price, because the model does not represent a JavaScript Infinity there.
- Keys: currency pairs stand for the source's string keys, `"FROM:TO"` for routes and `"BASE/QUOTE"` in the cross-rates and converter lookups. Currency codes never contain either separator, so the two key sets correspond one to one. Market ids stay strings.
- Converter.ConversionVia and CrossRates.CrossVia take the currency they cross through as a parameter; the components always pass USD (`Rate`, `GetCrossRate`).
- Truthiness: `if (direct)` and `fromToUsd && usdToTo` test a stored rate's truthiness. Every stored rate is positive, so the model tests presence in the lookup.
- Prototype properties: looking up an id such as `"constructor"` in `CLUSTER_LABELS` or in the preferences object would find an inherited property. The model's maps hold only their own keys.
- Tokens.GetTokenBySymbol: `TOKEN_REGISTRY[symbol]` (packages/sdk/src/tokens/registry.ts:311) finds an inherited property for a symbol such as `"constructor"` and returns it. The model looks up own keys only and returns no token.
- Tokens.GetTokensByPair: for the same reason, `"constructor"` passes the `!input || !output` guard (packages/sdk/src/tokens/registry.ts:314-319). The model returns null.
- RateEngine.PlanComparison: with `"constructor"` as a symbol, the source gets past the unknown-token guard (packages/sdk/src/fx/rate-engine.ts:151-155) and fails later when it resolves the route (rate-engine.ts:136, "No FX route from undefined to USD"). The model reports the unknown-token error.
- RateEngine.Comparison: inherits the own-key lookup of `RateEngine.PlanComparison`, so for such a symbol it returns the unknown-token error and not the route error.
- RateEngine.FXRateEngine.GetComparison: the same as `RateEngine.Comparison`.
- Browser storage: the localStorage loading and saving of the watchlist and the preferences are left out. The model has the in-memory updates and the merge of a parsed object (`Preferences.Loaded`).
- Toast actions and the rendering of every component are left out; only the toast queue and its timers are modelled.
- Toasts.ToastProvider.ClearTimers: unmounting cancels every pending timer and the source leaves the entries in its map. The model empties the map, meaning no timer is pending.
- AmountInput.MaxButton: the model emits the balance as a number. The source emits `maxBalance.toString()`, which is exponent notation below 1e-6 and from 1e21 up (for example "1e-7"). The field's pattern refuses such text, so after MAX the field may hold text `AmountInput.Accepts` refuses; `AmountInput.FieldStaysAccepted` covers keystrokes only.
- String order: `localeCompare` is modelled as code-unit order; the locale's collation rules are not.
- MarketFilter.Selected: the search term is upper-cased by `Strings.ToUpper`, which maps only ASCII `a`-`z`. JavaScript's `toUpperCase` (apps/web/src/hooks/useMarketData.ts:25) also maps letters such as "ſ" to "S", "ı" to "I" and "ß" to "SS", so a term holding such letters can match other rows in the source than in the model.
- MarketFilter.SelectedMembers: states membership for the ASCII-only upper-casing of `MarketFilter.Selected`.
- MarketFilter.FilteredMembers: the same ASCII-only upper-casing, through `MarketFilter.Selected`.
- Arbitrage pairs: the comment at apps/web/src/config/arbitrage.ts:38 cites USDe to USDC as an example, but the code skips every token that is not a plain stablecoin, and USDe is declared synthetic, so no such pair is produced. The model follows the code (`ArbitrageConfig.KeptEntryNotUsde`).
- Market rows: the components receive a fresh array and never mutate it. The model passes the rows as a value.
- The selected pair of the calculators is a pair of currencies rather than its id string; `PipValue.PairId` gives the id it stands for.
- The market-data provider's in-place history arrays are `seq` values kept in `map` fields. Each operation states the new contents, but aliasing of the arrays is not modelled.

## Findings

| source | as written | input that shows it | evidently intended | confidence | as-written member | corrected member |
|---|---|---|---|---|---|---|
| apps/web/src/components/tools/PipValueCalc.tsx:77-82 | the row linking the quote currency to USD is used without checking its rate, so a row with rate 0 is divided by | EUR/JPY has a price and USD/JPY (the first row linking JPY to USD) has none yet, so its row reads rate 0; the "Pip Value (USD)" line shows `$Infinity` | no USD value when the linking row has no positive rate, as the position size calculator checks at apps/web/src/components/tools/PositionSizeCalc.tsx:49 | not executed | PipValue.PipValueInUsdAsWritten, PipValue.EurJpyWithoutUsdJpy | PipValue.PipValueInUsd, PipValue.CheckedConversionAgrees |
