/**
 * The arbitrage scan: one comparison per monitored pair at the reference amount, each turned into
 * an `ArbitrageOpportunity`, with failed comparisons kept as pairs without liquidity.
 */
module ArbitrageScan {
  import opened Wrappers
  import opened Tokens
  import opened Spread
  import opened OracleRates
  import opened RateEngine
  import opened ArbitrageConfig

  datatype ArbitrageOpportunity = ArbitrageOpportunity(
    inputToken: string, outputToken: string,
    dexRate: real, oracleRate: real, spreadPercent: real, spreadDirection: Direction,
    outputAmount: real, favorable: bool, isPegArb: bool, hasLiquidity: bool)

  /** The comparison the scan requests for `pair`: the reference amount, no taker. */
  function ScanParams(pair: ArbitragePair): (p: ComparisonParams)
    ensures p.inputToken == pair.inputToken && p.outputToken == pair.outputToken
    ensures p.amount == ArbReferenceAmount as real && p.taker.None?
  {
    ComparisonParams(pair.inputToken, pair.outputToken, ArbReferenceAmount as real, None)
  }

  /** The query function's `try`/`catch`: a comparison that raises yields null instead. */
  function QueryData<E>(r: Result<RateComparison, E>): (d: Option<RateComparison>)
    ensures d.Some? <==> r.Ok?
    ensures d.Some? ==> d.value == r.value
  {
    match r
    case Ok(c) => Some(c)
    case Err(_) => None
  }

  /** `isPegArb`: both symbols are registry keys and their tokens share a currency. */
  function IsPegArb(pair: ArbitragePair): (b: bool)
    ensures b <==> var tokens := GetTokensByPair(pair.inputToken, pair.outputToken);
      tokens.Some? && tokens.value.0.currency == tokens.value.1.currency
  {
    var inputInfo := GetTokenBySymbol(pair.inputToken);
    var outputInfo := GetTokenBySymbol(pair.outputToken);
    inputInfo.Some? && outputInfo.Some? && inputInfo.value.currency == outputInfo.value.currency
  }

  /** The record for one pair: the comparison's fields when it succeeded, a zeroed record otherwise. */
  function ToOpportunity(pair: ArbitragePair, data: Option<RateComparison>): (o: ArbitrageOpportunity)
    ensures o.isPegArb == IsPegArb(pair)
    ensures o.hasLiquidity <==> data.Some?
    ensures data.None? ==>
      o.inputToken == pair.inputToken && o.outputToken == pair.outputToken &&
      o.dexRate == 0.0 && o.oracleRate == 0.0 && o.spreadPercent == 0.0 && o.outputAmount == 0.0 &&
      o.spreadDirection == Par && !o.favorable
    ensures data.Some? ==>
      var c := data.value;
      o.inputToken == c.inputToken && o.outputToken == c.outputToken &&
      o.dexRate == c.dexRate && o.oracleRate == c.oracleRate && o.spreadPercent == c.spreadPercent &&
      o.spreadDirection == c.spreadDirection && o.outputAmount == c.outputAmount &&
      (o.favorable <==> c.spreadDirection == Premium)
  {
    var isPegArb := IsPegArb(pair);
    match data
    case None =>
      ArbitrageOpportunity(pair.inputToken, pair.outputToken, 0.0, 0.0, 0.0, Par, 0.0, false, isPegArb, false)
    case Some(c) =>
      ArbitrageOpportunity(c.inputToken, c.outputToken, c.dexRate, c.oracleRate, c.spreadPercent,
        c.spreadDirection, c.outputAmount, c.spreadDirection == Premium, isPegArb, true)
  }

  /** `opportunities`: the query results mapped index by index onto the pairs they were issued for. */
  function Opportunities(pairs: seq<ArbitragePair>, data: seq<Option<RateComparison>>): (r: seq<ArbitrageOpportunity>)
    requires |data| == |pairs|
    ensures |r| == |pairs|
    ensures forall i :: 0 <= i < |r| ==> r[i] == ToOpportunity(pairs[i], data[i])
  {
    seq(|pairs|, i requires 0 <= i < |pairs| => ToOpportunity(pairs[i], data[i]))
  }

  /**
   * Scanning with the comparisons themselves: every record keeps its pair's tokens, has liquidity
   * exactly when the comparison succeeded, and then carries the oracle's rate for the two currencies
   * and the spread of its two rates.
   */
  lemma ScanOfComparisons(pairs: seq<ArbitragePair>, orders: seq<Option<DexOrder>>, oracle: Snapshot, i: nat)
    requires |orders| == |pairs| && i < |pairs|
    requires forall k :: 0 <= k < |orders| && orders[k].Some? ==> orders[k].value.inAmount != 0
    ensures var data := seq(|pairs|, k requires 0 <= k < |pairs| => QueryData(Comparison(ScanParams(pairs[k]), orders[k], oracle)));
      var o := Opportunities(pairs, data)[i];
      var c := Comparison(ScanParams(pairs[i]), orders[i], oracle);
      o.inputToken == pairs[i].inputToken && o.outputToken == pairs[i].outputToken &&
      (o.hasLiquidity <==> c.Ok?) &&
      (o.hasLiquidity ==> o.spreadPercent == CalculateSpread(o.dexRate, o.oracleRate).percent &&
                          o.spreadDirection == CalculateSpread(o.dexRate, o.oracleRate).direction) &&
      (c.Ok? ==> var (req, _) := PlanComparison(ScanParams(pairs[i])).value;
                 OracleRate(req.input.currency, req.output.currency, oracle) == Ok(o.oracleRate))
  {
    var c := Comparison(ScanParams(pairs[i]), orders[i], oracle);
    if c.Ok? {
      ComparisonUsesOracleRate(ScanParams(pairs[i]), orders[i], oracle);
    }
  }

  /** Every record of the scan over the monitored pairs is a peg arbitrage, whatever its outcome. */
  lemma ScannedPairsArePeg(data: seq<Option<RateComparison>>, i: nat)
    requires |data| == |ArbitragePairs()| && i < |data|
    ensures Opportunities(ArbitragePairs(), data)[i].isPegArb
  {
    ArbitragePairsArePegPairs(ArbitragePairs()[i]);
  }

  /**
   * `favorable` in a record means a premium direction, not the small-spread flag of the spread
   * classifier: equal rates are favorable to the classifier, but their record is not.
   */
  lemma FavorableMeansPremium(pair: ArbitragePair, c: RateComparison, rate: real)
    requires c.spreadDirection == CalculateSpread(rate, rate).direction
    ensures CalculateSpread(rate, rate).favorable
    ensures !ToOpportunity(pair, Some(c)).favorable
  {
  }
}
