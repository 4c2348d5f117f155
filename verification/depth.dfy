/**
 * The depth analysis: one comparison per notional of `DEPTH_AMOUNTS`, combined once every query
 * has settled into levels with their price impact against the rate of the smallest notional.
 */
module Depth {
  import opened Wrappers
  import opened Numbers
  import opened Spread
  import opened RateEngine
  import opened ArbitrageConfig

  /** A query's `data`: undefined while loading, then the comparison or null when it raised. */
  datatype QueryState = Pending | Resolved(data: Option<RateComparison>)

  predicate Succeeded(q: QueryState) {
    q.Resolved? && q.data.Some?
  }

  /** The JavaScript numbers a price impact can take: a finite value, +Infinity or NaN. */
  datatype Impact = Finite(value: real) | PosInfinity | NaN

  datatype DepthLevel = DepthLevel(
    inputAmount: real, outputAmount: real, dexRate: real, oracleRate: real,
    spreadPercent: real, spreadDirection: Direction, priceImpact: Impact)

  datatype DepthAnalysis = DepthAnalysis(
    inputToken: string, outputToken: string, levels: seq<DepthLevel>,
    oracleRate: real, bestRate: real, timestamp: int)

  /**
   * `Math.max(0, (bestRate - dexRate) / bestRate * 100)`: never negative for a nonzero best rate,
   * and zero exactly when the level's rate is not worse. A zero best rate divides by zero: NaN for
   * a zero rate, +Infinity for a negative one, and 0 (the maximum with -Infinity) for a positive one.
   */
  function PriceImpact(bestRate: real, dexRate: real): (p: Impact)
    ensures bestRate != 0.0 ==> p.Finite? && p.value >= 0.0
    ensures bestRate > 0.0 ==> (p.value == 0.0 <==> dexRate >= bestRate)
    ensures bestRate != 0.0 && p.value != 0.0 ==> p.value == (bestRate - dexRate) / bestRate * 100.0
    ensures bestRate == 0.0 ==>
      (p == NaN <==> dexRate == 0.0) && (p == PosInfinity <==> dexRate < 0.0) && (dexRate > 0.0 ==> p == Finite(0.0))
  {
    if bestRate != 0.0 then Finite(Max(0.0, (bestRate - dexRate) / bestRate * 100.0))
    else if dexRate == 0.0 then NaN
    else if dexRate < 0.0 then PosInfinity
    else Finite(0.0)
  }

  /** The indices of the queries that returned a comparison, in query order. */
  function SuccessIndices(queries: seq<QueryState>): (ix: seq<nat>)
    ensures forall k :: 0 <= k < |ix| ==> ix[k] < |queries| && Succeeded(queries[ix[k]])
    ensures forall k, l :: 0 <= k < l < |ix| ==> ix[k] < ix[l]
    ensures forall i :: 0 <= i < |queries| && Succeeded(queries[i]) ==> i in ix
    decreases |queries|
  {
    if queries == [] then []
    else
      var n := |queries| - 1;
      SuccessIndices(queries[..n]) + if Succeeded(queries[n]) then [n] else []
  }

  /** `validResults`: the successful comparisons, each with the notional it was requested for. */
  function ValidResults(queries: seq<QueryState>, amounts: seq<real>): (r: seq<(RateComparison, real)>)
    requires |amounts| == |queries|
    ensures var ix := SuccessIndices(queries);
      |r| == |ix| && forall k :: 0 <= k < |r| ==> r[k] == (queries[ix[k]].data.value, amounts[ix[k]])
  {
    var ix := SuccessIndices(queries);
    seq(|ix|, k requires 0 <= k < |ix| => (queries[ix[k]].data.value, amounts[ix[k]]))
  }

  function Level(bestRate: real, result: (RateComparison, real)): (l: DepthLevel)
    ensures l.inputAmount == result.1 && l.priceImpact == PriceImpact(bestRate, result.0.dexRate)
    ensures l.outputAmount == result.0.outputAmount && l.dexRate == result.0.dexRate &&
      l.oracleRate == result.0.oracleRate && l.spreadPercent == result.0.spreadPercent &&
      l.spreadDirection == result.0.spreadDirection
  {
    var (data, amount) := result;
    DepthLevel(amount, data.outputAmount, data.dexRate, data.oracleRate, data.spreadPercent,
      data.spreadDirection, PriceImpact(bestRate, data.dexRate))
  }

  /** `analysis`: nothing until every query has settled, nothing when every level failed. */
  function Analysis(inputToken: string, outputToken: string, queries: seq<QueryState>, amounts: seq<real>, now: int)
    : (r: Option<DepthAnalysis>)
    requires |amounts| == |queries|
  {
    if exists i :: 0 <= i < |queries| && queries[i].Pending? then None
    else
      var valid := ValidResults(queries, amounts);
      if |valid| == 0 then None
      else
        var bestRate := valid[0].0.dexRate;
        var levels := seq(|valid|, k requires 0 <= k < |valid| => Level(bestRate, valid[k]));
        Some(DepthAnalysis(inputToken, outputToken, levels, valid[0].0.oracleRate, bestRate, now))
  }

  /** The analysis exists exactly when every query has settled and at least one returned a comparison. */
  lemma AnalysisDefined(inputToken: string, outputToken: string, queries: seq<QueryState>, amounts: seq<real>, now: int)
    requires |amounts| == |queries|
    ensures Analysis(inputToken, outputToken, queries, amounts, now).Some? <==>
      (forall i :: 0 <= i < |queries| ==> queries[i].Resolved?) && exists i :: 0 <= i < |queries| && Succeeded(queries[i])
  {
    if exists i :: 0 <= i < |queries| && Succeeded(queries[i]) {
      var i :| 0 <= i < |queries| && Succeeded(queries[i]);
      assert i in SuccessIndices(queries);
    }
  }

  /**
   * The levels are the successful comparisons in notional order, each with its notional and the
   * comparison's fields; best rate and oracle rate come from the first of them.
   */
  lemma AnalysisLevels(inputToken: string, outputToken: string, queries: seq<QueryState>, amounts: seq<real>, now: int)
    requires |amounts| == |queries|
    requires Analysis(inputToken, outputToken, queries, amounts, now).Some?
    ensures var a := Analysis(inputToken, outputToken, queries, amounts, now).value;
      var ix := SuccessIndices(queries);
      |a.levels| == |ix| > 0 &&
      a.bestRate == queries[ix[0]].data.value.dexRate && a.oracleRate == queries[ix[0]].data.value.oracleRate &&
      a.inputToken == inputToken && a.outputToken == outputToken && a.timestamp == now &&
      forall k :: 0 <= k < |ix| ==>
        a.levels[k].inputAmount == amounts[ix[k]] &&
        a.levels[k].dexRate == queries[ix[k]].data.value.dexRate &&
        a.levels[k].outputAmount == queries[ix[k]].data.value.outputAmount &&
        a.levels[k].priceImpact == PriceImpact(a.bestRate, a.levels[k].dexRate)
  {
  }

  /**
   * The first level has no price impact when the best rate is nonzero; with a zero best rate the
   * source divides zero by zero there.
   */
  lemma FirstLevelImpact(inputToken: string, outputToken: string, queries: seq<QueryState>, amounts: seq<real>, now: int)
    requires |amounts| == |queries|
    requires Analysis(inputToken, outputToken, queries, amounts, now).Some?
    ensures var a := Analysis(inputToken, outputToken, queries, amounts, now).value;
      |a.levels| > 0 && a.levels[0].dexRate == a.bestRate &&
      a.levels[0].priceImpact == if a.bestRate != 0.0 then Finite(0.0) else NaN
  {
  }

  /** Over `DEPTH_AMOUNTS` the levels have strictly increasing notionals. */
  lemma LevelsIncreasing(inputToken: string, outputToken: string, queries: seq<QueryState>, now: int)
    requires |queries| == |DepthAmounts|
    ensures var amounts := seq(|DepthAmounts|, i requires 0 <= i < |DepthAmounts| => DepthAmounts[i] as real);
      var r := Analysis(inputToken, outputToken, queries, amounts, now);
      r.Some? ==> forall k, l :: 0 <= k < l < |r.value.levels| ==> r.value.levels[k].inputAmount < r.value.levels[l].inputAmount
  {
    var amounts := seq(|DepthAmounts|, i requires 0 <= i < |DepthAmounts| => DepthAmounts[i] as real);
    var r := Analysis(inputToken, outputToken, queries, amounts, now);
    if r.Some? {
      DepthAmountsIncreasing();
      AnalysisLevels(inputToken, outputToken, queries, amounts, now);
    }
  }
}
