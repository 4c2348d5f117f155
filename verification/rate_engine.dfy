/**
 * The FX rate engine: the memoised route table and the DEX-versus-oracle comparison
 * (`getComparison`, `getOracleRate`).
 */
module RateEngine {
  import opened Wrappers
  import opened Numbers
  import opened Tokens
  import opened PriceMath
  import opened Spread
  import opened Routes
  import opened OracleRates

  /** The arguments of `getComparison`. */
  datatype ComparisonParams = ComparisonParams(inputToken: string, outputToken: string, amount: real, taker: Option<string>)

  /** What the DEX aggregator is asked for: tokens, raw input amount and optional taker. */
  datatype OrderRequest = OrderRequest(input: TokenInfo, output: TokenInfo, amountRaw: int, taker: Option<string>)

  /** The aggregator's answer: raw amounts, request id and, with a taker, the unsigned transaction. */
  datatype DexOrder = DexOrder(inAmount: int, outAmount: int, requestId: string, transaction: Option<string>)

  /** `JupiterOrderForExecution`. */
  datatype OrderData = OrderData(transaction: string, requestId: string, inAmount: int, outAmount: int)

  datatype RateComparison = RateComparison(
    dexRate: real, oracleRate: real, oracleConfidence: real,
    spreadPercent: real, spreadDirection: Direction,
    inputAmount: real, outputAmount: real,
    inputToken: string, outputToken: string,
    jupiterOrderData: Option<OrderData>)

  /** `Math.floor(amount * 10 ** decimals)`: the amount in the token's smallest unit. */
  function AmountRaw(amount: real, decimals: nat): (raw: int)
    ensures raw as real <= amount * Pow10(decimals) < raw as real + 1.0
  {
    (amount * Pow10(decimals)).Floor
  }

  /** A JavaScript string is truthy when it is not empty. */
  predicate Truthy(s: Option<string>) {
    s.Some? && s.value != ""
  }

  /** Resolves both tokens and their route, or the error `getComparison` throws before any request. */
  function PlanComparison(p: ComparisonParams): (r: Result<(OrderRequest, Route), EngineError>)
    ensures GetTokenBySymbol(p.inputToken).None? || GetTokenBySymbol(p.outputToken).None? ==>
      r == Err(UnknownToken(p.inputToken, p.outputToken))
    ensures r.Ok? ==> var (req, route) := r.value;
      GetTokenBySymbol(p.inputToken) == Some(req.input) && GetTokenBySymbol(p.outputToken) == Some(req.output) &&
      req.amountRaw == AmountRaw(p.amount, req.input.decimals) && req.taker == p.taker &&
      ResolveRoute(req.input.currency, req.output.currency) == Ok(route)
    ensures r.Err? && r.error.NoRoute? ==> GetTokenBySymbol(p.inputToken).Some? && GetTokenBySymbol(p.outputToken).Some?
  {
    match GetTokensByPair(p.inputToken, p.outputToken)
    case None => Err(UnknownToken(p.inputToken, p.outputToken))
    case Some((input, output)) =>
      var amountRaw := AmountRaw(p.amount, input.decimals);
      match ResolveRoute(input.currency, output.currency)
      case Err(e) => Err(e)
      case Ok(route) => Ok((OrderRequest(input, output, amountRaw, p.taker), route))
  }

  /** The sum of `confidence / price` over the readings. */
  function RelativeConfidence(rs: seq<OraclePrice>): real
    requires NonZeroPrices(rs)
  {
    if rs == [] then 0.0 else RelativeConfidence(rs[..|rs| - 1]) + rs[|rs| - 1].confidence / rs[|rs| - 1].price
  }

  /** Non-negative confidences over positive prices give a non-negative relative confidence. */
  lemma {:induction false} RelativeConfidenceNonNegative(rs: seq<OraclePrice>)
    requires forall i :: 0 <= i < |rs| ==> rs[i].price > 0.0 && rs[i].confidence >= 0.0
    ensures RelativeConfidence(rs) >= 0.0
  {
    if rs != [] {
      RelativeConfidenceNonNegative(rs[..|rs| - 1]);
    }
  }

  /** `amount / 10 ** decimals`: a raw amount in whole tokens. */
  function Human(raw: int, decimals: nat): (h: real)
    ensures h * Pow10(decimals) == raw as real
    ensures raw != 0 ==> h != 0.0
  {
    raw as real / Pow10(decimals)
  }

  /** The DEX's effective rate: output tokens received per input token sold. */
  function DexRate(order: DexOrder, inDecimals: nat, outDecimals: nat): (rate: real)
    requires order.inAmount != 0
    ensures rate * Human(order.inAmount, inDecimals) == Human(order.outAmount, outDecimals)
  {
    Human(order.outAmount, outDecimals) / Human(order.inAmount, inDecimals)
  }

  /**
   * `oracleConfidence`: the summed relative confidence of the readings scaled by the oracle rate,
   * and zero for a route that reads no feed.
   */
  function OracleConfidence(rs: seq<OraclePrice>, oracleRate: real): (c: real)
    requires NonZeroPrices(rs)
    ensures rs == [] ==> c == 0.0
    ensures rs != [] ==> c == RelativeConfidence(rs) * oracleRate
  {
    if |rs| > 0 then RelativeConfidence(rs) * oracleRate else 0.0
  }

  /**
   * The oracle confidence is a width: over positive prices with non-negative confidences and a
   * non-negative oracle rate it is never negative.
   */
  lemma OracleConfidenceNonNegative(rs: seq<OraclePrice>, oracleRate: real)
    requires forall i :: 0 <= i < |rs| ==> rs[i].price > 0.0 && rs[i].confidence >= 0.0
    requires oracleRate >= 0.0
    ensures OracleConfidence(rs, oracleRate) >= 0.0
  {
    RelativeConfidenceNonNegative(rs);
  }

  /** The result record, once the order and every feed reading have arrived. */
  function Assemble(p: ComparisonParams, req: OrderRequest, route: Route, order: DexOrder, rs: seq<OraclePrice>): (c: RateComparison)
    requires order.inAmount != 0 && |rs| == |Feeds(route)| && NonZeroPrices(rs)
    ensures c.dexRate == DexRate(order, req.input.decimals, req.output.decimals)
    ensures c.outputAmount == Human(order.outAmount, req.output.decimals)
    ensures c.oracleRate == Compute(route, rs)
    ensures var s := CalculateSpread(c.dexRate, c.oracleRate); c.spreadPercent == s.percent && c.spreadDirection == s.direction
    ensures c.oracleConfidence == OracleConfidence(rs, c.oracleRate)
    ensures c.inputAmount == p.amount && c.inputToken == p.inputToken && c.outputToken == p.outputToken
    ensures c.jupiterOrderData.Some? <==> Truthy(p.taker)
    ensures c.jupiterOrderData.Some? ==>
      c.jupiterOrderData.value == OrderData(order.transaction.GetOr(""), order.requestId, order.inAmount, order.outAmount)
  {
    var outHuman := Human(order.outAmount, req.output.decimals);
    var dexRate := DexRate(order, req.input.decimals, req.output.decimals);
    var oracleRate := if |Feeds(route)| > 0 then Compute(route, rs) else 1.0;
    var oracleConfidence := OracleConfidence(rs, oracleRate);
    var spread := CalculateSpread(dexRate, oracleRate);
    RateComparison(dexRate, oracleRate, oracleConfidence, spread.percent, spread.direction,
      p.amount, outHuman, p.inputToken, p.outputToken,
      if Truthy(p.taker) then Some(OrderData(order.transaction.GetOr(""), order.requestId, order.inAmount, order.outAmount)) else None)
  }

  /**
   * `getComparison` against the collaborators' answers: `order` is the DEX order (None when the
   * request fails) and `oracle` holds the feeds the oracle answers (a missing feed fails).
   */
  function Comparison(p: ComparisonParams, order: Option<DexOrder>, oracle: Snapshot): (r: Result<RateComparison, EngineError>)
    requires (order.Some? ==> order.value.inAmount != 0)
    ensures PlanComparison(p).Err? ==> r == Err(PlanComparison(p).error)
    ensures PlanComparison(p).Ok? ==>
      (r.Ok? <==> order.Some? && Available(Feeds(PlanComparison(p).value.1), oracle))
    ensures r.Err? && PlanComparison(p).Ok? ==> r.error == ProviderFailure
  {
    match PlanComparison(p)
    case Err(e) => Err(e)
    case Ok((req, route)) =>
      var fs := Feeds(route);
      if order.None? || !Available(fs, oracle) then Err(ProviderFailure)
      else Ok(Assemble(p, req, route, order.value, Readings(fs, oracle)))
  }

  /** Two tokens of the same currency compare against an oracle rate of exactly 1, whatever the oracle holds. */
  lemma SameCurrencyPeg(p: ComparisonParams, order: Option<DexOrder>, oracle: Snapshot)
    requires (order.Some? ==> order.value.inAmount != 0)
    requires PlanComparison(p).Ok? && PlanComparison(p).value.0.input.currency == PlanComparison(p).value.0.output.currency
    ensures Comparison(p, order, oracle).Ok? <==> order.Some?
    ensures Comparison(p, order, oracle).Ok? ==>
      Comparison(p, order, oracle).value.oracleRate == 1.0 && Comparison(p, order, oracle).value.oracleConfidence == 0.0
  {
  }

  /** The comparison's oracle rate is the engine's oracle rate for the two tokens' currencies. */
  lemma ComparisonUsesOracleRate(p: ComparisonParams, order: Option<DexOrder>, oracle: Snapshot)
    requires order.Some? ==> order.value.inAmount != 0
    requires Comparison(p, order, oracle).Ok?
    ensures var (req, _) := PlanComparison(p).value;
      OracleRate(req.input.currency, req.output.currency, oracle) == Ok(Comparison(p, order, oracle).value.oracleRate)
  {
    var (req, route) := PlanComparison(p).value;
    ComputeIsEvaluate(route, oracle);
    OracleRateOfRoute(req.input.currency, req.output.currency, oracle, route);
  }

  // ---------------------------------------------------------------------------------------------
  // The mutable route table

  /** Every currency code. */
  const AllCodes: set<CurrencyCode> := {USD, EUR, JPY, GBP, CHF, BRL, TRY, MXN, NGN, IDR, ZAR}

  lemma AllCodesComplete(c: CurrencyCode)
    ensures c in AllCodes
  {
  }

  /** The module-level route table, with the dynamic routes memoised as they are built. */
  class RouteTable {
    var routes: map<(CurrencyCode, CurrencyCode), Route>

    /** Every static route is present and every entry is the route `ResolveRoute` gives for its key. */
    ghost predicate Valid()
      reads this
    {
      (forall from, to :: StaticRoute(from, to).Some? ==> (from, to) in routes) &&
      (forall k :: k in routes ==> ResolveRoute(k.0, k.1) == Ok(routes[k]))
    }

    /** The table as initialised: exactly the routes written out in `CURRENCY_ROUTES`. */
    constructor()
      ensures Valid()
      ensures forall from, to :: (from, to) in routes <==> StaticRoute(from, to).Some?
    {
      forall from: CurrencyCode, to: CurrencyCode
        ensures from in AllCodes && to in AllCodes
      {
        AllCodesComplete(from);
        AllCodesComplete(to);
      }
      var keys := set a, b | a in AllCodes && b in AllCodes :: (a, b);
      routes := map k | k in keys && StaticRoute(k.0, k.1).Some? :: StaticRoute(k.0, k.1).value;
    }

    /** `getCurrencyRoute`: the table entry, else a dynamic route (cached), else the "No FX route" error. */
    method GetCurrencyRoute(from: CurrencyCode, to: CurrencyCode) returns (r: Result<Route, EngineError>)
      requires Valid()
      modifies this
      ensures Valid()
      ensures r == ResolveRoute(from, to)
      ensures routes == if r.Ok? then old(routes)[(from, to) := r.value] else old(routes)
    {
      var key := (from, to);
      if key in routes {
        r := Ok(routes[key]);
        assert routes[key := r.value] == routes;
        return;
      }
      var dynamic := BuildDynamicRoute(from, to);
      if dynamic.Some? {
        routes := routes[key := dynamic.value];
        return Ok(dynamic.value);
      }
      return Err(NoRoute(from, to));
    }
  }

  /** `FXRateEngine`: the comparison and oracle-rate queries over the shared route table. */
  class FXRateEngine {
    const table: RouteTable

    ghost predicate Valid()
      reads this, table
    {
      table.Valid()
    }

    constructor(table: RouteTable)
      requires table.Valid()
      ensures this.table == table && Valid()
    {
      this.table := table;
    }

    /** `getComparison`; the route lookup may add the pair's dynamic route to the table. */
    method GetComparison(p: ComparisonParams, order: Option<DexOrder>, oracle: Snapshot)
      returns (r: Result<RateComparison, EngineError>)
      requires Valid() && (order.Some? ==> order.value.inAmount != 0)
      modifies table
      ensures Valid()
      ensures r == Comparison(p, order, oracle)
      ensures PlanComparison(p).Ok? ==> var (req, route) := PlanComparison(p).value;
        table.routes == old(table.routes)[(req.input.currency, req.output.currency) := route]
      ensures PlanComparison(p).Err? ==> table.routes == old(table.routes)
    {
      var tokens := GetTokensByPair(p.inputToken, p.outputToken);
      if tokens.None? {
        return Err(UnknownToken(p.inputToken, p.outputToken));
      }
      var (input, output) := tokens.value;
      var amountRaw := AmountRaw(p.amount, input.decimals);
      var route := table.GetCurrencyRoute(input.currency, output.currency);
      if route.Err? {
        return Err(route.error);
      }
      var request := OrderRequest(input, output, amountRaw, p.taker);
      var fs := Feeds(route.value);
      if order.None? || !Available(fs, oracle) {
        return Err(ProviderFailure);
      }
      r := Ok(Assemble(p, request, route.value, order.value, Readings(fs, oracle)));
    }

    /** `getOracleRate`. */
    method GetOracleRate(from: CurrencyCode, to: CurrencyCode, oracle: Snapshot)
      returns (r: Result<real, EngineError>)
      requires Valid()
      modifies table
      ensures Valid()
      ensures r == OracleRate(from, to, oracle)
      ensures table.routes == if ResolveRoute(from, to).Ok? then old(table.routes)[(from, to) := ResolveRoute(from, to).value] else old(table.routes)
    {
      OracleRateSteps(from, to, oracle);
      var route := table.GetCurrencyRoute(from, to);
      if route.Err? {
        return Err(route.error);
      }
      var fs := Feeds(route.value);
      if |fs| == 0 {
        return Ok(1.0);
      }
      if !Available(fs, oracle) {
        return Err(ProviderFailure);
      }
      var rs := Readings(fs, oracle);
      r := Ok(Compute(route.value, rs));
    }
  }
}
