/**
 * Oracle rates of the FX rate engine: a route evaluated against one snapshot of oracle prices,
 * `getOracleRate` as a function of that snapshot, and the properties the rates owe to the
 * route table (reciprocity, chaining through USD, agreement with a consistent market).
 */
module OracleRates {
  import opened Wrappers
  import opened Numbers
  import opened Tokens
  import opened PriceMath
  import opened Routes

  /** Every oracle price in the snapshot is nonzero. */
  predicate NonZeroSnapshot(oracle: map<Feed, OraclePrice>) {
    forall f :: f in oracle ==> oracle[f].price != 0.0
  }

  /** The oracle's answers at one moment: a price for each feed it serves, none of them zero. */
  type Snapshot = oracle: map<Feed, OraclePrice> | NonZeroSnapshot(oracle) witness map[]

  /** The snapshot answers every one of the feeds. */
  predicate Available(fs: seq<Feed>, oracle: Snapshot) {
    forall i :: 0 <= i < |fs| ==> fs[i] in oracle
  }

  /** `feeds.map(getRate)` against a snapshot: the readings, in the order of the feeds. */
  function Readings(fs: seq<Feed>, oracle: Snapshot): (rs: seq<OraclePrice>)
    requires Available(fs, oracle)
    ensures |rs| == |fs| && forall i :: 0 <= i < |fs| ==> rs[i] == oracle[fs[i]]
  {
    if fs == [] then [] else [oracle[fs[0]]] + Readings(fs[1..], oracle)
  }

  /** The snapshot prices every feed the route reads. */
  predicate Covers(r: Route, oracle: Snapshot) {
    match r
    case Identity => true
    case Single(l) => l.feed in oracle
    case Product(a, b) => a.feed in oracle && b.feed in oracle
  }

  /** The route's rate on the snapshot: each leg applied to its own feed's price. */
  function Evaluate(r: Route, oracle: Snapshot): real
    requires Covers(r, oracle)
  {
    match r
    case Identity => 1.0
    case Single(l) => LegValue(l, oracle[l.feed])
    case Product(a, b) => LegValue(a, oracle[a.feed]) * LegValue(b, oracle[b.feed])
  }

  /**
   * `compute` over the positional readings of the (deduplicated) feed list applies each leg to
   * its own feed: listing a repeated feed once loses nothing, and a route is priced exactly when
   * every one of its feeds is answered.
   */
  lemma ComputeIsEvaluate(r: Route, oracle: Snapshot)
    ensures Available(Feeds(r), oracle) <==> Covers(r, oracle)
    ensures Covers(r, oracle) ==>
      NonZeroPrices(Readings(Feeds(r), oracle)) && Compute(r, Readings(Feeds(r), oracle)) == Evaluate(r, oracle)
  {
    var fs := Feeds(r);
    if r.Single? {
      assert fs[0] == r.leg.feed;
    } else if r.Product? {
      assert fs[0] == r.first.feed && fs[|fs| - 1] == r.second.feed;
    }
  }

  /** `getOracleRate` against a snapshot: the route's rate, or why there is none. */
  function OracleRate(from: CurrencyCode, to: CurrencyCode, oracle: Snapshot): (r: Result<real, EngineError>)
    ensures from == to ==> r == Ok(1.0)
    ensures r.Err? <==> ResolveRoute(from, to).Err? || !Covers(ResolveRoute(from, to).value, oracle)
    ensures r.Err? ==> r.error == if ResolveRoute(from, to).Err? then NoRoute(from, to) else ProviderFailure
  {
    match ResolveRoute(from, to)
    case Err(e) => Err(e)
    case Ok(route) => if Covers(route, oracle) then Ok(Evaluate(route, oracle)) else Err(ProviderFailure)
  }

  /** The rate of a resolved route, as `OracleRate` returns it. */
  lemma OracleRateOfRoute(from: CurrencyCode, to: CurrencyCode, oracle: Snapshot, route: Route)
    requires ResolveRoute(from, to) == Ok(route)
    ensures OracleRate(from, to, oracle).Ok? <==> Covers(route, oracle)
    ensures OracleRate(from, to, oracle).Ok? ==> OracleRate(from, to, oracle).value == Evaluate(route, oracle)
  {
  }

  /**
   * `OracleRate` is what `getOracleRate` computes step by step: the route (or its error), 1.0 for
   * a route without feeds, a failure when a feed is not answered, else `compute` over the readings.
   */
  lemma OracleRateSteps(from: CurrencyCode, to: CurrencyCode, oracle: Snapshot)
    ensures ResolveRoute(from, to).Err? ==> OracleRate(from, to, oracle) == Err(ResolveRoute(from, to).error)
    ensures ResolveRoute(from, to).Ok? ==> var route := ResolveRoute(from, to).value;
      OracleRate(from, to, oracle) ==
        if |Feeds(route)| == 0 then Ok(1.0)
        else if !Available(Feeds(route), oracle) then Err(ProviderFailure)
        else Ok(Compute(route, Readings(Feeds(route), oracle)))
  {
    if ResolveRoute(from, to).Ok? {
      var route := ResolveRoute(from, to).value;
      ComputeIsEvaluate(route, oracle);
      OracleRateOfRoute(from, to, oracle, route);
    }
  }

  // ---------------------------------------------------------------------------------------------
  // Reciprocity

  lemma LegReciprocal(a: Leg, b: Leg, p: OraclePrice)
    requires a.inverted != b.inverted && p.price != 0.0
    ensures LegValue(a, p) * LegValue(b, p) == 1.0
  {
  }

  lemma ProductOfReciprocals(x: real, y: real, x': real, y': real)
    requires x * x' == 1.0 && y * y' == 1.0
    ensures (x * y) * (x' * y') == 1.0 && (x * y) * (y' * x') == 1.0
  {
    assert (x * y) * (x' * y') == (x * x') * (y * y');
  }

  /** Reverse routes yield reciprocal rates on every snapshot, whatever its prices. */
  lemma ReverseRoutesReciprocal(r: Route, s: Route, oracle: Snapshot)
    requires ReverseRoutes(r, s) && Covers(r, oracle)
    ensures Covers(s, oracle) && Evaluate(r, oracle) * Evaluate(s, oracle) == 1.0
  {
    match (r, s)
    case (Identity, Identity) =>
    case (Single(a), Single(b)) =>
      LegReciprocal(a, b, oracle[a.feed]);
    case (Product(a, b), Product(c, d)) =>
      var pa, pb := oracle[a.feed], oracle[b.feed];
      if a.feed == c.feed && b.feed == d.feed && a.inverted != c.inverted && b.inverted != d.inverted {
        LegReciprocal(a, c, pa);
        LegReciprocal(b, d, pb);
        ProductOfReciprocals(LegValue(a, pa), LegValue(b, pb), LegValue(c, pa), LegValue(d, pb));
      } else {
        LegReciprocal(a, d, pa);
        LegReciprocal(b, c, pb);
        ProductOfReciprocals(LegValue(a, pa), LegValue(b, pb), LegValue(d, pa), LegValue(c, pb));
      }
  }

  /** FROM -> TO times TO -> FROM is exactly 1 on every snapshot that prices both. */
  lemma OracleRatesReciprocal(from: CurrencyCode, to: CurrencyCode, oracle: Snapshot)
    requires OracleRate(from, to, oracle).Ok?
    ensures OracleRate(to, from, oracle).Ok?
    ensures OracleRate(from, to, oracle).value * OracleRate(to, from, oracle).value == 1.0
  {
    ResolvedRoutesReverse(from, to);
    var r, s := ResolveRoute(from, to).value, ResolveRoute(to, from).value;
    OracleRateOfRoute(from, to, oracle, r);
    ReverseRoutesReciprocal(r, s, oracle);
    OracleRateOfRoute(to, from, oracle, s);
    MulCongruence(OracleRate(from, to, oracle).value, OracleRate(to, from, oracle).value, Evaluate(r, oracle), Evaluate(s, oracle));
  }

  // ---------------------------------------------------------------------------------------------
  // Chaining through USD

  /** The oracle rates of a currency with a USD feed against USD read that one feed. */
  lemma UsdOracleRates(c: CurrencyCode, oracle: Snapshot)
    requires c !in {USD, NGN, IDR}
    ensures OracleRate(c, USD, oracle).Ok? <==> ToUsdLeg(c).feed in oracle
    ensures OracleRate(c, USD, oracle).Ok? ==> OracleRate(c, USD, oracle).value == Evaluate(Single(ToUsdLeg(c)), oracle)
    ensures OracleRate(USD, c, oracle).Ok? <==> ToUsdLeg(c).feed in oracle
    ensures OracleRate(USD, c, oracle).Ok? ==> OracleRate(USD, c, oracle).value == Evaluate(Single(FromUsdLeg(c)), oracle)
  {
    UsdRoutes(c);
    OracleRateOfRoute(c, USD, oracle, Single(ToUsdLeg(c)));
    OracleRateOfRoute(USD, c, oracle, Single(FromUsdLeg(c)));
  }

  /** A product route's rate is the product of its legs' rates, in either order. */
  lemma EvaluateProduct(x: Leg, y: Leg, oracle: Snapshot)
    requires Covers(Product(x, y), oracle)
    ensures Covers(Product(y, x), oracle) && Covers(Single(x), oracle) && Covers(Single(y), oracle)
    ensures Evaluate(Product(x, y), oracle) == Evaluate(Single(x), oracle) * Evaluate(Single(y), oracle)
    ensures Evaluate(Product(y, x), oracle) == Evaluate(Single(x), oracle) * Evaluate(Single(y), oracle)
  {
    var vx, vy := LegValue(x, oracle[x.feed]), LegValue(y, oracle[y.feed]);
    assert vy * vx == vx * vy;
  }

  /** The oracle rate of a two-feed route is "FROM in USD" times "USD in TO". */
  lemma ProductOracleRate(from: CurrencyCode, to: CurrencyCode, oracle: Snapshot)
    requires OracleRate(from, to, oracle).Ok? && ResolveRoute(from, to).value.Product?
    ensures from !in {USD, NGN, IDR} && to !in {USD, NGN, IDR}
    ensures Covers(Single(ToUsdLeg(from)), oracle) && Covers(Single(FromUsdLeg(to)), oracle)
    ensures OracleRate(from, to, oracle).value ==
      Evaluate(Single(ToUsdLeg(from)), oracle) * Evaluate(Single(FromUsdLeg(to)), oracle)
  {
    ProductRouteLegs(from, to);
    var x, y := ToUsdLeg(from), FromUsdLeg(to);
    var route := ResolveRoute(from, to).value;
    OracleRateOfRoute(from, to, oracle, route);
    if route == Product(x, y) {
      EvaluateProduct(x, y, oracle);
    } else {
      EvaluateProduct(y, x, oracle);
    }
  }

  /**
   * A two-feed route (each cross through USD, static or dynamic) yields the rate FROM -> USD times
   * the rate USD -> TO on the same snapshot.
   */
  lemma CrossRatesChainThroughUsd(from: CurrencyCode, to: CurrencyCode, oracle: Snapshot)
    requires OracleRate(from, to, oracle).Ok? && ResolveRoute(from, to).value.Product?
    ensures OracleRate(from, USD, oracle).Ok? && OracleRate(USD, to, oracle).Ok?
    ensures OracleRate(from, to, oracle).value == OracleRate(from, USD, oracle).value * OracleRate(USD, to, oracle).value
  {
    ProductOracleRate(from, to, oracle);
    UsdOracleRates(from, oracle);
    UsdOracleRates(to, oracle);
  }

  // ---------------------------------------------------------------------------------------------
  // Agreement with a consistent market

  /** A consistent market: every currency has a positive value `u[c]` in some common unit. */
  ghost predicate PositiveValues(u: map<CurrencyCode, real>) {
    forall c :: c in u && u[c] > 0.0
  }

  /** In the market `u`, one `from` buys `rate` units of `to`: `rate * u[to] == u[from]`. */
  ghost predicate Converts(rate: real, from: CurrencyCode, to: CurrencyCode, u: map<CurrencyCode, real>) {
    from in u && to in u && rate * u[to] == u[from]
  }

  /** A market fixes each rate: two rates that both convert `from` to `to` are equal. */
  lemma ConvertsUnique(r1: real, r2: real, from: CurrencyCode, to: CurrencyCode, u: map<CurrencyCode, real>)
    requires PositiveValues(u) && Converts(r1, from, to, u) && Converts(r2, from, to, u)
    ensures r1 == r2
  {
    assert (r1 - r2) * u[to] == 0.0;
  }

  lemma ConvertsEqual(r1: real, r2: real, from: CurrencyCode, to: CurrencyCode, u: map<CurrencyCode, real>)
    requires r1 == r2 && Converts(r1, from, to, u)
    ensures Converts(r2, from, to, u)
  {
  }

  /** Converting a currency to itself takes rate 1, and only rate 1. */
  lemma ConvertsUnit(rate: real, c: CurrencyCode, u: map<CurrencyCode, real>)
    requires PositiveValues(u)
    ensures Converts(rate, c, c, u) <==> rate == 1.0
  {
    assert c in u;
    if Converts(rate, c, c, u) {
      ConvertsUnique(rate, 1.0, c, c, u);
    }
  }

  /** Converting x to y and then y to z converts x to z at the product of the rates. */
  lemma ConvertsChain(a: real, b: real, x: CurrencyCode, y: CurrencyCode, z: CurrencyCode, u: map<CurrencyCode, real>)
    requires Converts(a, x, y, u) && Converts(b, y, z, u)
    ensures Converts(a * b, x, z, u)
  {
    assert (a * b) * u[z] == a * (b * u[z]);
  }

  /** The reciprocal of a rate from x to y is the rate from y to x. */
  lemma ConvertsReverse(rate: real, x: CurrencyCode, y: CurrencyCode, u: map<CurrencyCode, real>)
    requires PositiveValues(u) && Converts(rate, x, y, u)
    ensures rate != 0.0 && Converts(1.0 / rate, y, x, u)
  {
    assert x in u;
    assert (1.0 / rate) * u[x] == (1.0 / rate) * (rate * u[y]);
  }

  /** A snapshot that agrees with the market `u`: feed B/Q priced at the market rate B -> Q. */
  ghost predicate PricedByMarket(oracle: map<Feed, OraclePrice>, u: map<CurrencyCode, real>) {
    PositiveValues(u) && forall f :: f in oracle ==> Converts(oracle[f].price, f.base, f.quote, u)
  }

  lemma MarketSnapshotNonZero(oracle: map<Feed, OraclePrice>, u: map<CurrencyCode, real>)
    requires PricedByMarket(oracle, u)
    ensures NonZeroSnapshot(oracle)
  {
    forall f | f in oracle
      ensures oracle[f].price != 0.0
    {
      assert f.quote in u && u[f.quote] > 0.0;
    }
  }

  /** A leg applied to a market-consistent reading converts its source currency to its target. */
  lemma LegInMarket(l: Leg, reading: OraclePrice, u: map<CurrencyCode, real>)
    requires PositiveValues(u) && Converts(reading.price, l.feed.base, l.feed.quote, u)
    ensures reading.price != 0.0 && Converts(LegValue(l, reading), LegFrom(l), LegTo(l), u)
  {
    ConvertsReverse(reading.price, l.feed.base, l.feed.quote, u);
  }

  /** Two legs that chain `from` to `to` (in either order) multiply to the market rate from -> to. */
  lemma ProductInMarket(a: Leg, b: Leg, from: CurrencyCode, to: CurrencyCode, va: real, vb: real, u: map<CurrencyCode, real>)
    requires Connects(Product(a, b), from, to)
    requires Converts(va, LegFrom(a), LegTo(a), u) && Converts(vb, LegFrom(b), LegTo(b), u)
    ensures Converts(va * vb, from, to, u)
  {
    if LegFrom(a) == from && LegTo(a) == LegFrom(b) && LegTo(b) == to {
      ConvertsChain(va, vb, from, LegTo(a), to, u);
    } else {
      ConvertsChain(vb, va, from, LegTo(b), to, u);
      assert vb * va == va * vb;
    }
  }

  /** On a market-priced snapshot, a route that connects `from` to `to` evaluates to the market rate. */
  lemma EvaluateInMarket(r: Route, from: CurrencyCode, to: CurrencyCode, oracle: Snapshot, u: map<CurrencyCode, real>)
    requires Connects(r, from, to) && Covers(r, oracle) && PricedByMarket(oracle, u)
    ensures Converts(Evaluate(r, oracle), from, to, u)
  {
    match r
    case Identity =>
      ConvertsUnit(1.0, from, u);
    case Single(l) =>
      LegInMarket(l, oracle[l.feed], u);
    case Product(a, b) =>
      ProductEvaluateInMarket(a, b, from, to, oracle, u);
  }

  lemma ProductEvaluateInMarket(a: Leg, b: Leg, from: CurrencyCode, to: CurrencyCode, oracle: Snapshot, u: map<CurrencyCode, real>)
    requires Connects(Product(a, b), from, to) && Covers(Product(a, b), oracle) && PricedByMarket(oracle, u)
    ensures Converts(Evaluate(Product(a, b), oracle), from, to, u)
  {
    var pa, pb := oracle[a.feed], oracle[b.feed];
    LegInMarket(a, pa, u);
    LegInMarket(b, pb, u);
    var va, vb := LegValue(a, pa), LegValue(b, pb);
    ProductInMarket(a, b, from, to, va, vb, u);
    ConvertsEqual(va * vb, Evaluate(Product(a, b), oracle), from, to, u);
  }

  /** On a snapshot priced by a consistent market, every oracle rate the engine returns is the market rate. */
  lemma OracleRateInMarket(from: CurrencyCode, to: CurrencyCode, oracle: map<Feed, OraclePrice>, u: map<CurrencyCode, real>)
    requires PricedByMarket(oracle, u)
    ensures NonZeroSnapshot(oracle)
    ensures OracleRate(from, to, oracle).Ok? ==> Converts(OracleRate(from, to, oracle).value, from, to, u)
  {
    MarketSnapshotNonZero(oracle, u);
    if OracleRate(from, to, oracle).Ok? {
      var r := ResolveRoute(from, to).value;
      ResolvedRoutesConnect(from, to);
      OracleRateOfRoute(from, to, oracle, r);
      EvaluateInMarket(r, from, to, oracle, u);
    }
  }
}
