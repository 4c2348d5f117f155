/**
 * The table of currency routes of the FX rate engine: which oracle feeds, combined how, give
 * "how many TO per 1 FROM", the USD-chained routes built on demand, and what the routes mean.
 */
module Routes {
  import opened Wrappers
  import opened Tokens
  import opened PriceMath

  /** An oracle feed "BASE/QUOTE"; its price is how many QUOTE one BASE buys. */
  datatype Feed = Feed(base: CurrencyCode, quote: CurrencyCode)

  /** One feed reading, used as `price` or, when inverted, as `1 / price`. */
  datatype Leg = Leg(feed: Feed, inverted: bool)

  /** A route's recipe: which feeds it reads and how it combines them. */
  datatype Route =
    | Identity                   // same currency: no feed, rate 1.0
    | Single(leg: Leg)           // one feed, possibly inverted
    | Product(first: Leg, second: Leg)  // the product of two legs

  /** The `feeds` array of a route, a repeated feed listed once. */
  function Feeds(r: Route): (fs: seq<Feed>)
    ensures |fs| <= 2 && (r.Identity? <==> fs == [])
  {
    match r
    case Identity => []
    case Single(l) => [l.feed]
    case Product(a, b) => if a.feed == b.feed then [a.feed] else [a.feed, b.feed]
  }

  predicate NonZeroPrices(rs: seq<OraclePrice>) {
    forall i :: 0 <= i < |rs| ==> rs[i].price != 0.0
  }

  function LegValue(l: Leg, reading: OraclePrice): real
    requires reading.price != 0.0
  {
    if l.inverted then 1.0 / reading.price else reading.price
  }

  /** A route's `compute`, applied to the readings of its feeds in `Feeds` order. */
  function Compute(r: Route, rs: seq<OraclePrice>): real
    requires |rs| == |Feeds(r)| && NonZeroPrices(rs)
  {
    match r
    case Identity => 1.0
    case Single(l) => LegValue(l, rs[0])
    case Product(a, b) => LegValue(a, rs[0]) * LegValue(b, rs[|rs| - 1])
  }

  function Direct(base: CurrencyCode, quote: CurrencyCode): Route {
    Single(Leg(Feed(base, quote), false))
  }

  function Inverse(base: CurrencyCode, quote: CurrencyCode): Route {
    Single(Leg(Feed(base, quote), true))
  }

  /** `CURRENCY_ROUTES` as written: the routes present before any lookup. */
  function StaticRoute(from: CurrencyCode, to: CurrencyCode): Option<Route> {
    if from == to then Some(Identity)
    else match (from, to)
      case (USD, EUR) => Some(Inverse(EUR, USD))
      case (EUR, USD) => Some(Direct(EUR, USD))
      case (USD, JPY) => Some(Direct(USD, JPY))
      case (JPY, USD) => Some(Inverse(USD, JPY))
      case (USD, GBP) => Some(Inverse(GBP, USD))
      case (GBP, USD) => Some(Direct(GBP, USD))
      case (USD, CHF) => Some(Direct(USD, CHF))
      case (CHF, USD) => Some(Inverse(USD, CHF))
      case (USD, BRL) => Some(Direct(USD, BRL))
      case (BRL, USD) => Some(Inverse(USD, BRL))
      case (USD, TRY) => Some(Direct(USD, TRY))
      case (TRY, USD) => Some(Inverse(USD, TRY))
      case (USD, MXN) => Some(Direct(USD, MXN))
      case (MXN, USD) => Some(Inverse(USD, MXN))
      case (USD, ZAR) => Some(Direct(USD, ZAR))
      case (ZAR, USD) => Some(Inverse(USD, ZAR))
      case (EUR, JPY) => Some(Product(Leg(Feed(EUR, USD), false), Leg(Feed(USD, JPY), false)))
      case (JPY, EUR) => Some(Product(Leg(Feed(EUR, USD), true), Leg(Feed(USD, JPY), true)))
      case (EUR, GBP) => Some(Product(Leg(Feed(EUR, USD), false), Leg(Feed(GBP, USD), true)))
      case (GBP, EUR) => Some(Product(Leg(Feed(EUR, USD), true), Leg(Feed(GBP, USD), false)))
      case (EUR, CHF) => Some(Direct(EUR, CHF))
      case (CHF, EUR) => Some(Inverse(EUR, CHF))
      case (GBP, JPY) => Some(Direct(GBP, JPY))
      case (JPY, GBP) => Some(Inverse(GBP, JPY))
      case (GBP, CHF) => Some(Direct(GBP, CHF))
      case (CHF, GBP) => Some(Inverse(GBP, CHF))
      case _ => None
  }

  /** An entry of `TO_USD_FEEDS`: the feed that prices a currency against USD. */
  datatype UsdFeed = UsdFeed(feed: Feed, isInverse: bool)

  /** `TO_USD_FEEDS`; NGN and IDR have no entry. */
  function ToUsdFeed(c: CurrencyCode): Option<UsdFeed> {
    match c
    case USD => Some(UsdFeed(Feed(EUR, USD), false))
    case EUR => Some(UsdFeed(Feed(EUR, USD), false))
    case JPY => Some(UsdFeed(Feed(USD, JPY), true))
    case GBP => Some(UsdFeed(Feed(GBP, USD), false))
    case CHF => Some(UsdFeed(Feed(USD, CHF), true))
    case BRL => Some(UsdFeed(Feed(USD, BRL), true))
    case TRY => Some(UsdFeed(Feed(USD, TRY), true))
    case MXN => Some(UsdFeed(Feed(USD, MXN), true))
    case ZAR => Some(UsdFeed(Feed(USD, ZAR), true))
    case NGN => None
    case IDR => None
  }

  /**
   * `buildDynamicRoute`: FROM -> USD -> TO as the product of "FROM in USD" and "USD in TO";
   * no route when either side lacks a USD feed or either side is USD itself.
   */
  function BuildDynamicRoute(from: CurrencyCode, to: CurrencyCode): (r: Option<Route>)
    ensures r.Some? <==> from !in {USD, NGN, IDR} && to !in {USD, NGN, IDR}
  {
    var fromInfo := ToUsdFeed(from);
    var toInfo := ToUsdFeed(to);
    if fromInfo.None? || toInfo.None? || from == USD || to == USD then None
    else Some(Product(Leg(fromInfo.value.feed, fromInfo.value.isInverse), Leg(toInfo.value.feed, !toInfo.value.isInverse)))
  }

  datatype EngineError =
    | UnknownToken(inputToken: string, outputToken: string)
    | NoRoute(from: CurrencyCode, to: CurrencyCode)
    | ProviderFailure   // the DEX quote or an oracle request failed

  /** The route `getCurrencyRoute` returns, independent of what it has cached so far. */
  function ResolveRoute(from: CurrencyCode, to: CurrencyCode): (r: Result<Route, EngineError>)
    ensures r.Err? ==> r.error == NoRoute(from, to)
    ensures from == to ==> r == Ok(Identity)
  {
    match StaticRoute(from, to)
    case Some(route) => Ok(route)
    case None =>
      match BuildDynamicRoute(from, to)
      case Some(route) => Ok(route)
      case None => Err(NoRoute(from, to))
  }

  /** A route exists for every pair of currencies except between distinct currencies one of which is NGN or IDR. */
  lemma RouteExistsIff(from: CurrencyCode, to: CurrencyCode)
    ensures ResolveRoute(from, to).Err? <==> from != to && (from in {NGN, IDR} || to in {NGN, IDR})
  {
  }

  // ---------------------------------------------------------------------------------------------
  // Meaning of a route

  /** The currency a leg converts from, and the one it converts to. */
  function LegFrom(l: Leg): CurrencyCode {
    if l.inverted then l.feed.quote else l.feed.base
  }

  function LegTo(l: Leg): CurrencyCode {
    if l.inverted then l.feed.base else l.feed.quote
  }

  /** The route's legs chain from `from` to `to` (a product of two legs, in either order). */
  predicate Connects(r: Route, from: CurrencyCode, to: CurrencyCode) {
    match r
    case Identity => from == to
    case Single(l) => LegFrom(l) == from && LegTo(l) == to
    case Product(a, b) =>
      (LegFrom(a) == from && LegTo(a) == LegFrom(b) && LegTo(b) == to) ||
      (LegFrom(b) == from && LegTo(b) == LegFrom(a) && LegTo(a) == to)
  }

  /** Every route of the static table chains from its source currency to its target currency. */
  lemma StaticRoutesConnect(from: CurrencyCode, to: CurrencyCode)
    ensures StaticRoute(from, to).Some? ==> Connects(StaticRoute(from, to).value, from, to)
  {
  }

  /** So does every route built through USD from the feeds. */
  lemma DynamicRoutesConnect(from: CurrencyCode, to: CurrencyCode)
    ensures BuildDynamicRoute(from, to).Some? ==> Connects(BuildDynamicRoute(from, to).value, from, to)
  {
  }

  /** Every route the engine resolves chains from its source currency to its target currency. */
  lemma ResolvedRoutesConnect(from: CurrencyCode, to: CurrencyCode)
    ensures ResolveRoute(from, to).Ok? ==> Connects(ResolveRoute(from, to).value, from, to)
  {
    StaticRoutesConnect(from, to);
    DynamicRoutesConnect(from, to);
  }

  /** Each route's legs read with their direction flipped: the route of the reverse pair. */
  predicate ReverseRoutes(r: Route, s: Route) {
    match (r, s)
    case (Identity, Identity) => true
    case (Single(a), Single(b)) => a.feed == b.feed && a.inverted != b.inverted
    case (Product(a, b), Product(c, d)) =>
      (a.feed == c.feed && b.feed == d.feed && a.inverted != c.inverted && b.inverted != d.inverted) ||
      (a.feed == d.feed && b.feed == c.feed && a.inverted != d.inverted && b.inverted != c.inverted)
    case _ => false
  }

  /** The static table lists each pair together with its reverse, read through the same feeds. */
  lemma StaticRoutesReverse(from: CurrencyCode, to: CurrencyCode)
    ensures StaticRoute(from, to).Some? <==> StaticRoute(to, from).Some?
    ensures StaticRoute(from, to).Some? ==> ReverseRoutes(StaticRoute(from, to).value, StaticRoute(to, from).value)
  {
  }

  /** A dynamic route and the dynamic route of the reverse pair read the same feeds in opposite directions. */
  lemma DynamicRoutesReverse(from: CurrencyCode, to: CurrencyCode)
    ensures BuildDynamicRoute(from, to).Some? <==> BuildDynamicRoute(to, from).Some?
    ensures BuildDynamicRoute(from, to).Some? ==> ReverseRoutes(BuildDynamicRoute(from, to).value, BuildDynamicRoute(to, from).value)
  {
  }

  /** The route for TO -> FROM reverses the route for FROM -> TO, static or dynamic. */
  lemma ResolvedRoutesReverse(from: CurrencyCode, to: CurrencyCode)
    ensures ResolveRoute(from, to).Ok? <==> ResolveRoute(to, from).Ok?
    ensures ResolveRoute(from, to).Ok? ==> ReverseRoutes(ResolveRoute(from, to).value, ResolveRoute(to, from).value)
  {
    StaticRoutesReverse(from, to);
    DynamicRoutesReverse(from, to);
  }

  /** The leg that prices one unit of `c` in USD, and the leg that prices one USD in `c`. */
  function ToUsdLeg(c: CurrencyCode): Leg
    requires ToUsdFeed(c).Some?
  {
    Leg(ToUsdFeed(c).value.feed, ToUsdFeed(c).value.isInverse)
  }

  function FromUsdLeg(c: CurrencyCode): Leg
    requires ToUsdFeed(c).Some?
  {
    Leg(ToUsdFeed(c).value.feed, !ToUsdFeed(c).value.isInverse)
  }

  /** The USD routes of a currency with a USD feed read that feed, in the two directions. */
  lemma UsdRoutes(c: CurrencyCode)
    requires c !in {USD, NGN, IDR}
    ensures ResolveRoute(c, USD) == Ok(Single(ToUsdLeg(c)))
    ensures ResolveRoute(USD, c) == Ok(Single(FromUsdLeg(c)))
  {
  }

  /** Every two-feed route, static or dynamic, is "FROM in USD" times "USD in TO", in some order. */
  lemma ProductRouteLegs(from: CurrencyCode, to: CurrencyCode)
    requires ResolveRoute(from, to).Ok? && ResolveRoute(from, to).value.Product?
    ensures from !in {USD, NGN, IDR} && to !in {USD, NGN, IDR}
    ensures ResolveRoute(from, to).value == Product(ToUsdLeg(from), FromUsdLeg(to)) ||
            ResolveRoute(from, to).value == Product(FromUsdLeg(to), ToUsdLeg(from))
  {
  }
}
