/**
 * The market-data provider: oracle ticks are buffered and flushed into the price map, each pair
 * keeps a bounded price history and a latched session-start price, a watchdog marks the feed stale,
 * and the market rows are derived from `FX_MARKETS` and the prices.
 */
module MarketData {
  import opened Wrappers
  import opened Numbers
  import opened Markets
  import opened PriceMath
  import Ohlc

  datatype ConnectionStatus = Connecting | Live | Stale | Offline

  datatype PricePoint = PricePoint(price: real, timestamp: int)

  /** One row of the markets table. */
  datatype MarketRow = MarketRow(
    market: FXMarket, rate: real, confidence: real, previousRate: Option<real>,
    change24h: Option<real>, publishTime: int, tradeable: bool)

  /** The toasts the provider raises. */
  datatype Notice = Reconnected | ConnectionStale

  const MaxHistoryPoints: nat := 200
  const StaleThresholdMs: int := 10000
  /** Changes no larger than this, in percent, are shown as no change. */
  const ChangeEpsilon: real := 0.0001

  // ---------------------------------------------------------------------------------------------
  // The transitions, as functions of the state they read

  /**
   * The status after a tick: "live" for the first tick ever, and afterwards "stale" turns back into
   * "live" while every other status stays.
   */
  function TickStatus(receivedBefore: bool, s: ConnectionStatus): (r: ConnectionStatus)
    ensures !receivedBefore ==> r == Live
    ensures receivedBefore ==> (r == Live <==> s == Live || s == Stale)
    ensures receivedBefore && s != Stale ==> r == s
  {
    if !receivedBefore then Live
    else if s == Stale then Live
    else s
  }

  /** The watchdog fires only after a first update and more than the threshold since the last one. */
  predicate WatchdogFires(lastUpdateTime: int, now: int) {
    lastUpdateTime > 0 && now - lastUpdateTime > StaleThresholdMs
  }

  /**
   * The session-start price: set by a tick only while the stored price is absent or zero (both
   * falsy), so a latched nonzero price is never replaced by a tick.
   */
  function Latch(initial: map<string, real>, pair: string, price: real): (r: map<string, real>)
    ensures pair in r
    ensures pair in initial && initial[pair] != 0.0 ==> r == initial
    ensures (pair !in initial || initial[pair] == 0.0) ==> r[pair] == price
    ensures forall p :: p != pair ==> (p in r <==> p in initial) && (p in r ==> r[p] == initial[p])
  {
    if pair in initial && initial[pair] != 0.0 then initial else initial[pair := price]
  }

  /** Once a nonzero price is latched, later ticks leave the whole map as it is. */
  lemma LatchStable(initial: map<string, real>, pair: string, first: real, later: real)
    requires first != 0.0
    ensures var m := Latch(initial, pair, first);
      m[pair] != 0.0 && Latch(m, pair, later) == m
  {
  }

  /** `history.push(point)`, then `shift()` once the history is over its cap. */
  function PushHistory(h: seq<PricePoint>, point: PricePoint): (r: seq<PricePoint>)
    ensures |r| >= 1 && r[|r| - 1] == point
    ensures |h| <= MaxHistoryPoints ==> |r| <= MaxHistoryPoints
  {
    var pushed := h + [point];
    if |pushed| > MaxHistoryPoints then pushed[1..] else pushed
  }

  /**
   * A history within its cap keeps the most recent points: the result is the newest
   * `min(|h| + 1, 200)` points of `h + [point]`, oldest first.
   */
  lemma PushHistoryKeepsRecent(h: seq<PricePoint>, point: PricePoint)
    requires |h| <= MaxHistoryPoints
    ensures var r, all := PushHistory(h, point), h + [point];
      |r| == if |h| < MaxHistoryPoints then |h| + 1 else MaxHistoryPoints
    ensures var r, all := PushHistory(h, point), h + [point];
      r == all[|all| - |r|..]
  {
  }

  /**
   * The session change in percent, `(price - initial) / initial * 100`: absent without a price or a
   * nonzero initial price, and absent when it is within `ChangeEpsilon` of zero.
   */
  function Change24h(price: Option<OraclePrice>, initial: Option<real>): (c: Option<real>)
    ensures c.Some? ==> price.Some? && initial.Some? && initial.value != 0.0
    ensures c.Some? ==> Abs(c.value) > ChangeEpsilon
    ensures c.Some? ==> initial.value * (1.0 + c.value / 100.0) == price.value.price
    ensures price.Some? && initial.Some? && initial.value != 0.0 && c.None? ==>
      Abs(price.value.price - initial.value) <= ChangeEpsilon / 100.0 * Abs(initial.value)
  {
    if price.Some? && initial.Some? && initial.value != 0.0 then
      var raw := (price.value.price - initial.value) / initial.value * 100.0;
      if Abs(raw) > ChangeEpsilon then Some(raw) else None
    else None
  }

  function Lookup<V>(m: map<string, V>, key: string): (r: Option<V>)
    ensures r.Some? <==> key in m
    ensures r.Some? ==> r.value == m[key]
  {
    if key in m then Some(m[key]) else None
  }

  /** The row of one market: missing numbers read as 0, tradeable exactly when it has a token pair. */
  function Row(market: FXMarket, prices: map<string, OraclePrice>, initial: map<string, real>): (r: MarketRow)
    ensures r.market == market && (r.tradeable <==> market.solanaMapping.Some?)
    ensures market.pair in prices ==>
      r.rate == prices[market.pair].price && r.confidence == prices[market.pair].confidence &&
      r.publishTime == prices[market.pair].publishTime
    ensures market.pair !in prices ==> r.rate == 0.0 && r.confidence == 0.0 && r.publishTime == 0 && r.change24h.None?
    ensures r.previousRate == Lookup(initial, market.pair)
    ensures r.change24h == Change24h(Lookup(prices, market.pair), Lookup(initial, market.pair))
  {
    var price := Lookup(prices, market.pair);
    var initialPrice := Lookup(initial, market.pair);
    MarketRow(
      market,
      if price.Some? then price.value.price else 0.0,
      if price.Some? then price.value.confidence else 0.0,
      initialPrice,
      Change24h(price, initialPrice),
      if price.Some? then price.value.publishTime else 0,
      market.solanaMapping.Some?)
  }

  /** `markets`: one row per entry of `FX_MARKETS`, in table order. */
  function Rows(prices: map<string, OraclePrice>, initial: map<string, real>): (rows: seq<MarketRow>)
    ensures |rows| == |FxMarkets|
    ensures forall i :: 0 <= i < |rows| ==> rows[i] == Row(FxMarkets[i], prices, initial)
  {
    seq(|FxMarkets|, i requires 0 <= i < |FxMarkets| => Row(FxMarkets[i], prices, initial))
  }

  /**
   * The loop of the initial fetch over the returned pairs: each one overwrites the pair's
   * session-start price and history, and every other pair keeps its own.
   */
  method SeedEntries(initial: map<string, real>, history: map<string, seq<PricePoint>>, rates: map<string, OraclePrice>)
    returns (latched: map<string, real>, h: map<string, seq<PricePoint>>)
    requires HistoriesBounded(history)
    ensures HistoriesBounded(h)
    ensures forall p :: p in latched <==> p in initial || p in rates
    ensures forall p :: p in latched ==> latched[p] == if p in rates then rates[p].price else initial[p]
    ensures forall p :: p in h <==> p in history || p in rates
    ensures forall p :: p in h ==> h[p] == if p in rates then [PricePoint(rates[p].price, rates[p].publishTime)] else history[p]
  {
    latched, h := initial, history;
    var left, done := rates.Keys, {};
    while left != {}
      invariant left + done == rates.Keys && left !! done
      invariant forall p :: p in latched <==> p in initial || p in done
      invariant forall p :: p in latched ==> latched[p] == if p in done then rates[p].price else initial[p]
      invariant forall p :: p in h <==> p in history || p in done
      invariant forall p :: p in h ==> h[p] == if p in done then [PricePoint(rates[p].price, rates[p].publishTime)] else history[p]
      decreases left
    {
      var p :| p in left;
      latched := latched[p := rates[p].price];
      h := h[p := [PricePoint(rates[p].price, rates[p].publishTime)]];
      left, done := left - {p}, done + {p};
    }
    assert done == rates.Keys;
  }

  /** Every history is within its cap. */
  ghost predicate HistoriesBounded(history: map<string, seq<PricePoint>>) {
    forall p :: p in history ==> |history[p]| <= MaxHistoryPoints
  }

  // ---------------------------------------------------------------------------------------------
  // The provider's state

  class MarketDataProvider {
    var prices: map<string, OraclePrice>
    var pending: map<string, OraclePrice>
    var connectionStatus: ConnectionStatus
    var lastUpdate: Option<int>
    var lastUpdateTime: int
    var hasReceivedFirstMessage: bool
    var wasStale: bool
    /** The history being accumulated, and the copy last published to readers. */
    var history: map<string, seq<PricePoint>>
    var publishedHistory: map<string, seq<PricePoint>>
    var initialPrices: map<string, real>
    /** The toasts raised so far, oldest first. */
    var notices: seq<Notice>
    const ohlc: Ohlc.OHLCAggregator

    ghost predicate Valid()
      reads this, ohlc
    {
      ohlc.Valid() && HistoriesBounded(history)
    }

    constructor()
      ensures Valid() && fresh(ohlc) && ohlc.candles == map[]
      ensures prices == map[] && pending == map[] && connectionStatus == Connecting
      ensures lastUpdate == None && lastUpdateTime == 0 && !hasReceivedFirstMessage && !wasStale
      ensures history == map[] && publishedHistory == map[] && initialPrices == map[] && notices == []
    {
      prices := map[];
      pending := map[];
      connectionStatus := Connecting;
      lastUpdate := None;
      lastUpdateTime := 0;
      hasReceivedFirstMessage := false;
      wasStale := false;
      history := map[];
      publishedHistory := map[];
      initialPrices := map[];
      notices := [];
      ohlc := new Ohlc.OHLCAggregator();
    }

    function HistoryOf(pair: string): (h: seq<PricePoint>)
      reads this
      ensures pair !in history ==> h == []
    {
      if pair in history then history[pair] else []
    }

    /** `markets`, derived from the flushed prices and the session-start prices. */
    function MarketRows(): (rows: seq<MarketRow>)
      reads this
      ensures rows == Rows(prices, initialPrices)
    {
      Rows(prices, initialPrices)
    }

    /** `connected` of the merged context. */
    function Connected(): (b: bool)
      reads this
      ensures b <==> connectionStatus == Live
    {
      connectionStatus == Live
    }

    /**
     * `handlePriceUpdate` at time `now`: the status steps, a pending stale warning turns into a
     * reconnection toast, the tick is buffered, latched, fed to the candles and to the history.
     */
    method HandlePriceUpdate(pair: string, price: OraclePrice, now: int)
      requires Valid()
      modifies this, ohlc
      ensures Valid()
      ensures connectionStatus == TickStatus(old(hasReceivedFirstMessage), old(connectionStatus))
      ensures hasReceivedFirstMessage && !wasStale && lastUpdateTime == now
      ensures notices == old(notices) + if old(wasStale) then [Reconnected] else []
      ensures pending == old(pending)[pair := price]
      ensures initialPrices == Latch(old(initialPrices), pair, price.price)
      ensures history == old(history)[pair := PushHistory(old(HistoryOf(pair)), PricePoint(price.price, price.publishTime))]
      ensures prices == old(prices) && lastUpdate == old(lastUpdate) && publishedHistory == old(publishedHistory)
      ensures ohlc.candles ==
        old(ohlc.candles)[pair := Ohlc.Ticked(Ohlc.PairCandles(old(ohlc.candles), pair), price.price, price.publishTime)]
    {
      StepStatus(now);
      BufferTick(pair, price);
      ohlc.AddTick(pair, price.price, price.publishTime);
    }

    /** The status side of a tick: first message, reconnection after a stale period, time of the tick. */
    method StepStatus(now: int)
      modifies this
      ensures connectionStatus == TickStatus(old(hasReceivedFirstMessage), old(connectionStatus))
      ensures hasReceivedFirstMessage && !wasStale && lastUpdateTime == now
      ensures notices == old(notices) + if old(wasStale) then [Reconnected] else []
      ensures pending == old(pending) && initialPrices == old(initialPrices) && history == old(history)
      ensures prices == old(prices) && lastUpdate == old(lastUpdate) && publishedHistory == old(publishedHistory)
    {
      if !hasReceivedFirstMessage {
        hasReceivedFirstMessage := true;
        connectionStatus := Live;
      }
      lastUpdateTime := now;
      if wasStale {
        wasStale := false;
        notices := notices + [Reconnected];
      }
      connectionStatus := if connectionStatus == Stale then Live else connectionStatus;
    }

    /** The price side of a tick: buffered, latched as the session start when none is, appended to the history. */
    method BufferTick(pair: string, price: OraclePrice)
      requires HistoriesBounded(history)
      modifies this
      ensures HistoriesBounded(history)
      ensures pending == old(pending)[pair := price]
      ensures initialPrices == Latch(old(initialPrices), pair, price.price)
      ensures history == old(history)[pair := PushHistory(old(HistoryOf(pair)), PricePoint(price.price, price.publishTime))]
      ensures connectionStatus == old(connectionStatus) && lastUpdateTime == old(lastUpdateTime) && notices == old(notices)
      ensures hasReceivedFirstMessage == old(hasReceivedFirstMessage) && wasStale == old(wasStale)
      ensures prices == old(prices) && lastUpdate == old(lastUpdate) && publishedHistory == old(publishedHistory)
    {
      pending := pending[pair := price];
      if pair !in initialPrices || initialPrices[pair] == 0.0 {
        initialPrices := initialPrices[pair := price.price];
      }
      var h := if pair in history then history[pair] else [];
      h := h + [PricePoint(price.price, price.publishTime)];
      if |h| > MaxHistoryPoints {
        h := h[1..];
      }
      history := history[pair := h];
    }

    /** `flushPrices`: the buffered ticks overwrite the prices and the buffer empties; nothing when it is empty. */
    method FlushPrices(now: int)
      modifies this
      ensures old(pending) == map[] ==> prices == old(prices) && lastUpdate == old(lastUpdate)
      ensures old(pending) != map[] ==> prices == old(prices) + old(pending) && lastUpdate == Some(now)
      ensures pending == map[]
      ensures connectionStatus == old(connectionStatus) && lastUpdateTime == old(lastUpdateTime)
      ensures history == old(history) && publishedHistory == old(publishedHistory) && initialPrices == old(initialPrices)
      ensures hasReceivedFirstMessage == old(hasReceivedFirstMessage) && wasStale == old(wasStale) && notices == old(notices)
    {
      if pending == map[] {
        return;
      }
      prices := prices + pending;
      lastUpdate := Some(now);
      pending := map[];
    }

    /**
     * One run of the staleness watchdog at time `now`: when it fires the status becomes "stale", and
     * the warning toast and the reconnection flag are raised only on the transition into it.
     */
    method Watchdog(now: int)
      modifies this
      ensures WatchdogFires(old(lastUpdateTime), now) ==> connectionStatus == Stale
      ensures !WatchdogFires(old(lastUpdateTime), now) ==> connectionStatus == old(connectionStatus)
      ensures WatchdogFires(old(lastUpdateTime), now) && old(connectionStatus) != Stale ==>
        wasStale && notices == old(notices) + [ConnectionStale]
      ensures !(WatchdogFires(old(lastUpdateTime), now) && old(connectionStatus) != Stale) ==>
        wasStale == old(wasStale) && notices == old(notices)
      ensures prices == old(prices) && pending == old(pending) && lastUpdate == old(lastUpdate)
      ensures lastUpdateTime == old(lastUpdateTime) && hasReceivedFirstMessage == old(hasReceivedFirstMessage)
      ensures history == old(history) && publishedHistory == old(publishedHistory) && initialPrices == old(initialPrices)
    {
      if lastUpdateTime > 0 && now - lastUpdateTime > StaleThresholdMs {
        if connectionStatus != Stale {
          wasStale := true;
          notices := notices + [ConnectionStale];
        }
        connectionStatus := Stale;
      }
    }

    /**
     * The initial fetch's result: it replaces the prices, and for every pair it returned resets the
     * session-start price and the history to that one price.
     */
    method InitialFetch(rates: map<string, OraclePrice>, now: int)
      requires HistoriesBounded(history)
      modifies this
      ensures HistoriesBounded(history)
      ensures prices == rates && lastUpdate == Some(now) && lastUpdateTime == now
      ensures forall p :: p in initialPrices <==> p in old(initialPrices) || p in rates
      ensures forall p :: p in initialPrices ==>
        initialPrices[p] == if p in rates then rates[p].price else old(initialPrices)[p]
      ensures forall p :: p in history <==> p in old(history) || p in rates
      ensures forall p :: p in history ==>
        history[p] == if p in rates then [PricePoint(rates[p].price, rates[p].publishTime)] else old(history)[p]
      ensures publishedHistory == history
      ensures pending == old(pending) && connectionStatus == old(connectionStatus) && notices == old(notices)
      ensures hasReceivedFirstMessage == old(hasReceivedFirstMessage) && wasStale == old(wasStale)
    {
      var latched, h := SeedEntries(initialPrices, history, rates);
      prices, initialPrices, history, publishedHistory := rates, latched, h, h;
      lastUpdate := Some(now);
      lastUpdateTime := now;
    }

    /** The periodic copy of the accumulated history into the published one. */
    method SyncHistory()
      modifies this
      ensures publishedHistory == history
      ensures prices == old(prices) && pending == old(pending) && history == old(history)
      ensures connectionStatus == old(connectionStatus) && initialPrices == old(initialPrices) && notices == old(notices)
      ensures lastUpdate == old(lastUpdate) && lastUpdateTime == old(lastUpdateTime)
      ensures hasReceivedFirstMessage == old(hasReceivedFirstMessage) && wasStale == old(wasStale)
    {
      publishedHistory := history;
    }

    /** Unsubscribing from the stream marks the connection offline. */
    method Close()
      modifies this
      ensures connectionStatus == Offline
      ensures prices == old(prices) && pending == old(pending) && history == old(history)
      ensures initialPrices == old(initialPrices) && notices == old(notices) && publishedHistory == old(publishedHistory)
      ensures lastUpdate == old(lastUpdate) && lastUpdateTime == old(lastUpdateTime)
      ensures hasReceivedFirstMessage == old(hasReceivedFirstMessage) && wasStale == old(wasStale)
    {
      connectionStatus := Offline;
    }
  }

  /** A stale feed that ticks again is live: the watchdog's transition is undone by the next tick. */
  lemma TickAfterStale(s: ConnectionStatus)
    ensures TickStatus(true, Stale) == Live
    ensures TickStatus(true, s) != Stale
  {
  }
}
