/**
 * The client-side candle aggregator: price ticks are bucketed per pair into candles of four
 * timeframes, each series bounded to the most recent `MaxCandles` candles.
 */
module Ohlc {
  import opened Numbers

  datatype Timeframe = M1 | M5 | M15 | H1

  /** The timeframes in the key order of `TIMEFRAME_SECONDS`. */
  const Timeframes: seq<Timeframe> := [M1, M5, M15, H1]

  /** `TIMEFRAME_SECONDS`. */
  function Seconds(tf: Timeframe): (s: nat)
    ensures s in {60, 300, 900, 3600} && s > 0
  {
    match tf
    case M1 => 60
    case M5 => 300
    case M15 => 900
    case H1 => 3600
  }

  /** The position of `tf` in `Timeframes`. */
  function Position(tf: Timeframe): (i: nat)
    ensures i < |Timeframes| && Timeframes[i] == tf
  {
    match tf
    case M1 => 0
    case M5 => 1
    case M15 => 2
    case H1 => 3
  }

  lemma AllTimeframes()
    ensures forall tf :: tf in Timeframes
  {
    forall tf
      ensures tf in Timeframes
    {
      assert Timeframes[Position(tf)] == tf;
    }
  }

  const MaxCandles: nat := 200

  /** One candle; `time` is the start of its bucket in Unix seconds. */
  datatype Candle = Candle(time: int, open: real, high: real, low: real, close: real)

  predicate CandleValid(c: Candle) {
    c.low <= c.open <= c.high && c.low <= c.close <= c.high
  }

  /**
   * `Math.floor(t / interval) * interval`: the start of the bucket of `tf` holding `t`, written per
   * timeframe so that each interval is a literal.
   */
  function BucketStart(t: int, tf: Timeframe): (b: int)
    ensures b <= t < b + Seconds(tf)
  {
    match tf
    case M1 => (t / 60) * 60
    case M5 => (t / 300) * 300
    case M15 => (t / 900) * 900
    case H1 => (t / 3600) * 3600
  }

  /** The bucket start is the floored quotient by the timeframe's length, times that length. */
  lemma BucketStartFormula(t: int, tf: Timeframe)
    ensures BucketStart(t, tf) == (t / Seconds(tf)) * Seconds(tf)
  {
    match tf
    case M1 =>
    case M5 =>
    case M15 =>
    case H1 =>
  }

  /** A bucket start lies in its own bucket: the candle times are multiples of the interval. */
  lemma BucketStartIdempotent(t: int, tf: Timeframe)
    ensures BucketStart(BucketStart(t, tf), tf) == BucketStart(t, tf)
  {
    match tf
    case M1 => assert ((t / 60) * 60) / 60 == t / 60;
    case M5 => assert ((t / 300) * 300) / 300 == t / 300;
    case M15 => assert ((t / 900) * 900) / 900 == t / 900;
    case H1 => assert ((t / 3600) * 3600) / 3600 == t / 3600;
  }

  lemma BucketStartMonotone(t: int, u: int, tf: Timeframe)
    requires t <= u
    ensures BucketStart(t, tf) <= BucketStart(u, tf)
  {
    assert BucketStart(t, tf) < BucketStart(u, tf) + Seconds(tf);
    match tf
    case M1 => assert t / 60 < u / 60 + 1;
    case M5 => assert t / 300 < u / 300 + 1;
    case M15 => assert t / 900 < u / 900 + 1;
    case H1 => assert t / 3600 < u / 3600 + 1;
  }

  /** A series as the aggregator keeps it: bounded, well-formed candles, aligned to the timeframe. */
  ghost predicate SeriesValid(s: seq<Candle>, tf: Timeframe) {
    |s| <= MaxCandles &&
    forall i :: 0 <= i < |s| ==> CandleValid(s[i]) && s[i].time == BucketStart(s[i].time, tf)
  }

  /** One timeframe's step of `addTick`: extend the last candle of the same bucket, or start a new one. */
  function AddToSeries(s: seq<Candle>, price: real, t: int, tf: Timeframe): (r: seq<Candle>)
    ensures |r| >= 1 && r[|r| - 1].time == BucketStart(t, tf) && r[|r| - 1].close == price
    ensures SeriesValid(s, tf) ==> SeriesValid(r, tf)
  {
    BucketStartIdempotent(t, tf);
    var bucket := BucketStart(t, tf);
    if |s| > 0 && s[|s| - 1].time == bucket then
      var last := s[|s| - 1];
      s[..|s| - 1] + [last.(high := Max(last.high, price), low := Min(last.low, price), close := price)]
    else
      var pushed := s + [Candle(bucket, price, price, price, price)];
      if |pushed| > MaxCandles then pushed[1..] else pushed
  }

  /** A tick in the last candle's bucket keeps its time, open and the length, and widens high and low. */
  lemma SameBucketUpdates(s: seq<Candle>, price: real, t: int, tf: Timeframe)
    requires |s| > 0 && s[|s| - 1].time == BucketStart(t, tf)
    ensures var r, last := AddToSeries(s, price, t, tf), s[|s| - 1];
      |r| == |s| && r[..|s| - 1] == s[..|s| - 1] &&
      r[|s| - 1] == Candle(last.time, last.open, Max(last.high, price), Min(last.low, price), price)
  {
  }

  /** A tick in another bucket appends a fresh candle, dropping the oldest one beyond the cap. */
  lemma NewBucketAppends(s: seq<Candle>, price: real, t: int, tf: Timeframe)
    requires |s| <= MaxCandles && (|s| == 0 || s[|s| - 1].time != BucketStart(t, tf))
    ensures var r := AddToSeries(s, price, t, tf);
      var newCandle := Candle(BucketStart(t, tf), price, price, price, price);
      if |s| < MaxCandles then r == s + [newCandle] else r == s[1..] + [newCandle]
  {
  }

  /** Candle times strictly increase. */
  ghost predicate Increasing(s: seq<Candle>) {
    forall i, j :: 0 <= i < j < |s| ==> s[i].time < s[j].time
  }

  /** A tick no earlier than the last candle's bucket keeps the candle times strictly increasing. */
  lemma AddKeepsIncreasing(s: seq<Candle>, price: real, t: int, tf: Timeframe)
    requires Increasing(s) && (|s| == 0 || s[|s| - 1].time <= BucketStart(t, tf))
    ensures Increasing(AddToSeries(s, price, t, tf))
  {
  }

  /** A tick for an earlier bucket is appended all the same, after a later candle. */
  lemma EarlierTickAppended(s: seq<Candle>, price: real, t: int, tf: Timeframe)
    requires |s| >= 2 && BucketStart(t, tf) < s[|s| - 1].time
    ensures var r := AddToSeries(s, price, t, tf);
      |r| >= 2 && r[|r| - 2].time > r[|r| - 1].time
  {
  }

  /** Ticks given as (price, timestamp), fed one after another into one series. */
  function AddAll(s: seq<Candle>, ticks: seq<(real, int)>, tf: Timeframe): (r: seq<Candle>)
    decreases |ticks|
  {
    if ticks == [] then s
    else
      var n := |ticks| - 1;
      AddToSeries(AddAll(s, ticks[..n], tf), ticks[n].0, ticks[n].1, tf)
  }

  function MaxPrice(ticks: seq<(real, int)>): (m: real)
    requires |ticks| > 0
    ensures forall k :: 0 <= k < |ticks| ==> ticks[k].0 <= m
    ensures exists k :: 0 <= k < |ticks| && ticks[k].0 == m
  {
    if |ticks| == 1 then ticks[0].0
    else
      var n := |ticks| - 1;
      var m := MaxPrice(ticks[..n]);
      assert forall k :: 0 <= k < n ==> ticks[..n][k] == ticks[k];
      Max(m, ticks[n].0)
  }

  function MinPrice(ticks: seq<(real, int)>): (m: real)
    requires |ticks| > 0
    ensures forall k :: 0 <= k < |ticks| ==> m <= ticks[k].0
    ensures exists k :: 0 <= k < |ticks| && ticks[k].0 == m
  {
    if |ticks| == 1 then ticks[0].0
    else
      var n := |ticks| - 1;
      var m := MinPrice(ticks[..n]);
      assert forall k :: 0 <= k < n ==> ticks[..n][k] == ticks[k];
      Min(m, ticks[n].0)
  }

  /**
   * Ticks that all fall into one bucket build a single candle on an empty series: opened by the
   * first price, closed by the last, spanning the highest and lowest.
   */
  lemma {:induction false} OneBucketOneCandle(ticks: seq<(real, int)>, tf: Timeframe, bucket: int)
    requires |ticks| > 0
    requires forall k :: 0 <= k < |ticks| ==> BucketStart(ticks[k].1, tf) == bucket
    ensures AddAll([], ticks, tf) ==
      [Candle(bucket, ticks[0].0, MaxPrice(ticks), MinPrice(ticks), ticks[|ticks| - 1].0)]
    decreases |ticks|
  {
    var n := |ticks| - 1;
    if n > 0 {
      var init := ticks[..n];
      assert forall k :: 0 <= k < n ==> init[k] == ticks[k];
      OneBucketOneCandle(init, tf, bucket);
    }
  }

  /** After at least one tick the last candle is the last tick's bucket. */
  lemma AddAllLast(s: seq<Candle>, ticks: seq<(real, int)>, tf: Timeframe)
    requires |ticks| > 0
    ensures var r := AddAll(s, ticks, tf);
      |r| > 0 && r[|r| - 1].time == BucketStart(ticks[|ticks| - 1].1, tf)
  {
  }

  /** Ticks with non-decreasing timestamps build a series with strictly increasing candle times. */
  lemma {:induction false} OrderedTicksIncreasing(ticks: seq<(real, int)>, tf: Timeframe)
    requires forall k :: 0 < k < |ticks| ==> ticks[k - 1].1 <= ticks[k].1
    ensures Increasing(AddAll([], ticks, tf))
    decreases |ticks|
  {
    if ticks != [] {
      var n := |ticks| - 1;
      var init := ticks[..n];
      assert forall k :: 0 <= k < n ==> init[k] == ticks[k];
      OrderedTicksIncreasing(init, tf);
      var prev := AddAll([], init, tf);
      if n > 0 {
        AddAllLast([], init, tf);
        BucketStartMonotone(init[n - 1].1, ticks[n].1, tf);
      }
      AddKeepsIncreasing(prev, ticks[n].0, ticks[n].1, tf);
    }
  }

  /** The body of `addTick`'s loop for one timeframe's series. */
  method TickSeries(candles: seq<Candle>, price: real, timestampSeconds: int, tf: Timeframe) returns (r: seq<Candle>)
    ensures r == AddToSeries(candles, price, timestampSeconds, tf)
  {
    r := candles;
    var bucketStart := BucketStart(timestampSeconds, tf);
    if |r| > 0 && r[|r| - 1].time == bucketStart {
      var last := r[|r| - 1];
      r := r[..|r| - 1] + [last.(high := Max(last.high, price), low := Min(last.low, price), close := price)];
    } else {
      r := r + [Candle(bucketStart, price, price, price, price)];
      if |r| > MaxCandles {
        r := r[1..];
      }
    }
  }

  /** One pair's series of timeframe `tf`, empty when the timeframe has none yet. */
  function SeriesOf(pairCandles: map<Timeframe, seq<Candle>>, tf: Timeframe): (r: seq<Candle>)
    ensures tf in pairCandles ==> r == pairCandles[tf]
    ensures tf !in pairCandles ==> r == []
  {
    if tf in pairCandles then pairCandles[tf] else []
  }

  /** One pair's map after a tick: every timeframe is present and its series has taken the tick. */
  function Ticked(pairCandles: map<Timeframe, seq<Candle>>, price: real, timestampSeconds: int)
    : (r: map<Timeframe, seq<Candle>>)
    ensures forall tf :: tf in r && r[tf] == AddToSeries(SeriesOf(pairCandles, tf), price, timestampSeconds, tf)
  {
    AllTimeframes();
    map tf | tf in Timeframes :: AddToSeries(SeriesOf(pairCandles, tf), price, timestampSeconds, tf)
  }

  /** The loop of `addTick` over one pair's map: every timeframe's series takes the tick. */
  method TickPair(pairCandles: map<Timeframe, seq<Candle>>, price: real, timestampSeconds: int)
    returns (r: map<Timeframe, seq<Candle>>)
    ensures r == Ticked(pairCandles, price, timestampSeconds)
  {
    r := pairCandles;
    for i := 0 to |Timeframes|
      invariant forall tf :: Position(tf) < i ==>
        tf in r && r[tf] == AddToSeries(SeriesOf(pairCandles, tf), price, timestampSeconds, tf)
      invariant forall tf :: Position(tf) >= i ==> SeriesOf(r, tf) == SeriesOf(pairCandles, tf)
    {
      var tf := Timeframes[i];
      assert Position(tf) == i;
      var series := SeriesOf(r, tf);
      series := TickSeries(series, price, timestampSeconds, tf);
      ghost var prev := r;
      r := r[tf := series];
      forall t | t != tf
        ensures SeriesOf(r, t) == SeriesOf(prev, t) && (t in prev ==> t in r && r[t] == prev[t])
      {
      }
    }
    TickedUnique(r, pairCandles, price, timestampSeconds);
  }

  /** A map with every timeframe holding its ticked series is the ticked map. */
  lemma TickedUnique(r: map<Timeframe, seq<Candle>>, pairCandles: map<Timeframe, seq<Candle>>, price: real, timestampSeconds: int)
    requires forall tf :: tf in r && r[tf] == AddToSeries(SeriesOf(pairCandles, tf), price, timestampSeconds, tf)
    ensures r == Ticked(pairCandles, price, timestampSeconds)
  {
    var t := Ticked(pairCandles, price, timestampSeconds);
    assert forall tf :: tf in r.Keys && tf in t.Keys;
    assert r.Keys == t.Keys;
  }

  /** The map of `pair`, empty for an unseen pair. */
  function PairCandles(candles: map<string, map<Timeframe, seq<Candle>>>, pair: string): (r: map<Timeframe, seq<Candle>>)
    ensures pair in candles ==> r == candles[pair]
    ensures pair !in candles ==> r == map[]
  {
    if pair in candles then candles[pair] else map[]
  }

  /** `OHLCAggregator`: per pair, per timeframe, the candle series built so far. */
  class OHLCAggregator {
    var candles: map<string, map<Timeframe, seq<Candle>>>

    ghost predicate Valid()
      reads this
    {
      forall pair, tf :: pair in candles && tf in candles[pair] ==> SeriesValid(candles[pair][tf], tf)
    }

    constructor()
      ensures Valid() && candles == map[]
    {
      candles := map[];
    }

    /** `getCandles`: the series, or the empty series for an unseen pair or timeframe. */
    function GetCandles(pair: string, tf: Timeframe): (r: seq<Candle>)
      reads this
      ensures pair !in candles || tf !in candles[pair] ==> r == []
      ensures Valid() ==> SeriesValid(r, tf)
    {
      if pair in candles then SeriesOf(candles[pair], tf) else []
    }

    /** `addTick`: every timeframe series of `pair` takes the tick; no other pair changes. */
    method AddTick(pair: string, price: real, timestampSeconds: int)
      requires Valid()
      modifies this
      ensures Valid()
      ensures candles == old(candles)[pair := Ticked(PairCandles(old(candles), pair), price, timestampSeconds)]
    {
      var pairCandles := if pair in candles then candles[pair] else map[];
      pairCandles := TickPair(pairCandles, price, timestampSeconds);
      candles := candles[pair := pairCandles];
    }

    /** `hasData`: some series of the pair holds a candle. */
    method HasData(pair: string) returns (b: bool)
      ensures b <==> exists tf :: GetCandles(pair, tf) != []
    {
      if pair !in candles {
        return false;
      }
      var pairCandles := candles[pair];
      for i := 0 to |Timeframes|
        invariant forall tf :: Position(tf) < i ==> GetCandles(pair, tf) == []
      {
        var tf := Timeframes[i];
        assert Position(tf) == i;
        if tf in pairCandles && |pairCandles[tf]| > 0 {
          assert GetCandles(pair, tf) != [];
          return true;
        }
      }
      return false;
    }
  }
}
