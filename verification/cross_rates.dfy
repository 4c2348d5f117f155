/**
 * The cross-rates matrix: every market row with a positive rate is stored under its own pair and,
 * inverted, under the reversed pair; a cell is the direct entry or, failing that, the product of
 * the legs through USD.
 */
module CrossRates {
  import opened Wrappers
  import opened Markets
  import opened MarketData
  import opened PriceMath

  /** A cell of the matrix: a rate and its 24h change, when one is known. */
  datatype Quote = Quote(rate: real, change: Option<real>)

  /** The lookup, keyed by `(base, quote)`; the source keys it by the text `BASE/QUOTE`. */
  type Lookup = map<(Iso, Iso), Quote>

  /** The currencies along both axes of the matrix. */
  const Currencies: seq<Iso> := [USD, EUR, JPY, GBP, CHF, BRL, MXN, TRY, ZAR]

  /** The change of the inverse rate: the opposite percentage, or still unknown. */
  function Negated(change: Option<real>): (n: Option<real>)
    ensures n.Some? <==> change.Some?
    ensures n.Some? ==> n.value == -change.value
  {
    if change.Some? then Some(-change.value) else None
  }

  /** Whether `row` writes the key `k`: its pair or the reversed pair, for a positive rate. */
  predicate Touches(row: MarketRow, k: (Iso, Iso)) {
    row.rate > 0.0 && (k == (row.market.base, row.market.quote) || k == (row.market.quote, row.market.base))
  }

  /**
   * What `row` leaves under `k`: the inverted quote under the reversed pair (written second, so it
   * also wins for a pair of one currency with itself), the row's own quote under its pair.
   */
  function Entry(row: MarketRow, k: (Iso, Iso)): (q: Quote)
    requires Touches(row, k)
    ensures q.rate > 0.0
  {
    if k == (row.market.quote, row.market.base) then Quote(1.0 / row.rate, Negated(row.change24h))
    else Quote(row.rate, row.change24h)
  }

  /** One pass of the loop body of `buildRateLookup`. */
  function Store(lookup: Lookup, row: MarketRow): (l: Lookup)
    ensures forall k :: k in l <==> k in lookup || Touches(row, k)
    ensures forall k :: k in l ==> l[k] == if Touches(row, k) then Entry(row, k) else lookup[k]
  {
    if row.rate <= 0.0 then lookup
    else
      var (b, q) := (row.market.base, row.market.quote);
      lookup[(b, q) := Quote(row.rate, row.change24h)][(q, b) := Quote(1.0 / row.rate, Negated(row.change24h))]
  }

  /** The lookup `buildRateLookup` returns for `rows`: every rate in it is positive. */
  function RateLookup(rows: seq<MarketRow>): (lookup: Lookup)
    ensures forall k :: k in lookup ==> lookup[k].rate > 0.0
    decreases |rows|
  {
    if rows == [] then map[] else Store(RateLookup(rows[..|rows| - 1]), rows[|rows| - 1])
  }

  /** `buildRateLookup`: the loop over the market rows. */
  method BuildRateLookup(markets: seq<MarketRow>) returns (lookup: Lookup)
    ensures lookup == RateLookup(markets)
  {
    lookup := map[];
    for i := 0 to |markets|
      invariant lookup == RateLookup(markets[..i])
    {
      var row := markets[i];
      if row.rate > 0.0 {
        var (b, q) := (row.market.base, row.market.quote);
        lookup := lookup[(b, q) := Quote(row.rate, row.change24h)];
        lookup := lookup[(q, b) := Quote(1.0 / row.rate, Negated(row.change24h))];
      }
      assert markets[..i + 1][..i] == markets[..i];
    }
    assert markets[..|markets|] == markets;
  }

  /**
   * A key is in the lookup exactly when some row with a positive rate has that pair or its reverse,
   * and it holds what the last such row left there.
   */
  lemma {:induction false} LookupIsLastTouch(rows: seq<MarketRow>, k: (Iso, Iso))
    ensures k in RateLookup(rows) <==> exists i :: 0 <= i < |rows| && Touches(rows[i], k)
    ensures k in RateLookup(rows) ==>
      exists i :: 0 <= i < |rows| && Touches(rows[i], k) &&
        RateLookup(rows)[k] == Entry(rows[i], k) && forall j :: i < j < |rows| ==> !Touches(rows[j], k)
    decreases |rows|
  {
    if rows != [] {
      var n := |rows| - 1;
      var front := rows[..n];
      LookupIsLastTouch(front, k);
      assert forall i :: 0 <= i < n ==> front[i] == rows[i];
      if !Touches(rows[n], k) && k in RateLookup(rows) {
        var i :| 0 <= i < n && Touches(front[i], k) &&
          RateLookup(front)[k] == Entry(front[i], k) && forall j :: i < j < n ==> !Touches(front[j], k);
        assert forall j :: i < j < |rows| ==> !Touches(rows[j], k);
      }
    }
  }

  /** `back` is the inverse of `there`: inverse rates and opposite changes. */
  predicate Inverse(there: Quote, back: Quote) {
    there.rate * back.rate == 1.0 && back.change == Negated(there.change)
  }

  /** Each key other than a pair of one currency with itself has its reverse, holding the inverse quote. */
  ghost predicate Reciprocal<K(!new)>(l: map<(K, K), Quote>) {
    forall b, q :: (b, q) in l && b != q ==> (q, b) in l && Inverse(l[(b, q)], l[(q, b)])
  }

  /** The two entries a row writes are inverse to each other. */
  lemma EntriesInverse(row: MarketRow, k: (Iso, Iso))
    requires Touches(row, k) && k.0 != k.1
    ensures Touches(row, (k.1, k.0)) && Inverse(Entry(row, k), Entry(row, (k.1, k.0)))
  {
    var r := row.rate;
    assert r * (1.0 / r) == 1.0;
  }

  /** Storing a row keeps the lookup reciprocal. */
  lemma StoreReciprocal(l: Lookup, row: MarketRow)
    requires Reciprocal(l)
    ensures Reciprocal(Store(l, row))
  {
    var l' := Store(l, row);
    forall b, q | (b, q) in l' && b != q
      ensures (q, b) in l' && Inverse(l'[(b, q)], l'[(q, b)])
    {
      if Touches(row, (b, q)) {
        EntriesInverse(row, (b, q));
      } else {
        assert !Touches(row, (q, b));
      }
    }
  }

  /** The inverse entries keep the lookup reciprocal, whatever the order of the rows. */
  lemma {:induction false} LookupReciprocal(rows: seq<MarketRow>)
    ensures Reciprocal(RateLookup(rows))
    decreases |rows|
  {
    if rows != [] {
      var n := |rows| - 1;
      LookupReciprocal(rows[..n]);
      StoreReciprocal(RateLookup(rows[..n]), rows[n]);
    }
  }

  /**
   * `getCrossRate`, with the currency it crosses through as `hub`: nothing on the diagonal; the
   * direct entry when there is one; otherwise the product of the legs through the hub, whose change
   * is unknown; otherwise nothing.
   */
  function CrossVia<K(==)>(base: K, quote: K, hub: K, lookup: map<(K, K), Quote>): (r: Option<Quote>)
    ensures base == quote ==> r.None?
    ensures base != quote && (base, quote) in lookup ==> r == Some(lookup[(base, quote)])
    ensures base != quote && (base, quote) !in lookup ==>
      (r.Some? <==> (base, hub) in lookup && (hub, quote) in lookup) &&
      (r.Some? ==> r.value.change.None? && r.value.rate == lookup[(base, hub)].rate * lookup[(hub, quote)].rate)
  {
    if base == quote then None
    else if (base, quote) in lookup then Some(lookup[(base, quote)])
    else if (base, hub) in lookup && (hub, quote) in lookup then
      Some(Quote(lookup[(base, hub)].rate * lookup[(hub, quote)].rate, None))
    else None
  }

  /** `getCrossRate` as the matrix calls it: crossing through USD. */
  function GetCrossRate(base: Iso, quote: Iso, lookup: Lookup): Option<Quote> {
    CrossVia(base, quote, USD, lookup)
  }

  /** Two mirrored cells: both empty, or both filled with a positive rate and its inverse. */
  predicate CellsInverse(there: Option<Quote>, back: Option<Quote>) {
    (there.Some? <==> back.Some?) && (there.Some? ==> there.value.rate > 0.0 && Inverse(there.value, back.value))
  }

  /** Every rate in the lookup is positive. */
  predicate Positive<K(==)>(l: map<(K, K), Quote>) {
    forall k :: k in l ==> l[k].rate > 0.0
  }

  /**
   * Over a reciprocal lookup of positive rates, the cell for `(quote, base)` is filled exactly when
   * the cell for `(base, quote)` is, with the inverse quote.
   */
  lemma CrossRateInverse<K(!new)>(l: map<(K, K), Quote>, base: K, quote: K, hub: K)
    requires Reciprocal(l) && Positive(l)
    ensures CellsInverse(CrossVia(base, quote, hub, l), CrossVia(quote, base, hub, l))
  {
    if base != quote {
      if (base, quote) in l {
        assert (quote, base) in l && Inverse(l[(base, quote)], l[(quote, base)]);
      } else {
        assert (quote, base) !in l;
        ViaHubInverse(l, base, quote, hub);
      }
    }
  }

  /** The same when neither direction is stored: both cells come from the legs through the hub. */
  lemma ViaHubInverse<K(!new)>(l: map<(K, K), Quote>, base: K, quote: K, hub: K)
    requires Reciprocal(l) && Positive(l)
    requires base != quote && (base, quote) !in l && (quote, base) !in l
    ensures CellsInverse(CrossVia(base, quote, hub, l), CrossVia(quote, base, hub, l))
  {
    if base == hub || quote == hub {
      assert CrossVia(base, quote, hub, l).None? && CrossVia(quote, base, hub, l).None?;
    } else if (base, hub) in l && (hub, quote) in l {
      assert (hub, base) in l && (quote, hub) in l;
      LegsInverse(l, base, quote, hub);
    } else {
      assert (quote, hub) !in l || (hub, base) !in l;
      assert CrossVia(base, quote, hub, l).None? && CrossVia(quote, base, hub, l).None?;
    }
  }

  /** Both legs through the hub are stored, and so are their reverses: the two crossings are inverse. */
  lemma LegsInverse<K>(l: map<(K, K), Quote>, base: K, quote: K, hub: K)
    requires base != quote && (base, quote) !in l && (quote, base) !in l && base != hub && quote != hub
    requires (base, hub) in l && (hub, base) in l && Inverse(l[(base, hub)], l[(hub, base)])
    requires (hub, quote) in l && (quote, hub) in l && Inverse(l[(hub, quote)], l[(quote, hub)])
    requires l[(base, hub)].rate > 0.0 && l[(hub, quote)].rate > 0.0
    ensures CrossVia(base, quote, hub, l).Some? && CrossVia(quote, base, hub, l).Some?
    ensures CrossVia(base, quote, hub, l).value.rate > 0.0
    ensures Inverse(CrossVia(base, quote, hub, l).value, CrossVia(quote, base, hub, l).value)
  {
    var there := CrossVia(base, quote, hub, l).value;
    var back := CrossVia(quote, base, hub, l).value;
    var (a, a', c, c') := (l[(base, hub)].rate, l[(hub, base)].rate, l[(hub, quote)].rate, l[(quote, hub)].rate);
    assert there.rate == a * c && back.rate == c' * a';
    Reciprocals(there.rate, back.rate, a, a', c, c');
  }

  /** Crossing two legs and crossing back through their inverses gives inverse rates. */
  lemma Reciprocals(x: real, y: real, a: real, a': real, c: real, c': real)
    requires x == a * c && y == c' * a' && a * a' == 1.0 && c * c' == 1.0 && a > 0.0 && c > 0.0
    ensures x * y == 1.0 && x > 0.0
  {
    calc {
      x * y;
      (a * c) * (c' * a');
      (a * a') * (c * c');
    }
  }

  /**
   * Over the lookup of any rows, the cell for `(quote, base)` is filled exactly when the cell for
   * `(base, quote)` is, with a positive inverse rate and, for a direct entry, the opposite change.
   */
  lemma CrossRateReciprocal(rows: seq<MarketRow>, base: Iso, quote: Iso)
    ensures CellsInverse(GetCrossRate(base, quote, RateLookup(rows)), GetCrossRate(quote, base, RateLookup(rows)))
  {
    LookupReciprocal(rows);
    CrossRateInverse(RateLookup(rows), base, quote, USD);
  }

  /** The matrix: one row per base currency, one column per quote currency. */
  function Matrix(lookup: Lookup): (m: seq<seq<Option<Quote>>>)
    ensures |m| == |Currencies| && forall i :: 0 <= i < |m| ==> |m[i]| == |Currencies|
  {
    seq(|Currencies|, i requires 0 <= i < |Currencies| =>
      seq(|Currencies|, j requires 0 <= j < |Currencies| => GetCrossRate(Currencies[i], Currencies[j], lookup)))
  }

  /**
   * The matrix of any rows is empty on its diagonal and reciprocal across it: cell `(i, j)` is
   * filled exactly when cell `(j, i)` is, and their rates multiply to one.
   */
  lemma MatrixReciprocal(rows: seq<MarketRow>, i: nat, j: nat)
    requires i < |Currencies| && j < |Currencies|
    ensures var m := Matrix(RateLookup(rows));
      m[i][i].None? && CellsInverse(m[i][j], m[j][i])
  {
    CrossRateReciprocal(rows, Currencies[i], Currencies[j]);
  }

  /**
   * Over the rows of the markets table, a market with a positive rate fills its own cell with its
   * rate and change, and the reversed cell with the inverse; without one, its pair is not stored.
   */
  lemma MarketRowInLookup(prices: map<string, OraclePrice>, initial: map<string, real>, i: nat)
    requires i < |FxMarkets|
    ensures var rows := Rows(prices, initial);
      var (b, q) := (FxMarkets[i].base, FxMarkets[i].quote);
      var l := RateLookup(rows);
      ((b, q) in l <==> rows[i].rate > 0.0) && ((q, b) in l <==> rows[i].rate > 0.0) &&
      (rows[i].rate > 0.0 ==>
        l[(b, q)] == Quote(rows[i].rate, rows[i].change24h) &&
        l[(q, b)] == Quote(1.0 / rows[i].rate, Negated(rows[i].change24h)) &&
        GetCrossRate(b, q, l) == Some(Quote(rows[i].rate, rows[i].change24h)))
  {
    var rows := Rows(prices, initial);
    var (b, q) := (FxMarkets[i].base, FxMarkets[i].quote);
    CurrencyPairsDistinct();
    assert b != q;
    forall j | 0 <= j < |rows| && j != i
      ensures !Touches(rows[j], (b, q)) && !Touches(rows[j], (q, b))
    {
      assert rows[j].market == FxMarkets[j];
    }
    LookupIsLastTouch(rows, (b, q));
    LookupIsLastTouch(rows, (q, b));
  }
}
