/**
 * The market list of `useMarketData`: the rows, optionally restricted to the tradeable ones and
 * to those matching a search term, in a stable sort on one of five fields.
 */
module MarketFilter {
  import opened Wrappers
  import opened Markets
  import opened MarketData
  import opened Seqs
  import opened Strings
  import opened Sorting

  datatype SortField = ByPair | ByRate | ByChange24h | ByTradeable | ByGlobalVolume
  datatype SortDirection = Asc | Desc

  /** The hook's options; each one may be absent. */
  datatype Options = Options(
    search: Option<string>, sortField: Option<SortField>, sortDirection: Option<SortDirection>, tradeableOnly: Option<bool>)

  /** No options at all. */
  const NoOptions: Options := Options(None, None, None, None)

  /** A search is applied only for a non-empty term. */
  predicate Searching(o: Options) {
    o.search.Some? && o.search.value != ""
  }

  /** A row matches an upper-cased term found in its pair id, its base or its quote. */
  predicate Matches(term: string, r: MarketRow) {
    Contains(r.market.pair, term) || Contains(IsoName(r.market.base), term) || Contains(IsoName(r.market.quote), term)
  }

  /** The two filters: the tradeable rows when asked for, then the rows matching the search. */
  function Selected(rows: seq<MarketRow>, o: Options): (r: seq<MarketRow>)
    ensures |r| <= |rows|
  {
    var tradeable := if o.tradeableOnly == Some(true) then Filter((r: MarketRow) => r.tradeable, rows) else rows;
    if Searching(o) then Filter((r: MarketRow) => Matches(ToUpper(o.search.value), r), tradeable) else tradeable
  }

  /** A row is kept exactly when it is tradeable (if asked) and matches the upper-cased term (if any). */
  lemma SelectedMembers(rows: seq<MarketRow>, o: Options, row: MarketRow)
    ensures row in Selected(rows, o) <==>
      row in rows &&
      (o.tradeableOnly == Some(true) ==> row.tradeable) &&
      (Searching(o) ==> Matches(ToUpper(o.search.value), row))
  {
    FilterMembers((r: MarketRow) => r.tradeable, rows);
    var tradeable := if o.tradeableOnly == Some(true) then Filter((r: MarketRow) => r.tradeable, rows) else rows;
    if Searching(o) {
      FilterMembers((r: MarketRow) => Matches(ToUpper(o.search.value), r), tradeable);
    }
  }

  /** `change24h ?? 0`. */
  function ChangeOrZero(r: MarketRow): real {
    r.change24h.GetOr(0.0)
  }

  function Volume(r: MarketRow): real {
    r.market.globalVolume24h as real
  }

  /** `Number(b)`. */
  function NumberOf(b: bool): real {
    if b then 1.0 else 0.0
  }

  /** The comparator before the direction's multiplier. */
  function Compare(field: SortField, a: MarketRow, b: MarketRow): real {
    match field
    case ByPair => LocaleCompare(a.market.pair, b.market.pair)
    case ByRate => a.rate - b.rate
    case ByChange24h => ChangeOrZero(a) - ChangeOrZero(b)
    case ByTradeable =>
      var tradeableDiff := NumberOf(b.tradeable) - NumberOf(a.tradeable);
      if tradeableDiff != 0.0 then tradeableDiff else Volume(b) - Volume(a)
    case ByGlobalVolume => Volume(a) - Volume(b)
  }

  /** The comparator: the multiplier of the direction applies to every field but "tradeable". */
  function Comparator(field: SortField, dir: SortDirection, a: MarketRow, b: MarketRow): real {
    if field == ByTradeable then Compare(field, a, b)
    else (if dir == Asc then 1.0 else -1.0) * Compare(field, a, b)
  }

  /** `a` may precede `b`: the comparator is not positive. */
  function Order(field: SortField, dir: SortDirection): (MarketRow, MarketRow) -> bool {
    (a, b) => Comparator(field, dir, a, b) <= 0.0
  }

  /**
   * `filtered`: the selected rows in a stable sort of a copy, on the pair ascending unless the
   * options say otherwise; a permutation of the selected rows.
   */
  function Filtered(rows: seq<MarketRow>, o: Options): (r: seq<MarketRow>)
    ensures multiset(r) == multiset(Selected(rows, o)) && |r| == |Selected(rows, o)|
  {
    SortBy(Selected(rows, o), Order(o.sortField.GetOr(ByPair), o.sortDirection.GetOr(Asc)))
  }

  /** The rows shown are exactly the selected rows. */
  lemma FilteredMembers(rows: seq<MarketRow>, o: Options, row: MarketRow)
    ensures row in Filtered(rows, o) <==>
      row in rows &&
      (o.tradeableOnly == Some(true) ==> row.tradeable) &&
      (Searching(o) ==> Matches(ToUpper(o.search.value), row))
  {
    SelectedMembers(rows, o, row);
    assert row in Filtered(rows, o) <==> row in multiset(Filtered(rows, o));
    assert row in Selected(rows, o) <==> row in multiset(Selected(rows, o));
  }

  lemma PairOrder(dir: SortDirection, a: MarketRow, b: MarketRow)
    ensures Order(ByPair, dir)(a, b) <==> if dir == Asc then LexLe(a.market.pair, b.market.pair) else LexLe(b.market.pair, a.market.pair)
  {
    LocaleCompareOrder(a.market.pair, b.market.pair);
  }

  /** "tradeable": tradeable rows first, then the higher volume first, whatever the direction. */
  lemma TradeableOrder(dir: SortDirection, a: MarketRow, b: MarketRow)
    ensures Order(ByTradeable, dir)(a, b) <==>
      (a.tradeable && !b.tradeable) || (a.tradeable == b.tradeable && Volume(a) >= Volume(b))
  {
  }

  /** Every field's comparator, in both directions, orders the rows consistently. */
  lemma OrderTotalPreorder(field: SortField, dir: SortDirection)
    ensures TotalPreorder(Order(field, dir))
  {
    var le := Order(field, dir);
    if field == ByPair {
      forall a, b
        ensures le(a, b) || le(b, a)
      {
        PairOrder(dir, a, b);
        PairOrder(dir, b, a);
        LexLeTotal(a.market.pair, b.market.pair);
      }
      forall a, b, c | le(a, b) && le(b, c)
        ensures le(a, c)
      {
        PairOrder(dir, a, b);
        PairOrder(dir, b, c);
        PairOrder(dir, a, c);
        if dir == Asc {
          LexLeTransitive(a.market.pair, b.market.pair, c.market.pair);
        } else {
          LexLeTransitive(c.market.pair, b.market.pair, a.market.pair);
        }
      }
    } else if field == ByTradeable {
      forall a, b
        ensures le(a, b) || le(b, a)
      {
        TradeableOrder(dir, a, b);
        TradeableOrder(dir, b, a);
      }
      forall a, b, c | le(a, b) && le(b, c)
        ensures le(a, c)
      {
        TradeableOrder(dir, a, b);
        TradeableOrder(dir, b, c);
        TradeableOrder(dir, a, c);
      }
    }
  }

  /** The "pair" field orders the ids by code units, ascending or descending. */
  lemma SortedByPair(rows: seq<MarketRow>, o: Options)
    requires o.sortField.GetOr(ByPair) == ByPair
    ensures var r := Filtered(rows, o);
      forall i, j :: 0 <= i < j < |r| ==>
        if o.sortDirection.GetOr(Asc) == Asc then LexLe(r[i].market.pair, r[j].market.pair)
        else LexLe(r[j].market.pair, r[i].market.pair)
  {
    var dir := o.sortDirection.GetOr(Asc);
    var r := Filtered(rows, o);
    OrderTotalPreorder(ByPair, dir);
    SortBySorted(Selected(rows, o), Order(ByPair, dir));
    forall i, j | 0 <= i < j < |r|
      ensures if dir == Asc then LexLe(r[i].market.pair, r[j].market.pair) else LexLe(r[j].market.pair, r[i].market.pair)
    {
      PairOrder(dir, r[i], r[j]);
    }
  }

  /** "rate" sorts ascending for "asc" and descending for "desc". */
  lemma SortedByRate(rows: seq<MarketRow>, o: Options)
    requires o.sortField == Some(ByRate)
    ensures var r := Filtered(rows, o);
      forall i, j :: 0 <= i < j < |r| ==>
        if o.sortDirection.GetOr(Asc) == Asc then r[i].rate <= r[j].rate else r[i].rate >= r[j].rate
  {
    OrderTotalPreorder(ByRate, o.sortDirection.GetOr(Asc));
    SortBySorted(Selected(rows, o), Order(ByRate, o.sortDirection.GetOr(Asc)));
  }

  /** "change24h" sorts like "rate", a missing change counting as zero. */
  lemma SortedByChange(rows: seq<MarketRow>, o: Options)
    requires o.sortField == Some(ByChange24h)
    ensures var r := Filtered(rows, o);
      forall i, j :: 0 <= i < j < |r| ==>
        if o.sortDirection.GetOr(Asc) == Asc then ChangeOrZero(r[i]) <= ChangeOrZero(r[j])
        else ChangeOrZero(r[i]) >= ChangeOrZero(r[j])
  {
    OrderTotalPreorder(ByChange24h, o.sortDirection.GetOr(Asc));
    SortBySorted(Selected(rows, o), Order(ByChange24h, o.sortDirection.GetOr(Asc)));
  }

  /** "globalVolume" sorts ascending for "asc" and descending for "desc". */
  lemma SortedByVolume(rows: seq<MarketRow>, o: Options)
    requires o.sortField == Some(ByGlobalVolume)
    ensures var r := Filtered(rows, o);
      forall i, j :: 0 <= i < j < |r| ==>
        if o.sortDirection.GetOr(Asc) == Asc then Volume(r[i]) <= Volume(r[j]) else Volume(r[i]) >= Volume(r[j])
  {
    OrderTotalPreorder(ByGlobalVolume, o.sortDirection.GetOr(Asc));
    SortBySorted(Selected(rows, o), Order(ByGlobalVolume, o.sortDirection.GetOr(Asc)));
  }

  /** "tradeable" puts every tradeable row before every other, each group by descending volume, in both directions. */
  lemma SortedByTradeable(rows: seq<MarketRow>, o: Options)
    requires o.sortField == Some(ByTradeable)
    ensures var r := Filtered(rows, o);
      forall i, j :: 0 <= i < j < |r| ==>
        (r[j].tradeable ==> r[i].tradeable) &&
        (r[i].tradeable == r[j].tradeable ==> Volume(r[i]) >= Volume(r[j]))
  {
    var dir := o.sortDirection.GetOr(Asc);
    var r := Filtered(rows, o);
    OrderTotalPreorder(ByTradeable, dir);
    SortBySorted(Selected(rows, o), Order(ByTradeable, dir));
    forall i, j | 0 <= i < j < |r|
      ensures (r[j].tradeable ==> r[i].tradeable) && (r[i].tradeable == r[j].tradeable ==> Volume(r[i]) >= Volume(r[j]))
    {
      TradeableOrder(dir, r[i], r[j]);
    }
  }

  /** Without options every row is shown, ordered by ascending pair id. */
  lemma DefaultOptions(rows: seq<MarketRow>)
    ensures multiset(Filtered(rows, NoOptions)) == multiset(rows)
    ensures var r := Filtered(rows, NoOptions);
      forall i, j :: 0 <= i < j < |r| ==> LexLe(r[i].market.pair, r[j].market.pair)
  {
    SortedByPair(rows, NoOptions);
  }
}
