/**
 * The peg-arbitrage panel: the scanned opportunities are deduplicated per unordered pair, offered
 * per currency, filtered by the chosen currency and sorted by the chosen column.
 */
module ArbitragePanel {
  import opened Wrappers
  import opened Numbers
  import opened Strings
  import opened Seqs
  import opened Sorting
  import opened BestPerKey
  import opened Tokens
  import opened ArbitrageScan

  /** Records whose spread exceeds this many percent are treated as bad quotes. */
  const MaxPlausibleSpread: real := 50.0

  /** The three guards of the dedup loop: liquid, plausible spread, peg arbitrage. */
  predicate Plausible(o: ArbitrageOpportunity) {
    o.hasLiquidity && Abs(o.spreadPercent) <= MaxPlausibleSpread && o.isPegArb
  }

  /** The two symbols in code-unit order, joined by ":". */
  function PairKey(a: string, b: string): (k: string)
    ensures k == a + ":" + b || k == b + ":" + a
  {
    if LexLe(a, b) then a + ":" + b else b + ":" + a
  }

  function KeyOf(o: ArbitrageOpportunity): string {
    PairKey(o.inputToken, o.outputToken)
  }

  /** Both directions of a pair share one key. */
  lemma PairKeySymmetric(a: string, b: string)
    ensures PairKey(a, b) == PairKey(b, a)
  {
    LexLeTotal(a, b);
    if LexLe(a, b) && LexLe(b, a) {
      LexLeAntisymmetric(a, b);
    }
  }

  // ---------------------------------------------------------------------------------------------
  // Deduplication

  /** The size compared between the two directions of a pair. */
  function SpreadSize(o: ArbitrageOpportunity): real {
    Abs(o.spreadPercent)
  }

  /** `Array.from(pairMap.values())` after the loop of `deduped`. */
  function Deduped(opps: seq<ArbitrageOpportunity>): seq<ArbitrageOpportunity> {
    Picked(opps, Plausible, KeyOf, SpreadSize)
  }

  /** `deduped`: a map keyed by the unordered pair, with its keys kept in insertion order. */
  method Dedupe(opportunities: seq<ArbitrageOpportunity>) returns (deduped: seq<ArbitrageOpportunity>)
    ensures deduped == Deduped(opportunities)
  {
    var pairMap: map<string, ArbitrageOpportunity> := map[];
    var order: seq<string> := [];
    for i := 0 to |opportunities|
      invariant var g := Group(opportunities[..i], Plausible, KeyOf, SpreadSize);
        order == g.keys && (forall k :: k in pairMap <==> k in g.best) &&
        (forall k :: k in pairMap ==> pairMap[k] == opportunities[g.best[k]])
    {
      assert opportunities[..i + 1][..i] == opportunities[..i];
      var opp := opportunities[i];
      if !opp.hasLiquidity { continue; }
      if Abs(opp.spreadPercent) > MaxPlausibleSpread { continue; }
      if !opp.isPegArb { continue; }
      var key := PairKey(opp.inputToken, opp.outputToken);
      if key !in pairMap || Abs(opp.spreadPercent) > Abs(pairMap[key].spreadPercent) {
        if key !in pairMap {
          order := order + [key];
        }
        pairMap := pairMap[key := opp];
      }
    }
    assert opportunities[..|opportunities|] == opportunities;
    deduped := seq(|order|, i requires 0 <= i < |order| => pairMap[order[i]]);
  }

  /**
   * What `deduped` shows: only plausible records, one per unordered pair, each at least as far from
   * par as every plausible record of its pair, and every pair with a plausible record is shown.
   */
  lemma DedupedProperties(opps: seq<ArbitrageOpportunity>)
    ensures var r := Deduped(opps);
      (forall i :: 0 <= i < |r| ==> Plausible(r[i])) &&
      (forall i, j :: 0 <= i < j < |r| ==> KeyOf(r[i]) != KeyOf(r[j])) &&
      (forall q :: 0 <= q < |opps| && Plausible(opps[q]) ==>
        exists i :: (0 <= i < |r| && KeyOf(r[i]) == KeyOf(opps[q]) &&
          Abs(opps[q].spreadPercent) <= Abs(r[i].spreadPercent)))
  {
    PickedBest(opps, Plausible, KeyOf, SpreadSize);
  }

  /** The record kept for a pair is the earliest of the plausible records of that pair with the largest |spread|. */
  lemma DedupedKeepsEarliestBest(opps: seq<ArbitrageOpportunity>, i: nat)
    requires i < |Deduped(opps)|
    ensures exists w :: (0 <= w < |opps| && Deduped(opps)[i] == opps[w] &&
      EarliestBest(opps, Plausible, KeyOf, SpreadSize, KeyOf(opps[w]), w))
  {
    var g := Group(opps, Plausible, KeyOf, SpreadSize);
    GroupSound(opps, Plausible, KeyOf, SpreadSize);
    GroupBest(opps, Plausible, KeyOf, SpreadSize);
    var w := g.best[g.keys[i]];
    assert Deduped(opps)[i] == opps[w];
    assert KeyOf(opps[w]) == g.keys[i];
  }

  /** The pairs appear in the order of their first plausible record. */
  lemma DedupedOrder(opps: seq<ArbitrageOpportunity>, a: nat, b: nat, q: nat)
    requires a < b < |Deduped(opps)| && q < |opps| && Plausible(opps[q]) && KeyOf(opps[q]) == KeyOf(Deduped(opps)[b])
    ensures exists p :: 0 <= p < q && Plausible(opps[p]) && KeyOf(opps[p]) == KeyOf(Deduped(opps)[a])
  {
    PickedOrder(opps, Plausible, KeyOf, SpreadSize, a, b, q);
  }

  // ---------------------------------------------------------------------------------------------
  // Currencies and the currency filter

  /** `getPegCurrency`: the registry currency of the input token, or "OTHER" for an unknown symbol. */
  function PegCurrency(o: ArbitrageOpportunity): (c: string)
    ensures c == "OTHER" <==> GetTokenBySymbol(o.inputToken).None?
    ensures GetTokenBySymbol(o.inputToken).Some? ==> ParseCode(c) == Some(GetTokenBySymbol(o.inputToken).value.currency)
  {
    match GetTokenBySymbol(o.inputToken)
    case Some(t) => ParseCodeName(t.currency); CodeName(t.currency)
    case None => "OTHER"
  }

  /** `availableCurrencies`: the peg currencies of the shown records, in a set, then sorted. */
  method AvailableCurrencies(deduped: seq<ArbitrageOpportunity>) returns (r: seq<string>)
    ensures forall c :: c in r <==> exists j :: 0 <= j < |deduped| && PegCurrency(deduped[j]) == c
    ensures forall i, j :: 0 <= i < j < |r| ==> LexLe(r[i], r[j]) && r[i] != r[j]
  {
    var currencies := DistinctImages(deduped, PegCurrency);
    r := SortedNames(currencies);
  }

  /** `Array.prototype.sort` on duplicate-free strings: the same members, strictly increasing. */
  function SortedNames(names: seq<string>): (r: seq<string>)
    requires Distinct(names)
    ensures forall c :: c in r <==> c in names
    ensures forall i, j :: 0 <= i < j < |r| ==> LexLe(r[i], r[j]) && r[i] != r[j]
  {
    var r := SortBy(names, LexLe);
    LexLeTotalPreorder();
    SortBySorted(names, LexLe);
    PermutationDistinct(r, names);
    assert forall c :: c in r <==> c in multiset(r);
    assert forall c :: c in names <==> c in multiset(names);
    r
  }

  lemma LexLeTotalPreorder()
    ensures TotalPreorder(LexLe)
  {
    forall a, b
      ensures LexLe(a, b) || LexLe(b, a)
    {
      LexLeTotal(a, b);
    }
    forall a, b, c | LexLe(a, b) && LexLe(b, c)
      ensures LexLe(a, c)
    {
      LexLeTransitive(a, b, c);
    }
  }

  /** `filtered`: "all" shows every deduplicated record, a currency only the records pegged to it. */
  function Filtered(deduped: seq<ArbitrageOpportunity>, currencyFilter: string): (r: seq<ArbitrageOpportunity>)
    ensures currencyFilter == "all" ==> r == deduped
    ensures currencyFilter != "all" ==> |r| <= |deduped| && forall i :: 0 <= i < |r| ==> PegCurrency(r[i]) == currencyFilter
  {
    if currencyFilter == "all" then deduped
    else Filter(o => PegCurrency(o) == currencyFilter, deduped)
  }

  /** A currency filter drops exactly the records of other currencies. */
  lemma FilteredMembers(deduped: seq<ArbitrageOpportunity>, currencyFilter: string)
    requires currencyFilter != "all"
    ensures forall o :: o in Filtered(deduped, currencyFilter) <==> o in deduped && PegCurrency(o) == currencyFilter
  {
    FilterMembers(o => PegCurrency(o) == currencyFilter, deduped);
  }

  // ---------------------------------------------------------------------------------------------
  // Sorting

  datatype SortKey = BySpread | ByPair | ByDexRate

  /** The comparator before the direction is applied. */
  function Compare(key: SortKey, a: ArbitrageOpportunity, b: ArbitrageOpportunity): real {
    match key
    case BySpread => Abs(b.spreadPercent) - Abs(a.spreadPercent)
    case ByPair => LocaleCompare(a.inputToken + a.outputToken, b.inputToken + b.outputToken)
    case ByDexRate => b.dexRate - a.dexRate
  }

  /** `a` may precede `b`: the comparator, negated for `sortAsc`, is not positive. */
  function Order(key: SortKey, sortAsc: bool): (ArbitrageOpportunity, ArbitrageOpportunity) -> bool {
    (a, b) => (if sortAsc then -Compare(key, a, b) else Compare(key, a, b)) <= 0.0
  }

  /** `sorted`: a stable sort of a copy of the filtered records. */
  function Sorted(filtered: seq<ArbitrageOpportunity>, key: SortKey, sortAsc: bool): (r: seq<ArbitrageOpportunity>)
    ensures multiset(r) == multiset(filtered)
  {
    SortBy(filtered, Order(key, sortAsc))
  }

  lemma PairOrder(sortAsc: bool, a: ArbitrageOpportunity, b: ArbitrageOpportunity)
    ensures var x, y := a.inputToken + a.outputToken, b.inputToken + b.outputToken;
      Order(ByPair, sortAsc)(a, b) <==> if sortAsc then LexLe(y, x) else LexLe(x, y)
  {
    var x, y := a.inputToken + a.outputToken, b.inputToken + b.outputToken;
    LexLeTotal(x, y);
    LexLeReflexive(x);
    if LexLe(x, y) && LexLe(y, x) {
      LexLeAntisymmetric(x, y);
    }
  }

  /** Every column's comparator orders the records consistently. */
  lemma OrderTotalPreorder(key: SortKey, sortAsc: bool)
    ensures TotalPreorder(Order(key, sortAsc))
  {
    var le := Order(key, sortAsc);
    if key == ByPair {
      forall a, b
        ensures le(a, b) || le(b, a)
      {
        PairOrder(sortAsc, a, b);
        PairOrder(sortAsc, b, a);
        LexLeTotal(a.inputToken + a.outputToken, b.inputToken + b.outputToken);
      }
      forall a, b, c | le(a, b) && le(b, c)
        ensures le(a, c)
      {
        PairOrder(sortAsc, a, b);
        PairOrder(sortAsc, b, c);
        PairOrder(sortAsc, a, c);
        var x, y, z := a.inputToken + a.outputToken, b.inputToken + b.outputToken, c.inputToken + c.outputToken;
        if sortAsc {
          LexLeTransitive(z, y, x);
        } else {
          LexLeTransitive(x, y, z);
        }
      }
    }
  }

  /** The "spread" column puts the largest |spread| first, or last when ascending. */
  lemma SortedBySpread(filtered: seq<ArbitrageOpportunity>, sortAsc: bool)
    ensures var r := Sorted(filtered, BySpread, sortAsc);
      forall i, j :: 0 <= i < j < |r| ==>
        if sortAsc then Abs(r[i].spreadPercent) <= Abs(r[j].spreadPercent)
        else Abs(r[i].spreadPercent) >= Abs(r[j].spreadPercent)
  {
    OrderTotalPreorder(BySpread, sortAsc);
    SortBySorted(filtered, Order(BySpread, sortAsc));
  }

  /** The "pair" column orders by the concatenated symbols, ascending unless `sortAsc` is set. */
  lemma SortedByPair(filtered: seq<ArbitrageOpportunity>, sortAsc: bool)
    ensures var r := Sorted(filtered, ByPair, sortAsc);
      forall i, j :: 0 <= i < j < |r| ==>
        var x, y := r[i].inputToken + r[i].outputToken, r[j].inputToken + r[j].outputToken;
        if sortAsc then LexLe(y, x) else LexLe(x, y)
  {
    var r := Sorted(filtered, ByPair, sortAsc);
    OrderTotalPreorder(ByPair, sortAsc);
    SortBySorted(filtered, Order(ByPair, sortAsc));
    forall i, j | 0 <= i < j < |r|
      ensures var x, y := r[i].inputToken + r[i].outputToken, r[j].inputToken + r[j].outputToken;
        if sortAsc then LexLe(y, x) else LexLe(x, y)
    {
      PairOrder(sortAsc, r[i], r[j]);
    }
  }

  /** The "dexRate" column puts the highest rate first, or last when ascending. */
  lemma SortedByDexRate(filtered: seq<ArbitrageOpportunity>, sortAsc: bool)
    ensures var r := Sorted(filtered, ByDexRate, sortAsc);
      forall i, j :: 0 <= i < j < |r| ==>
        if sortAsc then r[i].dexRate <= r[j].dexRate else r[i].dexRate >= r[j].dexRate
  {
    OrderTotalPreorder(ByDexRate, sortAsc);
    SortBySorted(filtered, Order(ByDexRate, sortAsc));
  }

  // ---------------------------------------------------------------------------------------------
  // Panel state

  /** The panel's state cells; `swapPair` is the expanded inline swap, if any. */
  datatype PanelState = PanelState(sortKey: SortKey, sortAsc: bool, currencyFilter: string, swapPair: Option<(string, string)>)

  const InitialPanel := PanelState(BySpread, false, "all", None)

  /** The rows on screen: deduplicated, filtered, sorted. */
  function Rows(opps: seq<ArbitrageOpportunity>, s: PanelState): (r: seq<ArbitrageOpportunity>)
    ensures multiset(r) == multiset(Filtered(Deduped(opps), s.currencyFilter))
  {
    Sorted(Filtered(Deduped(opps), s.currencyFilter), s.sortKey, s.sortAsc)
  }

  /** Every row on screen is plausible, and matches the selected currency unless that is "all". */
  lemma RowsPlausible(opps: seq<ArbitrageOpportunity>, s: PanelState, o: ArbitrageOpportunity)
    requires o in Rows(opps, s)
    ensures Plausible(o) && o.isPegArb
    ensures s.currencyFilter != "all" ==> PegCurrency(o) == s.currencyFilter
  {
    var d := Deduped(opps);
    DedupedProperties(opps);
    assert o in multiset(Rows(opps, s));
    assert o in Filtered(d, s.currencyFilter);
    if s.currencyFilter != "all" {
      FilteredMembers(d, s.currencyFilter);
    }
  }

  /** `handleSort`: the current column flips the direction, another column is selected descending. */
  function HandleSort(s: PanelState, key: SortKey): (r: PanelState)
    ensures r.sortKey == key
    ensures r.sortAsc <==> key == s.sortKey && !s.sortAsc
    ensures r.currencyFilter == s.currencyFilter && r.swapPair == s.swapPair
  {
    if s.sortKey == key then s.(sortAsc := !s.sortAsc) else s.(sortKey := key, sortAsc := false)
  }

  /** Clicking the current column twice restores the state. */
  lemma HandleSortTwice(s: PanelState)
    ensures HandleSort(HandleSort(s, s.sortKey), s.sortKey) == s
  {
  }

  /** `handleInlineSwap`: clicking the open pair closes it, any other pair opens that pair. */
  function HandleInlineSwap(s: PanelState, inputToken: string, outputToken: string): (r: PanelState)
    ensures r.swapPair.None? <==> s.swapPair == Some((inputToken, outputToken))
    ensures r.swapPair.Some? ==> r.swapPair.value == (inputToken, outputToken)
    ensures r.sortKey == s.sortKey && r.sortAsc == s.sortAsc && r.currencyFilter == s.currencyFilter
  {
    if s.swapPair == Some((inputToken, outputToken)) then s.(swapPair := None)
    else s.(swapPair := Some((inputToken, outputToken)))
  }

  /** Two clicks on the same pair restore the state exactly when nothing or that pair was open. */
  lemma HandleInlineSwapTwice(s: PanelState, inputToken: string, outputToken: string)
    ensures HandleInlineSwap(HandleInlineSwap(s, inputToken, outputToken), inputToken, outputToken) == s
      <==> s.swapPair.None? || s.swapPair == Some((inputToken, outputToken))
  {
  }
}
