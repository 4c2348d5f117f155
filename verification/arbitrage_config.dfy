/**
 * The arbitrage scanner's configuration: the primary token of each currency, the notional and
 * depth amounts, and the peg pairs the scanner monitors (every plain stablecoin against the
 * primary token of its own currency, in both directions).
 */
module ArbitrageConfig {
  import opened Wrappers
  import opened Tokens

  datatype ArbitragePair = ArbitragePair(inputToken: string, outputToken: string)

  /** The same pair traded the other way. */
  function Flip(p: ArbitragePair): ArbitragePair {
    ArbitragePair(p.outputToken, p.inputToken)
  }

  /** `PRIMARY_TOKENS`, as its `Object.entries`, in property order. */
  const PrimaryTokens: seq<(CurrencyCode, string)> := [
    (USD, "USDC"), (EUR, "EURC"), (JPY, "GYEN"), (GBP, "VGBP"), (CHF, "VCHF"),
    (BRL, "BRZ"), (TRY, "TRYB"), (MXN, "MXNe"), (ZAR, "ZARP")
  ]

  /** `ARB_REFERENCE_AMOUNT`, in input-token units. */
  const ArbReferenceAmount: int := 1000

  /** `DEPTH_AMOUNTS`, the notionals of the depth analysis. */
  const DepthAmounts: seq<int> := [100, 1_000, 10_000, 100_000, 500_000, 1_000_000]

  lemma DepthAmountsIncreasing()
    ensures |DepthAmounts| == 6 && ArbReferenceAmount in DepthAmounts
    ensures forall i :: 0 <= i < |DepthAmounts| ==> DepthAmounts[i] > 0
    ensures forall i, j :: 0 <= i < j < |DepthAmounts| ==> DepthAmounts[i] < DepthAmounts[j]
  {
  }

  /** `new Set(Object.values(PRIMARY_TOKENS))`. */
  function PrimarySet(primaries: seq<(CurrencyCode, string)>): (r: set<string>)
    ensures forall i :: 0 <= i < |primaries| ==> primaries[i].1 in r
    ensures forall s :: s in r ==> exists i :: 0 <= i < |primaries| && primaries[i].1 == s
  {
    set i | 0 <= i < |primaries| :: primaries[i].1
  }

  /** The reverse lookup currency -> primary symbol: a later entry overwrites an earlier one. */
  function ToMap(primaries: seq<(CurrencyCode, string)>): map<CurrencyCode, string> {
    if primaries == [] then map[]
    else
      var n := |primaries| - 1;
      ToMap(primaries[..n])[primaries[n].0 := primaries[n].1]
  }

  /** The lookup knows exactly the listed currencies, and maps each to a listed symbol. */
  lemma {:induction false} ToMapDomain(primaries: seq<(CurrencyCode, string)>)
    ensures forall c :: c in ToMap(primaries) <==> exists i :: 0 <= i < |primaries| && primaries[i].0 == c
    ensures forall c :: c in ToMap(primaries) ==> ToMap(primaries)[c] in PrimarySet(primaries)
  {
    if primaries != [] {
      var n := |primaries| - 1;
      ToMapDomain(primaries[..n]);
      assert forall i :: 0 <= i < n ==> primaries[..n][i] == primaries[i];
    }
  }

  /** With distinct currencies, the lookup returns the symbol listed with the currency. */
  lemma {:induction false} ToMapListed(primaries: seq<(CurrencyCode, string)>, i: nat)
    requires i < |primaries|
    requires forall j, k :: 0 <= j < k < |primaries| ==> primaries[j].0 != primaries[k].0
    ensures primaries[i].0 in ToMap(primaries) && ToMap(primaries)[primaries[i].0] == primaries[i].1
  {
    var n := |primaries| - 1;
    if i < n {
      ToMapListed(primaries[..n], i);
    }
  }

  /** The loop that builds `currencyToPrimary`. */
  method BuildCurrencyToPrimary(primaries: seq<(CurrencyCode, string)>) returns (m: map<CurrencyCode, string>)
    ensures m == ToMap(primaries)
  {
    m := map[];
    for i := 0 to |primaries|
      invariant m == ToMap(primaries[..i])
    {
      assert primaries[..i + 1][..i] == primaries[..i];
      m := m[primaries[i].0 := primaries[i].1];
    }
    assert primaries[..|primaries|] == primaries;
  }

  /**
   * The primary `e` is compared against, when the loop keeps it: `e` is not itself a primary,
   * is a plain stablecoin, and its currency has a (non-empty) primary.
   */
  function PrimaryFor(e: Entry, primarySet: set<string>, currencyToPrimary: map<CurrencyCode, string>): Option<string> {
    if e.key in primarySet then None
    else if !IsStablecoin(e.token) then None
    else if e.token.currency !in currencyToPrimary || currencyToPrimary[e.token.currency] == "" then None
    else Some(currencyToPrimary[e.token.currency])
  }

  /** The two pairs the loop pushes for `e`, non-primary to primary first. */
  function EntryPairs(e: Entry, primarySet: set<string>, currencyToPrimary: map<CurrencyCode, string>): seq<ArbitragePair> {
    match PrimaryFor(e, primarySet, currencyToPrimary)
    case None => []
    case Some(p) => [ArbitragePair(e.key, p), ArbitragePair(p, e.key)]
  }

  /** The pairs generated from `entries`, in iteration order. */
  function PegPairs(entries: seq<Entry>, primarySet: set<string>, currencyToPrimary: map<CurrencyCode, string>): seq<ArbitragePair> {
    if entries == [] then []
    else
      var n := |entries| - 1;
      PegPairs(entries[..n], primarySet, currencyToPrimary) + EntryPairs(entries[n], primarySet, currencyToPrimary)
  }

  /** The loop of `generateArbitragePairs` over `entries` with the given primaries. */
  method GeneratePegPairs(entries: seq<Entry>, primaries: seq<(CurrencyCode, string)>) returns (pairs: seq<ArbitragePair>)
    ensures pairs == PegPairs(entries, PrimarySet(primaries), ToMap(primaries))
  {
    var primarySet := PrimarySet(primaries);
    var currencyToPrimary := BuildCurrencyToPrimary(primaries);
    pairs := [];
    for i := 0 to |entries|
      invariant pairs == PegPairs(entries[..i], primarySet, currencyToPrimary)
    {
      assert entries[..i + 1][..i] == entries[..i];
      var symbol, tokenInfo := entries[i].key, entries[i].token;
      if symbol in primarySet {
        continue;
      }
      if !IsStablecoin(tokenInfo) {
        continue;
      }
      if tokenInfo.currency !in currencyToPrimary || currencyToPrimary[tokenInfo.currency] == "" {
        continue;
      }
      var primary := currencyToPrimary[tokenInfo.currency];
      pairs := pairs + [ArbitragePair(symbol, primary)];
      pairs := pairs + [ArbitragePair(primary, symbol)];
    }
    assert entries[..|entries|] == entries;
  }

  /** `generateArbitragePairs`: the loop over the registry with `PRIMARY_TOKENS`. */
  method GenerateArbitragePairs() returns (pairs: seq<ArbitragePair>)
    ensures pairs == ArbitragePairs()
  {
    pairs := GeneratePegPairs(Registry, PrimaryTokens);
  }

  function ArbitragePairs(): seq<ArbitragePair> {
    PegPairs(Registry, PrimarySet(PrimaryTokens), ToMap(PrimaryTokens))
  }

  /** Pair `2k` comes from an entry the loop keeps, and pair `2k + 1` is pair `2k` reversed. */
  predicate CoupleAt(r: seq<ArbitragePair>, k: nat, entries: seq<Entry>, primarySet: set<string>, currencyToPrimary: map<CurrencyCode, string>)
    requires 2 * k + 1 < |r|
  {
    r[2 * k + 1] == Flip(r[2 * k]) &&
    exists i :: 0 <= i < |entries| && entries[i].key == r[2 * k].inputToken &&
      PrimaryFor(entries[i], primarySet, currencyToPrimary) == Some(r[2 * k].outputToken)
  }

  /**
   * The generated pairs come in consecutive couples (x -> p, then p -> x), each from an entry
   * the loop keeps, so the length is even.
   */
  lemma {:induction false} PegPairsCouples(entries: seq<Entry>, primarySet: set<string>, currencyToPrimary: map<CurrencyCode, string>)
    ensures |PegPairs(entries, primarySet, currencyToPrimary)| % 2 == 0
    ensures forall k: nat :: 2 * k + 1 < |PegPairs(entries, primarySet, currencyToPrimary)| ==>
      CoupleAt(PegPairs(entries, primarySet, currencyToPrimary), k, entries, primarySet, currencyToPrimary)
  {
    if entries != [] {
      var n := |entries| - 1;
      var init := entries[..n];
      PegPairsCouples(init, primarySet, currencyToPrimary);
      var r0 := PegPairs(init, primarySet, currencyToPrimary);
      var tail := EntryPairs(entries[n], primarySet, currencyToPrimary);
      var r := r0 + tail;
      assert r == PegPairs(entries, primarySet, currencyToPrimary);
      forall k: nat | 2 * k + 1 < |r|
        ensures CoupleAt(r, k, entries, primarySet, currencyToPrimary)
      {
        if 2 * k + 1 < |r0| {
          assert CoupleAt(r0, k, init, primarySet, currencyToPrimary);
          var i :| 0 <= i < |init| && init[i].key == r0[2 * k].inputToken &&
            PrimaryFor(init[i], primarySet, currencyToPrimary) == Some(r0[2 * k].outputToken);
          assert entries[i] == init[i];
        } else {
          assert 2 * k == |r0|;
          assert r[2 * k] == tail[0] && r[2 * k + 1] == tail[1];
        }
      }
    }
  }

  /** Every entry the loop keeps yields its couple. */
  lemma {:induction false} PegPairsComplete(entries: seq<Entry>, primarySet: set<string>, currencyToPrimary: map<CurrencyCode, string>, i: nat)
    requires i < |entries| && PrimaryFor(entries[i], primarySet, currencyToPrimary).Some?
    ensures var p := PrimaryFor(entries[i], primarySet, currencyToPrimary).value;
      ArbitragePair(entries[i].key, p) in PegPairs(entries, primarySet, currencyToPrimary) &&
      ArbitragePair(p, entries[i].key) in PegPairs(entries, primarySet, currencyToPrimary)
  {
    var n := |entries| - 1;
    if i < n {
      PegPairsComplete(entries[..n], primarySet, currencyToPrimary, i);
    }
  }

  /** `pair` joins entry `i`, which the loop keeps, with that entry's primary, in one direction or the other. */
  predicate JoinsKept(entries: seq<Entry>, primarySet: set<string>, currencyToPrimary: map<CurrencyCode, string>, i: int, pair: ArbitragePair) {
    0 <= i < |entries| && PrimaryFor(entries[i], primarySet, currencyToPrimary).Some? &&
    var p := PrimaryFor(entries[i], primarySet, currencyToPrimary).value;
    pair == ArbitragePair(entries[i].key, p) || pair == ArbitragePair(p, entries[i].key)
  }

  /** Every generated pair joins an entry the loop keeps with that entry's primary. */
  lemma PegPairMembers(entries: seq<Entry>, primarySet: set<string>, currencyToPrimary: map<CurrencyCode, string>, pair: ArbitragePair)
    requires pair in PegPairs(entries, primarySet, currencyToPrimary)
    ensures exists i :: JoinsKept(entries, primarySet, currencyToPrimary, i, pair)
  {
    var r := PegPairs(entries, primarySet, currencyToPrimary);
    PegPairsCouples(entries, primarySet, currencyToPrimary);
    var j :| 0 <= j < |r| && r[j] == pair;
    var k: nat := j / 2;
    assert 2 * k + 1 < |r|;
    assert CoupleAt(r, k, entries, primarySet, currencyToPrimary);
    var i :| 0 <= i < |entries| && entries[i].key == r[2 * k].inputToken &&
      PrimaryFor(entries[i], primarySet, currencyToPrimary) == Some(r[2 * k].outputToken);
    assert JoinsKept(entries, primarySet, currencyToPrimary, i, pair);
  }

  /**
   * When every primary is in the primary set, every generated pair has exactly one primary side,
   * so it never pairs a token with itself.
   */
  lemma ExactlyOnePrimarySide(entries: seq<Entry>, primarySet: set<string>, currencyToPrimary: map<CurrencyCode, string>, pair: ArbitragePair)
    requires forall c :: c in currencyToPrimary ==> currencyToPrimary[c] in primarySet
    requires pair in PegPairs(entries, primarySet, currencyToPrimary)
    ensures (pair.inputToken in primarySet) != (pair.outputToken in primarySet)
    ensures pair.inputToken != pair.outputToken
  {
    PegPairMembers(entries, primarySet, currencyToPrimary, pair);
  }

  /** No currency is listed twice in `PRIMARY_TOKENS`. */
  lemma PrimaryCurrenciesDistinct()
    ensures forall j, k :: 0 <= j < k < |PrimaryTokens| ==> PrimaryTokens[j].0 != PrimaryTokens[k].0
  {
  }

  /** Each primary symbol is a registry key whose token has the currency it is listed under. */
  lemma PrimaryRegistered(k: nat)
    requires k < |PrimaryTokens|
    ensures GetTokenBySymbol(PrimaryTokens[k].1).Some?
    ensures GetTokenBySymbol(PrimaryTokens[k].1).value.currency == PrimaryTokens[k].0
  {
    RegistryWellFormed();
    var i := if k == 0 then 0 else if k == 1 then 2 else if k == 2 then 3 else if k == 3 then 24
      else if k == 4 then 25 else if k == 5 then 26 else if k == 6 then 27 else if k == 7 then 28 else 31;
    assert Registry[i].key == PrimaryTokens[k].1 && Registry[i].token.currency == PrimaryTokens[k].0;
    LookupBySymbol(i);
  }

  /** A kept registry entry and its primary are registry tokens of one currency. */
  lemma KeptEntryPrimary(i: nat)
    requires i < |Registry| && PrimaryFor(Registry[i], PrimarySet(PrimaryTokens), ToMap(PrimaryTokens)).Some?
    ensures var p := PrimaryFor(Registry[i], PrimarySet(PrimaryTokens), ToMap(PrimaryTokens)).value;
      GetTokenBySymbol(Registry[i].key) == Some(Registry[i].token) &&
      GetTokenBySymbol(p).Some? && GetTokenBySymbol(p).value.currency == Registry[i].token.currency
  {
    var c := Registry[i].token.currency;
    ToMapDomain(PrimaryTokens);
    var k :| 0 <= k < |PrimaryTokens| && PrimaryTokens[k].0 == c;
    PrimaryCurrenciesDistinct();
    ToMapListed(PrimaryTokens, k);
    PrimaryRegistered(k);
    RegistryWellFormed();
    LookupBySymbol(i);
  }

  /**
   * Every pair the scanner monitors joins two registry tokens of one currency; exactly one side is
   * a primary token, and the other side is a plain stablecoin.
   */
  lemma ArbitragePairsArePegPairs(pair: ArbitragePair)
    requires pair in ArbitragePairs()
    ensures var tokens := GetTokensByPair(pair.inputToken, pair.outputToken);
      tokens.Some? && tokens.value.0.currency == tokens.value.1.currency
    ensures var ps := PrimarySet(PrimaryTokens);
      (pair.inputToken in ps) != (pair.outputToken in ps)
    ensures var ps := PrimarySet(PrimaryTokens);
      var other := if pair.inputToken in ps then pair.outputToken else pair.inputToken;
      GetTokenBySymbol(other).Some? && IsStablecoin(GetTokenBySymbol(other).value)
  {
    var ps, m := PrimarySet(PrimaryTokens), ToMap(PrimaryTokens);
    ToMapDomain(PrimaryTokens);
    ExactlyOnePrimarySide(Registry, ps, m, pair);
    PegPairMembers(Registry, ps, m, pair);
    var i :| JoinsKept(Registry, ps, m, i, pair);
    KeptEntryPrimary(i);
  }

  lemma PrimarySymbolsNotExcluded()
    ensures forall s :: s in PrimarySet(PrimaryTokens) ==> s != "USDe" && s != "NGNC" && s != "IDRX"
  {
  }

  /** A registry entry the loop keeps is not USDe, which is not a plain stablecoin. */
  lemma KeptEntryNotUsde(i: nat)
    requires i < |Registry| && PrimaryFor(Registry[i], PrimarySet(PrimaryTokens), ToMap(PrimaryTokens)).Some?
    ensures Registry[i].key != "USDe"
  {
    NonStablecoins();
  }

  /** A registry entry the loop keeps is neither NGNC nor IDRX, whose currencies have no primary. */
  lemma KeptEntryHasPrimaryCurrency(i: nat)
    requires i < |Registry| && PrimaryFor(Registry[i], PrimarySet(PrimaryTokens), ToMap(PrimaryTokens)).Some?
    ensures Registry[i].key != "NGNC" && Registry[i].key != "IDRX"
  {
    ToMapDomain(PrimaryTokens);
    RegistryWellFormed();
    assert Registry[29].key == "NGNC" && Registry[30].key == "IDRX";
  }

  /** A registry entry the loop keeps, and its primary, are none of USDe, NGNC and IDRX. */
  lemma KeptEntryNotExcluded(i: nat)
    requires i < |Registry| && PrimaryFor(Registry[i], PrimarySet(PrimaryTokens), ToMap(PrimaryTokens)).Some?
    ensures Registry[i].key != "USDe" && Registry[i].key != "NGNC" && Registry[i].key != "IDRX"
    ensures var p := PrimaryFor(Registry[i], PrimarySet(PrimaryTokens), ToMap(PrimaryTokens)).value;
      p != "USDe" && p != "NGNC" && p != "IDRX"
  {
    ToMapDomain(PrimaryTokens);
    PrimarySymbolsNotExcluded();
    KeptEntryNotUsde(i);
    KeptEntryHasPrimaryCurrency(i);
  }

  /**
   * USDe (synthetic), NGNC and IDRX (no primary for NGN or IDR) never appear in a monitored pair,
   * in either position.
   */
  lemma ExcludedTokensNeverPaired(pair: ArbitragePair)
    requires pair in ArbitragePairs()
    ensures pair.inputToken != "USDe" && pair.outputToken != "USDe"
    ensures pair.inputToken != "NGNC" && pair.outputToken != "NGNC"
    ensures pair.inputToken != "IDRX" && pair.outputToken != "IDRX"
  {
    var ps, m := PrimarySet(PrimaryTokens), ToMap(PrimaryTokens);
    PegPairMembers(Registry, ps, m, pair);
    var i :| JoinsKept(Registry, ps, m, i, pair);
    KeptEntryNotExcluded(i);
  }
}
