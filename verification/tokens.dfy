/** The token registry: every stablecoin the app knows, keyed by symbol, and the lookups over it. */
module Tokens {
  import opened Wrappers

  datatype CurrencyCode = USD | EUR | JPY | GBP | CHF | BRL | TRY | MXN | NGN | IDR | ZAR

  /** The ISO code a `CurrencyCode` value is spelled as. */
  function CodeName(c: CurrencyCode): string {
    match c
    case USD => "USD" case EUR => "EUR" case JPY => "JPY" case GBP => "GBP"
    case CHF => "CHF" case BRL => "BRL" case TRY => "TRY" case MXN => "MXN"
    case NGN => "NGN" case IDR => "IDR" case ZAR => "ZAR"
  }

  /** Distinct codes are spelled differently, so a code can be recovered from its name. */
  lemma CodeNameInjective(a: CurrencyCode, b: CurrencyCode)
    ensures CodeName(a) == CodeName(b) <==> a == b
  {
  }

  /** The code spelled `s`, if any: the partner of `CodeName`. */
  function ParseCode(s: string): (r: Option<CurrencyCode>)
    ensures r.Some? ==> CodeName(r.value) == s
  {
    if s == "USD" then Some(USD) else if s == "EUR" then Some(EUR)
    else if s == "JPY" then Some(JPY) else if s == "GBP" then Some(GBP)
    else if s == "CHF" then Some(CHF) else if s == "BRL" then Some(BRL)
    else if s == "TRY" then Some(TRY) else if s == "MXN" then Some(MXN)
    else if s == "NGN" then Some(NGN) else if s == "IDR" then Some(IDR)
    else if s == "ZAR" then Some(ZAR) else None
  }

  lemma ParseCodeName(c: CurrencyCode)
    ensures ParseCode(CodeName(c)) == Some(c)
  {
  }

  datatype TokenType = Stablecoin | Yield | Synthetic | Institutional

  /**
   * A registry token. `declaredType` is the optional `type` field; mint address, name, logo
   * and issuer are display data and are not modelled.
   */
  datatype TokenInfo = TokenInfo(symbol: string, currency: CurrencyCode, decimals: nat, declaredType: Option<TokenType>)

  /** One `key: value` property of the registry object. */
  datatype Entry = Entry(key: string, token: TokenInfo)

  function Token(symbol: string, currency: CurrencyCode, decimals: nat): Entry {
    Entry(symbol, TokenInfo(symbol, currency, decimals, None))
  }

  function TypedToken(symbol: string, currency: CurrencyCode, decimals: nat, t: TokenType): Entry {
    Entry(symbol, TokenInfo(symbol, currency, decimals, Some(t)))
  }

  /** `TOKEN_REGISTRY`, in property order, in the groups its comments mark. */
  const Registry: seq<Entry> := Headline + UsdStablecoins + EurStablecoins + OtherStablecoins

  /** The four entries listed first. */
  const Headline: seq<Entry> := [
    Token("USDC", USD, 6), Token("USDT", USD, 6), Token("EURC", EUR, 6), Token("GYEN", JPY, 6)
  ]

  /** USD stablecoins. */
  const UsdStablecoins: seq<Entry> := [
    Token("AUSD", USD, 6), TypedToken("BUIDL", USD, 6, Institutional), Token("CASH", USD, 6),
    Token("FDUSD", USD, 6), Token("GGUSD", USD, 6), Token("USDG", USD, 6),
    TypedToken("USDY", USD, 6, Yield), Token("USDP", USD, 6), Token("PYUSD", USD, 6),
    TypedToken("legacyUSD", USD, 6, Yield), Token("USDS", USD, 6), TypedToken("sUSD", USD, 6, Yield),
    TypedToken("syrupUSDC", USD, 6, Yield), TypedToken("USDe", USD, 9, Synthetic),
    Token("USDu", USD, 6), Token("USX", USD, 6), Token("USD1", USD, 6)
  ]

  /** EUR stablecoins. */
  const EurStablecoins: seq<Entry> := [
    Token("EURCV", EUR, 2), Token("EUROe", EUR, 6), Token("VEUR", EUR, 9)
  ]

  /** One stablecoin each for GBP, CHF, BRL, TRY, MXN, NGN, IDR and ZAR. */
  const OtherStablecoins: seq<Entry> := [
    Token("VGBP", GBP, 9), Token("VCHF", CHF, 9), Token("BRZ", BRL, 4), Token("TRYB", TRY, 6),
    Token("MXNe", MXN, 9), Token("NGNC", NGN, 2), Token("IDRX", IDR, 2), Token("ZARP", ZAR, 6)
  ]

  predicate KeysDistinct(entries: seq<Entry>) {
    forall i, j :: 0 <= i < j < |entries| ==> entries[i].key != entries[j].key
  }

  predicate HasKey(entries: seq<Entry>, key: string) {
    exists i :: 0 <= i < |entries| && entries[i].key == key
  }

  /** A lookup of an own key of a record: the value stored under `key`, or `undefined`. */
  function Find(entries: seq<Entry>, key: string): (r: Option<TokenInfo>)
    ensures r.Some? <==> HasKey(entries, key)
    ensures r.Some? ==> exists i :: 0 <= i < |entries| && entries[i].key == key && entries[i].token == r.value
  {
    if entries == [] then None
    else if entries[0].key == key then Some(entries[0].token)
    else
      var r := Find(entries[1..], key);
      assert forall i :: 0 < i < |entries| ==> entries[i] == entries[1..][i - 1];
      r
  }

  /** With distinct keys, `Find` returns the value stored under that key. */
  lemma {:induction false} FindUnique(entries: seq<Entry>, i: nat)
    requires KeysDistinct(entries) && i < |entries|
    ensures Find(entries, entries[i].key) == Some(entries[i].token)
  {
    if i > 0 {
      FindUnique(entries[1..], i - 1);
    }
  }

  /** `getTokenBySymbol`. */
  function GetTokenBySymbol(symbol: string): (r: Option<TokenInfo>)
    ensures r.Some? <==> HasKey(Registry, symbol)
    ensures r.Some? ==> r.value.symbol == symbol
  {
    RegistryWellFormed();
    Find(Registry, symbol)
  }

  /** `getTokensByPair`: both tokens, or null when either symbol is unknown. */
  function GetTokensByPair(inputSymbol: string, outputSymbol: string): (r: Option<(TokenInfo, TokenInfo)>)
    ensures r.Some? <==> HasKey(Registry, inputSymbol) && HasKey(Registry, outputSymbol)
    ensures r.Some? ==> r.value.0.symbol == inputSymbol && r.value.1.symbol == outputSymbol
  {
    var input := GetTokenBySymbol(inputSymbol);
    var output := GetTokenBySymbol(outputSymbol);
    if input.None? || output.None? then None else Some((input.value, output.value))
  }

  /** `getAllTokens`: `Object.values(TOKEN_REGISTRY)`, in property order. */
  function GetAllTokens(): (r: seq<TokenInfo>)
    ensures |r| == |Registry| && forall i :: 0 <= i < |r| ==> r[i] == Registry[i].token
  {
    seq(|Registry|, i requires 0 <= i < |Registry| => Registry[i].token)
  }

  /** `getTokenType`: a missing type means a plain stablecoin. */
  function GetTokenType(t: TokenInfo): (r: TokenType)
    ensures t.declaredType.Some? ==> r == t.declaredType.value
    ensures t.declaredType.None? ==> r == Stablecoin
  {
    t.declaredType.GetOr(Stablecoin)
  }

  /** `isStablecoin`: a true 1:1 pegged token. */
  predicate IsStablecoin(t: TokenInfo) {
    GetTokenType(t) == Stablecoin
  }

  lemma IsStablecoinIff(t: TokenInfo)
    ensures IsStablecoin(t) <==> t.declaredType.None? || t.declaredType == Some(Stablecoin)
  {
  }

  /** The registry's keys, in property order. */
  const RegistryKeys: seq<string> := HeadlineKeys + UsdKeys + EurKeys + OtherKeys
  const HeadlineKeys: seq<string> := ["USDC", "USDT", "EURC", "GYEN"]
  const UsdKeys: seq<string> := [
    "AUSD", "BUIDL", "CASH", "FDUSD", "GGUSD", "USDG", "USDY", "USDP", "PYUSD", "legacyUSD",
    "USDS", "sUSD", "syrupUSDC", "USDe", "USDu", "USX", "USD1"
  ]
  const EurKeys: seq<string> := ["EURCV", "EUROe", "VEUR"]
  const OtherKeys: seq<string> := ["VGBP", "VCHF", "BRZ", "TRYB", "MXNe", "NGNC", "IDRX", "ZARP"]

  /**
   * `entries` are stored under `keys`, in that order, each under its own symbol, with decimals
   * among 2, 4, 6 and 9.
   */
  predicate KeyedBy(entries: seq<Entry>, keys: seq<string>) {
    |entries| == |keys| &&
    forall i :: 0 <= i < |entries| ==>
      entries[i].key == keys[i] == entries[i].token.symbol && entries[i].token.decimals in {2, 4, 6, 9}
  }

  lemma KeyedByConcat(a: seq<Entry>, ka: seq<string>, b: seq<Entry>, kb: seq<string>)
    requires KeyedBy(a, ka) && KeyedBy(b, kb)
    ensures KeyedBy(a + b, ka + kb)
  {
    forall i | 0 <= i < |a + b|
      ensures (a + b)[i] == (if i < |a| then a[i] else b[i - |a|])
      ensures (ka + kb)[i] == (if i < |a| then ka[i] else kb[i - |a|])
    {
    }
  }

  lemma RegistryKeysListed()
    ensures |Registry| == 32 && KeyedBy(Registry, RegistryKeys)
  {
    assert KeyedBy(Headline, HeadlineKeys);
    assert KeyedBy(UsdStablecoins, UsdKeys);
    assert KeyedBy(EurStablecoins, EurKeys);
    assert KeyedBy(OtherStablecoins, OtherKeys);
    KeyedByConcat(Headline, HeadlineKeys, UsdStablecoins, UsdKeys);
    KeyedByConcat(Headline + UsdStablecoins, HeadlineKeys + UsdKeys, EurStablecoins, EurKeys);
    KeyedByConcat(Headline + UsdStablecoins + EurStablecoins, HeadlineKeys + UsdKeys + EurKeys, OtherStablecoins, OtherKeys);
  }

  lemma RegistryKeysDistinct()
    ensures forall i, j :: 0 <= i < j < |RegistryKeys| ==> RegistryKeys[i] != RegistryKeys[j]
  {
  }

  /** The registry's shape: keyed by its own symbols, keys distinct, decimals among 2, 4, 6 and 9. */
  lemma RegistryWellFormed()
    ensures |Registry| == 32 && KeysDistinct(Registry)
    ensures forall i :: 0 <= i < |Registry| ==> Registry[i].key == Registry[i].token.symbol
    ensures forall i :: 0 <= i < |Registry| ==> Registry[i].token.decimals in {2, 4, 6, 9}
  {
    RegistryKeysListed();
    RegistryKeysDistinct();
  }

  /** Exactly six registry tokens are not plain stablecoins. */
  lemma NonStablecoins()
    ensures forall i :: 0 <= i < |Registry| ==>
      (!IsStablecoin(Registry[i].token) <==> Registry[i].key in {"BUIDL", "USDY", "legacyUSD", "sUSD", "syrupUSDC", "USDe"})
  {
  }

  /** Every registry token is reachable by its own symbol. */
  lemma LookupBySymbol(i: nat)
    requires i < |Registry|
    ensures GetTokenBySymbol(Registry[i].token.symbol) == Some(Registry[i].token)
  {
    RegistryWellFormed();
    FindUnique(Registry, i);
  }
}
