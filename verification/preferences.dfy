/**
 * Stablecoin preferences: for each currency code the symbol of the stablecoin the user prefers,
 * the defaults, and the options offered per currency.
 */
module Preferences {

  type StablecoinPreferences = map<string, string>

  /** `STABLECOIN_OPTIONS`, by symbol. */
  const StablecoinOptions: map<string, seq<string>> := map[
    "USD" := ["USDC", "USDT"],
    "EUR" := ["EURC"],
    "JPY" := ["GYEN"]
  ]

  /** `DEFAULT_PREFERENCES`. */
  const DefaultPreferences: StablecoinPreferences := map["USD" := "USDC", "EUR" := "EURC", "JPY" := "GYEN"]

  /** Every default is one of the options offered for its currency. */
  lemma DefaultsAreOptions()
    ensures DefaultPreferences.Keys == StablecoinOptions.Keys
    ensures forall c :: c in DefaultPreferences ==> DefaultPreferences[c] in StablecoinOptions[c]
  {
    assert DefaultPreferences.Keys == {"USD", "EUR", "JPY"};
  }

  /** `{ ...DEFAULT_PREFERENCES, ...parsed }`: the loaded preferences override the defaults key by key. */
  function Loaded(parsed: StablecoinPreferences): (prefs: StablecoinPreferences)
    ensures prefs.Keys == DefaultPreferences.Keys + parsed.Keys
    ensures forall c :: c in parsed ==> prefs[c] == parsed[c]
    ensures forall c :: c in DefaultPreferences && c !in parsed ==> prefs[c] == DefaultPreferences[c]
  {
    DefaultPreferences + parsed
  }

  /** `setPreference`: the currency's symbol is set and nothing else changes. */
  function SetPreference(prev: StablecoinPreferences, currency: string, symbol: string): (next: StablecoinPreferences)
    ensures next.Keys == prev.Keys + {currency}
    ensures next[currency] == symbol
    ensures forall c :: c in prev && c != currency ==> next[c] == prev[c]
  {
    prev[currency := symbol]
  }

  /** `getPreferredToken`: the stored symbol, or the currency code itself. */
  function GetPreferredToken(prefs: StablecoinPreferences, currency: string): (symbol: string)
    ensures currency in prefs ==> symbol == prefs[currency]
    ensures currency !in prefs ==> symbol == currency
  {
    if currency in prefs then prefs[currency] else currency
  }

  /** The preferred token after a preference is set is the symbol set; other currencies keep theirs. */
  lemma SetThenGet(prev: StablecoinPreferences, currency: string, symbol: string, other: string)
    ensures GetPreferredToken(SetPreference(prev, currency, symbol), currency) == symbol
    ensures other != currency ==>
      GetPreferredToken(SetPreference(prev, currency, symbol), other) == GetPreferredToken(prev, other)
  {
  }

  /** Loading never loses a default currency: each one still has a preferred token of its own. */
  lemma LoadedKeepsDefaults(parsed: StablecoinPreferences, currency: string)
    requires currency in DefaultPreferences
    ensures GetPreferredToken(Loaded(parsed), currency) ==
      if currency in parsed then parsed[currency] else DefaultPreferences[currency]
  {
  }

  /** Without a provider the defaults answer: USD prefers USDC, and a currency without a default is its own token. */
  lemma DefaultTokens()
    ensures GetPreferredToken(DefaultPreferences, "USD") == "USDC"
    ensures GetPreferredToken(DefaultPreferences, "GBP") == "GBP"
  {
    assert "GBP" !in DefaultPreferences;
  }
}
