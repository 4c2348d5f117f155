/**
 * `SUPPORTED_PAIRS`: every ordered pair of distinct registry tokens, enumerated input-major in
 * registry order, and the lookup of one pair by its two symbols.
 */
module Pairs {
  import opened Wrappers
  import opened Tokens

  /** `FXPair`: the two token symbols and the "INPUT/OUTPUT" currency label (`label`). */
  datatype FXPair = FXPair(inputToken: string, outputToken: string, pairLabel: string)

  function MakePair(input: TokenInfo, output: TokenInfo): FXPair {
    FXPair(input.symbol, output.symbol, CodeName(input.currency) + "/" + CodeName(output.currency))
  }

  /** The pairs the inner loop pushes for `input`: one per output token with another symbol, in order. */
  function RowPairs(input: TokenInfo, outputs: seq<TokenInfo>): (r: seq<FXPair>)
    ensures |r| <= |outputs|
    ensures forall k :: 0 <= k < |r| ==> r[k].inputToken == input.symbol
  {
    if outputs == [] then []
    else
      var last := outputs[|outputs| - 1];
      RowPairs(input, outputs[..|outputs| - 1]) + (if input.symbol == last.symbol then [] else [MakePair(input, last)])
  }

  /** The pairs of the outer loop after it has visited `inputs`, each against all of `tokens`. */
  function PairsOf(inputs: seq<TokenInfo>, tokens: seq<TokenInfo>): seq<FXPair> {
    if inputs == [] then []
    else PairsOf(inputs[..|inputs| - 1], tokens) + RowPairs(inputs[|inputs| - 1], tokens)
  }

  /** A row holds exactly the input paired with each output of another symbol. */
  lemma {:induction false} RowPairsMembers(input: TokenInfo, outputs: seq<TokenInfo>)
    ensures forall p :: p in RowPairs(input, outputs) <==>
      exists j :: 0 <= j < |outputs| && outputs[j].symbol != input.symbol && p == MakePair(input, outputs[j])
  {
    if outputs != [] {
      var init, last := outputs[..|outputs| - 1], outputs[|outputs| - 1];
      RowPairsMembers(input, init);
      assert forall j :: 0 <= j < |init| ==> init[j] == outputs[j];
    }
  }

  /** The loop's pairs are exactly the inputs paired with each token of another symbol. */
  lemma {:induction false} PairsOfMembers(inputs: seq<TokenInfo>, tokens: seq<TokenInfo>)
    ensures forall p :: p in PairsOf(inputs, tokens) <==>
      exists i, j :: 0 <= i < |inputs| && 0 <= j < |tokens| && inputs[i].symbol != tokens[j].symbol && p == MakePair(inputs[i], tokens[j])
  {
    if inputs != [] {
      var init, last := inputs[..|inputs| - 1], inputs[|inputs| - 1];
      PairsOfMembers(init, tokens);
      RowPairsMembers(last, tokens);
      assert forall i :: 0 <= i < |init| ==> init[i] == inputs[i];
    }
  }

  /** `generatePairs` over a token list: all of its ordered pairs with distinct symbols. */
  function AllPairs(tokens: seq<TokenInfo>): seq<FXPair> {
    PairsOf(tokens, tokens)
  }

  /** `generatePairs`: the two nested loops over `Object.values(TOKEN_REGISTRY)`. */
  method GeneratePairs(tokens: seq<TokenInfo>) returns (pairs: seq<FXPair>)
    ensures pairs == AllPairs(tokens)
  {
    pairs := [];
    for i := 0 to |tokens|
      invariant pairs == PairsOf(tokens[..i], tokens)
    {
      for j := 0 to |tokens|
        invariant pairs == PairsOf(tokens[..i], tokens) + RowPairs(tokens[i], tokens[..j])
      {
        assert tokens[..j + 1][..j] == tokens[..j];
        if tokens[i].symbol == tokens[j].symbol {
          continue;
        }
        pairs := pairs + [MakePair(tokens[i], tokens[j])];
      }
      assert tokens[..i + 1][..i] == tokens[..i];
      assert tokens[..|tokens|] == tokens;
    }
    assert tokens[..|tokens|] == tokens;
  }

  // ---------------------------------------------------------------------------------------------
  // Properties of the enumeration

  /** No generated pair trades a token against itself, and each pair's reverse is generated too. */
  lemma NoSelfPairsAndSymmetric(tokens: seq<TokenInfo>)
    ensures forall p :: p in AllPairs(tokens) ==> p.inputToken != p.outputToken
    ensures forall i, j :: 0 <= i < |tokens| && 0 <= j < |tokens| ==>
      (MakePair(tokens[i], tokens[j]) in AllPairs(tokens) <==> MakePair(tokens[j], tokens[i]) in AllPairs(tokens))
  {
    PairsOfMembers(tokens, tokens);
  }

  /** Every token's symbol is different. */
  predicate SymbolsDistinct(tokens: seq<TokenInfo>) {
    forall i, j :: 0 <= i < j < |tokens| ==> tokens[i].symbol != tokens[j].symbol
  }

  /** A row over tokens none of which shares the input's symbol pairs the input with each of them. */
  lemma {:induction false} RowPairsLengthNoMatch(input: TokenInfo, outputs: seq<TokenInfo>)
    requires forall j :: 0 <= j < |outputs| ==> outputs[j].symbol != input.symbol
    ensures |RowPairs(input, outputs)| == |outputs|
  {
    if outputs != [] {
      RowPairsLengthNoMatch(input, outputs[..|outputs| - 1]);
    }
  }

  /** A row over distinct tokens that include the input skips exactly the input itself. */
  lemma {:induction false} RowPairsLength(input: TokenInfo, outputs: seq<TokenInfo>)
    requires SymbolsDistinct(outputs) && input in outputs
    ensures |RowPairs(input, outputs)| == |outputs| - 1
  {
    var init, last := outputs[..|outputs| - 1], outputs[|outputs| - 1];
    if input.symbol == last.symbol {
      RowPairsLengthNoMatch(input, init);
    } else {
      assert input in init;
      RowPairsLength(input, init);
    }
  }

  lemma MulSucc(n: int, m: int)
    ensures (n + 1) * m == n * m + m
  {
  }

  /** With distinct symbols, `n` tokens give `n * (n - 1)` pairs for every prefix of inputs. */
  lemma {:induction false} PairsOfLength(inputs: seq<TokenInfo>, tokens: seq<TokenInfo>)
    requires SymbolsDistinct(tokens) && forall i :: 0 <= i < |inputs| ==> inputs[i] in tokens
    ensures |PairsOf(inputs, tokens)| == |inputs| * (|tokens| - 1)
  {
    if inputs != [] {
      var n, m := |inputs| - 1, |tokens| - 1;
      assert forall i :: 0 <= i < n ==> inputs[..n][i] == inputs[i];
      assert |PairsOf(inputs, tokens)| == |PairsOf(inputs[..n], tokens)| + |RowPairs(inputs[n], tokens)|;
      PairsOfLength(inputs[..n], tokens);
      RowPairsLength(inputs[n], tokens);
      MulSucc(n, m);
    }
  }

  /** No ordered pair of symbols is listed twice. */
  predicate PairKeysDistinct(ps: seq<FXPair>) {
    forall k, l :: 0 <= k < l < |ps| ==> ps[k].inputToken != ps[l].inputToken || ps[k].outputToken != ps[l].outputToken
  }

  /** Over distinct outputs, a row lists each output symbol once. */
  lemma {:induction false} RowPairsDistinct(input: TokenInfo, outputs: seq<TokenInfo>)
    requires SymbolsDistinct(outputs)
    ensures PairKeysDistinct(RowPairs(input, outputs))
  {
    if outputs != [] {
      var init, last := outputs[..|outputs| - 1], outputs[|outputs| - 1];
      RowPairsDistinct(input, init);
      RowPairsMembers(input, init);
      var head := RowPairs(input, init);
      forall k | 0 <= k < |head|
        ensures head[k].outputToken != last.symbol
      {
        assert head[k] in head;
      }
    }
  }

  /** Rows for distinct inputs over distinct tokens never repeat an ordered pair. */
  lemma {:induction false} PairsOfDistinct(inputs: seq<TokenInfo>, tokens: seq<TokenInfo>)
    requires SymbolsDistinct(inputs) && SymbolsDistinct(tokens)
    ensures PairKeysDistinct(PairsOf(inputs, tokens))
  {
    if inputs != [] {
      var init, last := inputs[..|inputs| - 1], inputs[|inputs| - 1];
      PairsOfDistinct(init, tokens);
      RowPairsDistinct(last, tokens);
      PairsOfMembers(init, tokens);
      var head := PairsOf(init, tokens);
      forall k | 0 <= k < |head|
        ensures head[k].inputToken != last.symbol
      {
        assert head[k] in head;
      }
    }
  }

  /** `SUPPORTED_PAIRS`. */
  function SupportedPairs(): seq<FXPair> {
    AllPairs(GetAllTokens())
  }

  lemma RegistrySymbolsDistinct()
    ensures SymbolsDistinct(GetAllTokens())
  {
    var tokens := GetAllTokens();
    RegistryWellFormed();
    assert forall i :: 0 <= i < |tokens| ==> tokens[i].symbol == Registry[i].key;
  }

  lemma RegistryHasKey(s: string)
    ensures HasKey(Registry, s) <==> exists i :: 0 <= i < |GetAllTokens()| && GetAllTokens()[i].symbol == s
  {
    var tokens := GetAllTokens();
    RegistryWellFormed();
    assert forall i :: 0 <= i < |tokens| ==> tokens[i].symbol == Registry[i].key;
  }

  /** The 32 registry tokens give 992 = 32 * 31 pairs, none repeated and none a token against itself. */
  lemma SupportedPairsShape()
    ensures |SupportedPairs()| == 32 * 31
    ensures PairKeysDistinct(SupportedPairs())
    ensures forall p :: p in SupportedPairs() ==> p.inputToken != p.outputToken
  {
    var tokens := GetAllTokens();
    RegistrySymbolsDistinct();
    PairsOfLength(tokens, tokens);
    PairsOfDistinct(tokens, tokens);
    NoSelfPairsAndSymmetric(tokens);
  }

  /** `Array.prototype.find` for the pair with the given input and output symbols. */
  function FindPair(ps: seq<FXPair>, inputSymbol: string, outputSymbol: string): (r: Option<FXPair>)
    ensures r.Some? <==> exists k :: 0 <= k < |ps| && ps[k].inputToken == inputSymbol && ps[k].outputToken == outputSymbol
    ensures r.Some? ==> r.value in ps && r.value.inputToken == inputSymbol && r.value.outputToken == outputSymbol
  {
    if ps == [] then None
    else if ps[0].inputToken == inputSymbol && ps[0].outputToken == outputSymbol then Some(ps[0])
    else
      assert forall k :: 1 <= k < |ps| ==> ps[k] == ps[1..][k - 1];
      FindPair(ps[1..], inputSymbol, outputSymbol)
  }

  /** Some token of the list carries the symbol. */
  predicate Listed(tokens: seq<TokenInfo>, symbol: string) {
    exists i :: 0 <= i < |tokens| && tokens[i].symbol == symbol
  }

  /** A pair with the given symbols is generated iff they differ and both are listed. */
  lemma AllPairsLookup(tokens: seq<TokenInfo>, inputSymbol: string, outputSymbol: string)
    ensures (exists k :: 0 <= k < |AllPairs(tokens)| && AllPairs(tokens)[k].inputToken == inputSymbol && AllPairs(tokens)[k].outputToken == outputSymbol)
      <==> inputSymbol != outputSymbol && Listed(tokens, inputSymbol) && Listed(tokens, outputSymbol)
  {
    var ps := AllPairs(tokens);
    PairsOfMembers(tokens, tokens);
    if inputSymbol != outputSymbol && Listed(tokens, inputSymbol) && Listed(tokens, outputSymbol) {
      var i :| 0 <= i < |tokens| && tokens[i].symbol == inputSymbol;
      var j :| 0 <= j < |tokens| && tokens[j].symbol == outputSymbol;
      var p := MakePair(tokens[i], tokens[j]);
      assert p in ps;
      var k :| 0 <= k < |ps| && ps[k] == p;
      assert ps[k].inputToken == inputSymbol && ps[k].outputToken == outputSymbol;
    }
    if k :| 0 <= k < |ps| && ps[k].inputToken == inputSymbol && ps[k].outputToken == outputSymbol {
      assert ps[k] in ps;
    }
  }

  /** A registry symbol is listed among the registry's tokens. */
  lemma RegistryListed(symbol: string)
    ensures HasKey(Registry, symbol) <==> Listed(GetAllTokens(), symbol)
  {
    RegistryHasKey(symbol);
  }

  /** Looking up two registry tokens by their symbols finds those tokens. */
  lemma TokensByPairAt(i: nat, j: nat)
    requires i < |GetAllTokens()| && j < |GetAllTokens()|
    ensures GetTokensByPair(GetAllTokens()[i].symbol, GetAllTokens()[j].symbol) == Some((GetAllTokens()[i], GetAllTokens()[j]))
  {
    LookupBySymbol(i);
    LookupBySymbol(j);
  }

  /** A supported pair is made of the registry tokens its symbols name. */
  lemma SupportedPairTokens(p: FXPair)
    requires p in SupportedPairs()
    ensures GetTokensByPair(p.inputToken, p.outputToken).Some?
    ensures p == MakePair(GetTokensByPair(p.inputToken, p.outputToken).value.0, GetTokensByPair(p.inputToken, p.outputToken).value.1)
  {
    var tokens := GetAllTokens();
    PairsOfMembers(tokens, tokens);
    var i, j :| 0 <= i < |tokens| && 0 <= j < |tokens| && tokens[i].symbol != tokens[j].symbol && p == MakePair(tokens[i], tokens[j]);
    TokensByPairAt(i, j);
  }

  /** `getPairForTokens`: the pair exists iff the symbols differ and both are registry keys. */
  function GetPairForTokens(inputSymbol: string, outputSymbol: string): (r: Option<FXPair>)
    ensures r.Some? <==> inputSymbol != outputSymbol && HasKey(Registry, inputSymbol) && HasKey(Registry, outputSymbol)
    ensures r.Some? ==>
      GetTokensByPair(inputSymbol, outputSymbol).Some? &&
      r.value == MakePair(GetTokensByPair(inputSymbol, outputSymbol).value.0, GetTokensByPair(inputSymbol, outputSymbol).value.1)
  {
    AllPairsLookup(GetAllTokens(), inputSymbol, outputSymbol);
    RegistryListed(inputSymbol);
    RegistryListed(outputSymbol);
    var r := FindPair(SupportedPairs(), inputSymbol, outputSymbol);
    if r.Some? then SupportedPairTokens(r.value); r else r
  }
}
