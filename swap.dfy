/**
 * Problem2/src/App.tsx: the non-numeric logic of the swap form, namely the
 * price lookup, the token search and the state changes made when a token is
 * picked from the selection modal.
 */
module Swap {
  import opened Wrappers
  import opened Text

  datatype Token = Token(symbol: string, name: string, logo: Option<string>, address: string)

  /** One entry of prices.json. */
  datatype PriceEntry = PriceEntry(currency: string, date: string, price: real)

  datatype Panel = Sell | Buy

  // ----------------------------------------------------------- price lookup

  /** The symbol map inside getTokenPrice. */
  const SymbolMap: map<string, string> := map[
    "SOL" := "SOL", "USDC" := "USDC", "USDe" := "USDe", "TRX" := "TRX",
    "APT" := "APT", "PENGU" := "PENGU", "WLD" := "WLD", "DRIFT" := "DRIFT",
    "JUP" := "JUP", "ETH" := "ETH", "BUSD" := "BUSD", "USD" := "USD",
    "LUNA" := "LUNA"]

  /** `symbolMap[symbol] || symbol`: an absent key or an empty value falls back to the symbol. */
  function MappedSymbol(symbol: string): (m: string)
    ensures m == symbol
  {
    if symbol in SymbolMap && SymbolMap[symbol] != "" then SymbolMap[symbol] else symbol
  }

  /** The map lists thirteen symbols, each mapped to itself. */
  lemma SymbolMapIsIdentity()
    ensures SymbolMap.Keys == {"SOL", "USDC", "USDe", "TRX", "APT", "PENGU", "WLD", "DRIFT",
                               "JUP", "ETH", "BUSD", "USD", "LUNA"}
    ensures forall k :: k in SymbolMap ==> SymbolMap[k] == k
  {
  }

  /** Entry i is the earliest whose currency is `currency`. */
  predicate IsFirstMatch(prices: seq<PriceEntry>, currency: string, i: nat) {
    i < |prices| && prices[i].currency == currency &&
    forall j :: 0 <= j < i ==> prices[j].currency != currency
  }

  /** `prices.find(p => p.currency === currency)`, as the index of the first match. */
  function FindPriceIndex(prices: seq<PriceEntry>, currency: string): (r: Option<nat>)
    ensures r.Some? ==> IsFirstMatch(prices, currency, r.value)
    ensures r.None? <==> forall j :: 0 <= j < |prices| ==> prices[j].currency != currency
  {
    if prices == [] then None
    else if prices[0].currency == currency then Some(0)
    else
      match FindPriceIndex(prices[1..], currency)
      case None => None
      case Some(i) => Some(i + 1)
  }

  /** getTokenPrice: never null; the first matching entry's price, else the fallback 1.0. */
  function GetTokenPrice(prices: seq<PriceEntry>, symbol: string): (p: real)
    ensures (forall j :: 0 <= j < |prices| ==> prices[j].currency != symbol) ==> p == 1.0
    ensures forall i: nat :: IsFirstMatch(prices, symbol, i) ==> p == prices[i].price
  {
    match FindPriceIndex(prices, MappedSymbol(symbol))
    case Some(i) => prices[i].price
    case None => 1.0
  }

  /** Entries after the first match never change the price. */
  lemma {:induction false} EarliestEntryWins(prices: seq<PriceEntry>, later: seq<PriceEntry>, symbol: string)
    requires exists i :: 0 <= i < |prices| && prices[i].currency == symbol
    ensures GetTokenPrice(prices + later, symbol) == GetTokenPrice(prices, symbol)
  {
    var i :| 0 <= i < |prices| && prices[i].currency == symbol;
    var k := FindPriceIndex(prices, symbol).value;
    var all := prices + later;
    assert all[k] == prices[k];
    assert forall j :: 0 <= j < k ==> all[j] == prices[j];
  }

  // ------------------------------------------------------------ token search

  /** The tokens offered in both selection modals. */
  const TokenList: seq<Token> := [
    Token("USDe", "USDe", None, "DEkq...EonT"),
    Token("TRX", "Tron", None, "Gbbe...LKkc"),
    Token("APT", "Aptos", None, "DTDQ...nkpC"),
    Token("PENGU", "Pudgy Penguins", None, "2zMM...uauv"),
    Token("WLD", "Worldcoin (Wormhole)", None, "DN4L...VDFK"),
    Token("DRIFT", "Drift", None, "DriF...jwg7"),
    Token("JUP", "Jupiter", None, "JUPy...DvCN")]

  /** The modal offers seven tokens, no symbol twice. */
  lemma TokenListShape()
    ensures |TokenList| == 7
    ensures forall i, j :: 0 <= i < j < |TokenList| ==> TokenList[i].symbol != TokenList[j].symbol
  {
    var symbols := ["USDe", "TRX", "APT", "PENGU", "WLD", "DRIFT", "JUP"];
    assert forall i :: 0 <= i < 7 ==> TokenList[i].symbol == symbols[i];
    assert forall i, j :: 0 <= i < j < 7 ==> symbols[i][0] != symbols[j][0] || symbols[i][1] != symbols[j][1];
  }

  /** Every offered token has its own entry in the symbol map. */
  lemma TokenListPriced()
    ensures forall t :: t in TokenList ==> t.symbol in SymbolMap && MappedSymbol(t.symbol) == t.symbol
  {
  }

  /** The filter callback: the lower-cased query occurs in the lower-cased symbol, name or address. */
  predicate MatchesQuery(t: Token, query: string): (r: bool)
    ensures query == "" ==> r
    ensures r <==> Occurs(ToLower(t.symbol), ToLower(query)) || Occurs(ToLower(t.name), ToLower(query))
                   || Occurs(ToLower(t.address), ToLower(query))
  {
    var q := ToLower(query);
    assert query == "" ==> q == [];
    IncludesIffOccurs(ToLower(t.symbol), q);
    IncludesIffOccurs(ToLower(t.name), q);
    IncludesIffOccurs(ToLower(t.address), q);
    Includes(ToLower(t.symbol), q) || Includes(ToLower(t.name), q) || Includes(ToLower(t.address), q)
  }

  function FilterByQuery(tokens: seq<Token>, query: string): (r: seq<Token>)
    ensures forall t :: t in r <==> t in tokens && MatchesQuery(t, query)
    ensures forall t :: multiset(r)[t] == if MatchesQuery(t, query) then multiset(tokens)[t] else 0
    ensures IsSubsequence(r, tokens)
  {
    if tokens == [] then []
    else
      var rest := FilterByQuery(tokens[1..], query);
      assert tokens == [tokens[0]] + tokens[1..];
      if MatchesQuery(tokens[0], query) then [tokens[0]] + rest else rest
  }

  /** The empty query matches every token, so the filter alone would also return all of them. */
  lemma {:induction false} EmptyQueryKeepsAll(tokens: seq<Token>)
    ensures FilterByQuery(tokens, "") == tokens
  {
    if tokens != [] {
      EmptyQueryKeepsAll(tokens[1..]);
    }
  }

  /** filteredTokens: the whole list for an empty query, otherwise the matches in list order. */
  function FilteredTokens(tokens: seq<Token>, searchQuery: string): (r: seq<Token>)
    ensures searchQuery == "" ==> r == tokens
    ensures forall t :: t in r <==> t in tokens && MatchesQuery(t, searchQuery)
    ensures forall t :: multiset(r)[t] == if MatchesQuery(t, searchQuery) then multiset(tokens)[t] else 0
    ensures IsSubsequence(r, tokens)
  {
    if searchQuery != "" then FilterByQuery(tokens, searchQuery)
    else
      SubsequenceOfSelf(tokens);
      tokens
  }

  /** Queries that differ only in ASCII letter case select the same tokens. */
  lemma {:induction false} FilterIgnoresCase(tokens: seq<Token>, q1: string, q2: string)
    requires EqualIgnoringCase(q1, q2)
    ensures FilteredTokens(tokens, q1) == FilteredTokens(tokens, q2)
  {
    ToLowerEqualIffEqualIgnoringCase(q1, q2);
    FilterByQueryIgnoresCase(tokens, q1, q2);
  }

  lemma {:induction false} FilterByQueryIgnoresCase(tokens: seq<Token>, q1: string, q2: string)
    requires ToLower(q1) == ToLower(q2)
    ensures FilterByQuery(tokens, q1) == FilterByQuery(tokens, q2)
  {
    if tokens != [] {
      FilterByQueryIgnoresCase(tokens[1..], q1, q2);
    }
  }

  // ------------------------------------------------------------- form state

  /** The App component's token, modal, search and panel state. */
  class SwapForm {
    var sellToken: Token
    var buyToken: Token
    var showSellTokenModal: bool
    var showBuyTokenModal: bool
    var searchQuery: string
    var activePanel: Panel

    /** The initial useState values. */
    constructor ()
      ensures sellToken == Token("SOL", "Solana", None, "DEkq...EonT")
      ensures buyToken == Token("USDC", "USD Coin", None, "EPjF...Zj2c")
      ensures !showSellTokenModal && !showBuyTokenModal
      ensures searchQuery == "" && activePanel == Sell
    {
      sellToken := Token("SOL", "Solana", None, "DEkq...EonT");
      buyToken := Token("USDC", "USD Coin", None, "EPjF...Zj2c");
      showSellTokenModal, showBuyTokenModal := false, false;
      searchQuery := "";
      activePanel := Sell;
    }

    /** The tokens the open modal lists. */
    function VisibleTokens(): (r: seq<Token>)
      reads this
      ensures searchQuery == "" ==> r == TokenList
      ensures forall t :: t in r <==> t in TokenList && MatchesQuery(t, searchQuery)
    {
      FilteredTokens(TokenList, searchQuery)
    }

    /** Clicking the sell panel's currency selector. */
    method OpenSellSelector()
      modifies this
      ensures activePanel == Sell && showSellTokenModal
      ensures sellToken == old(sellToken) && buyToken == old(buyToken)
      ensures showBuyTokenModal == old(showBuyTokenModal) && searchQuery == old(searchQuery)
    {
      activePanel := Sell;
      showSellTokenModal := true;
    }

    /** Clicking the buy panel's currency selector. */
    method OpenBuySelector()
      modifies this
      ensures activePanel == Buy && showBuyTokenModal
      ensures sellToken == old(sellToken) && buyToken == old(buyToken)
      ensures showSellTokenModal == old(showSellTokenModal) && searchQuery == old(searchQuery)
    {
      activePanel := Buy;
      showBuyTokenModal := true;
    }

    /** The sell modal's close button. */
    method CloseSellModal()
      modifies this`showSellTokenModal
      ensures !showSellTokenModal
    {
      showSellTokenModal := false;
    }

    /** The buy modal's close button. */
    method CloseBuyModal()
      modifies this`showBuyTokenModal
      ensures !showBuyTokenModal
    {
      showBuyTokenModal := false;
    }

    /** Typing into either modal's search box. */
    method SetSearchQuery(query: string)
      modifies this`searchQuery
      ensures searchQuery == query
    {
      searchQuery := query;
    }

    /**
     * handleTokenSelect without its amount recomputation: the active panel's
     * token is replaced and its modal hidden, the other panel is untouched,
     * and the search query is cleared, so the next modal lists every token.
     */
    method HandleTokenSelect(token: Token)
      modifies this
      ensures old(activePanel) == Sell ==>
        sellToken == token && !showSellTokenModal &&
        buyToken == old(buyToken) && showBuyTokenModal == old(showBuyTokenModal)
      ensures old(activePanel) == Buy ==>
        buyToken == token && !showBuyTokenModal &&
        sellToken == old(sellToken) && showSellTokenModal == old(showSellTokenModal)
      ensures activePanel == old(activePanel)
      ensures searchQuery == "" && VisibleTokens() == TokenList
    {
      if activePanel == Sell {
        sellToken := token;
        showSellTokenModal := false;
      } else {
        buyToken := token;
        showBuyTokenModal := false;
      }
      searchQuery := "";
    }
  }

  /** Opening the sell selector and picking a token changes only the sell side. */
  method SelectSellToken(form: SwapForm, token: Token)
    modifies form
    ensures form.sellToken == token && form.buyToken == old(form.buyToken)
    ensures !form.showSellTokenModal && form.showBuyTokenModal == old(form.showBuyTokenModal)
    ensures form.searchQuery == ""
  {
    form.OpenSellSelector();
    form.HandleTokenSelect(token);
  }
}
