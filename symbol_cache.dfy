/**
 * The symbol-information cache of BasicBot (`get_symbol_info`): a hit returns
 * the stored record; a miss asks the exchange for its symbol list, stores and
 * returns the first record with that symbol, or raises ValueError when there
 * is none. Entries are never replaced or removed.
 *
 * The exchange's answer is a parameter: Some(symbols) is the "symbols" list of
 * `futures_exchange_info()`, None stands for that call raising.
 */
module SymbolCache {
  import opened Wrappers
  import opened Records

  /** The first record of the list with the given symbol, as the lookup loop finds it. */
  function FindSymbol(symbols: seq<SymbolInfo>, symbol: string): (r: Option<SymbolInfo>)
    ensures r.Some? ==> exists i :: (0 <= i < |symbols| && symbols[i] == r.value
      && r.value.symbol == symbol
      && forall j :: 0 <= j < i ==> symbols[j].symbol != symbol)
    ensures r.None? <==> forall i :: 0 <= i < |symbols| ==> symbols[i].symbol != symbol
  {
    if |symbols| == 0 then None
    else if symbols[0].symbol == symbol then Some(symbols[0])
    else
      var r := FindSymbol(symbols[1..], symbol);
      assert forall i :: 1 <= i < |symbols| ==> symbols[i] == symbols[1..][i - 1];
      r
  }

  /** What `get_symbol_info` returns or raises, given the cache before the call. */
  function Lookup(cache: map<string, SymbolInfo>, symbol: string, exchangeSymbols: Option<seq<SymbolInfo>>)
    : (r: Result<SymbolInfo, Error>)
    ensures symbol in cache ==> r == Success(cache[symbol])
    ensures symbol !in cache && exchangeSymbols.None? ==> r == Failure(ExchangeFailure)
    ensures symbol !in cache && exchangeSymbols.Some? ==>
      (r.Success? <==> exists i :: 0 <= i < |exchangeSymbols.value| && exchangeSymbols.value[i].symbol == symbol)
    ensures symbol !in cache && r.Success? ==> r.value.symbol == symbol
    ensures symbol !in cache && exchangeSymbols.Some? && r.Success? ==>
      var symbols := exchangeSymbols.value;
      exists i :: && 0 <= i < |symbols| && symbols[i] == r.value
                  && forall j :: 0 <= j < i ==> symbols[j].symbol != symbol
    ensures symbol !in cache && exchangeSymbols.Some? && r.Failure? ==> r.error == SymbolNotFound(symbol)
    ensures r.Failure? ==> r.error == ExchangeFailure || r.error == SymbolNotFound(symbol)
  {
    if symbol in cache then Success(cache[symbol])
    else
      match exchangeSymbols
      case None => Failure(ExchangeFailure)
      case Some(symbols) =>
        match FindSymbol(symbols, symbol)
        case None => Failure(SymbolNotFound(symbol))
        case Some(s) => Success(s)
  }

  /** The cache after `get_symbol_info`: only the requested symbol can be added, and nothing is replaced or removed. */
  function CacheAfter(cache: map<string, SymbolInfo>, symbol: string, exchangeSymbols: Option<seq<SymbolInfo>>)
    : (c: map<string, SymbolInfo>)
    ensures forall k :: k in cache ==> k in c && c[k] == cache[k]
    ensures forall k :: k in c ==> k in cache || k == symbol
  {
    match Lookup(cache, symbol, exchangeSymbols)
    case Failure(_) => cache
    case Success(s) => cache[symbol := s]
  }

  /** Every cached record is stored under its own symbol. */
  ghost predicate Consistent(cache: map<string, SymbolInfo>)
  {
    forall k :: k in cache ==> cache[k].symbol == k
  }

  /**
   * What the lookup returns is what the cache holds afterwards: a success
   * leaves the record cached under the symbol, and a failure leaves the cache
   * as it was. A consistent cache stays consistent, and the returned record
   * carries the requested symbol.
   */
  lemma LookupIsCached(cache: map<string, SymbolInfo>, symbol: string, exchangeSymbols: Option<seq<SymbolInfo>>)
    requires Consistent(cache)
    ensures var r := Lookup(cache, symbol, exchangeSymbols);
      var c := CacheAfter(cache, symbol, exchangeSymbols);
      && Consistent(c)
      && (r.Success? ==> symbol in c && c[symbol] == r.value && r.value.symbol == symbol)
      && (r.Failure? ==> c == cache)
  {
  }

  /** A hit answers from the cache, whatever the exchange would say: no fetch is made. */
  lemma HitIgnoresExchange(cache: map<string, SymbolInfo>, symbol: string, a: Option<seq<SymbolInfo>>, b: Option<seq<SymbolInfo>>)
    requires symbol in cache
    ensures Lookup(cache, symbol, a) == Lookup(cache, symbol, b) == Success(cache[symbol])
    ensures CacheAfter(cache, symbol, a) == cache
  {
  }

  /** An unknown symbol raises and leaves the cache unchanged. */
  lemma UnknownSymbolRaises(cache: map<string, SymbolInfo>, symbol: string, symbols: seq<SymbolInfo>)
    requires symbol !in cache
    requires forall i :: 0 <= i < |symbols| ==> symbols[i].symbol != symbol
    ensures Lookup(cache, symbol, Some(symbols)) == Failure(SymbolNotFound(symbol))
    ensures CacheAfter(cache, symbol, Some(symbols)) == cache
  {
  }

  /**
   * Asking again for the same symbol against the same exchange answer gives
   * the same result and changes the cache no further; this is why all the
   * validations of one order see the same symbol record.
   */
  lemma LookupIsStable(cache: map<string, SymbolInfo>, symbol: string, exchangeSymbols: Option<seq<SymbolInfo>>)
    ensures Lookup(CacheAfter(cache, symbol, exchangeSymbols), symbol, exchangeSymbols)
         == Lookup(cache, symbol, exchangeSymbols)
    ensures CacheAfter(CacheAfter(cache, symbol, exchangeSymbols), symbol, exchangeSymbols)
         == CacheAfter(cache, symbol, exchangeSymbols)
  {
  }
}
