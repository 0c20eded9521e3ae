/**
 * BasicBot: the symbol-information cache it fills in place, the validators
 * that read through it, the order builders that run them in order, and the
 * loops of `get_balance` and `get_positions`.
 *
 * Every exchange answer is a parameter: `exchangeSymbols` is the symbol list
 * `futures_exchange_info()` would return (None when it raises), and the
 * balance and position lists are those the account calls would return. The
 * `place_*` methods return the request they would hand to
 * `futures_create_order`, or the ValueError they raise before it.
 */
module Bot {
  import opened Wrappers
  import opened Decimals
  import opened Records
  import opened Config
  import opened SymbolCache
  import opened Normalizer
  import opened Orders
  import opened Responses

  class BasicBot {
    const apiKey: string
    const apiSecret: string
    const testnet: bool
    const config: BotConfig
    var symbolInfoCache: map<string, SymbolInfo>

    /** Every cached record is stored under its own symbol. */
    ghost predicate Valid()
      reads this
    {
      Consistent(symbolInfoCache)
    }

    /** `BasicBot(api_key, api_secret, testnet, config)`: no configuration means `BotConfig()`; the cache starts empty. */
    constructor(apiKey: string, apiSecret: string, testnet: bool := true, config: Option<BotConfig> := None)
      ensures this.apiKey == apiKey && this.apiSecret == apiSecret && this.testnet == testnet
      ensures this.config == if config.Some? then config.value else DefaultConfig()
      ensures symbolInfoCache == map[]
      ensures Valid()
    {
      this.apiKey := apiKey;
      this.apiSecret := apiSecret;
      this.testnet := testnet;
      this.config := if config.Some? then config.value else DefaultConfig();
      symbolInfoCache := map[];
    }

    /**
     * `get_symbol_info`: a hit answers from the cache; a miss scans the
     * exchange's list and caches the first record with the symbol.
     */
    method GetSymbolInfo(symbol: string, exchangeSymbols: Option<seq<SymbolInfo>>) returns (r: Result<SymbolInfo, Error>)
      requires Valid()
      modifies this
      ensures Valid()
      ensures r.Success? ==> r.value.symbol == symbol && symbol in symbolInfoCache && symbolInfoCache[symbol] == r.value
      ensures r == Lookup(old(symbolInfoCache), symbol, exchangeSymbols)
      ensures symbolInfoCache == CacheAfter(old(symbolInfoCache), symbol, exchangeSymbols)
    {
      if symbol in symbolInfoCache {
        return Success(symbolInfoCache[symbol]);
      }
      if exchangeSymbols.None? {
        return Failure(ExchangeFailure);
      }
      var symbols := exchangeSymbols.value;
      for i := 0 to |symbols|
        invariant symbolInfoCache == old(symbolInfoCache)
        invariant forall j :: 0 <= j < i ==> symbols[j].symbol != symbol
      {
        var s := symbols[i];
        if s.symbol == symbol {
          symbolInfoCache := symbolInfoCache[symbol := s];
          return Success(s);
        }
      }
      return Failure(SymbolNotFound(symbol));
    }

    /** The shared body of `_validate_quantity` and `_validate_price`; a failed lookup is caught as "Validation skipped". */
    method ValidateField(field: Field, symbol: string, raw: Decimal, exchangeSymbols: Option<seq<SymbolInfo>>)
      returns (r: Checked)
      requires Valid()
      modifies this
      ensures Valid()
      ensures r == Normalize(field, Lookup(old(symbolInfoCache), symbol, exchangeSymbols).ToOption(), raw)
      ensures symbolInfoCache == CacheAfter(old(symbolInfoCache), symbol, exchangeSymbols)
    {
      var info := GetSymbolInfo(symbol, exchangeSymbols);
      if info.Failure? {
        return Checked(true, ValidationSkipped, raw);
      }
      r := ScanFilters(field, info.value.filters, raw);
    }

    method ValidateQuantity(symbol: string, quantity: Decimal, exchangeSymbols: Option<seq<SymbolInfo>>)
      returns (r: Checked)
      requires Valid()
      modifies this
      ensures Valid()
      ensures r == Normalize(Quantity, Lookup(old(symbolInfoCache), symbol, exchangeSymbols).ToOption(), quantity)
      ensures symbolInfoCache == CacheAfter(old(symbolInfoCache), symbol, exchangeSymbols)
    {
      r := ValidateField(Quantity, symbol, quantity, exchangeSymbols);
    }

    method ValidatePrice(symbol: string, price: Decimal, exchangeSymbols: Option<seq<SymbolInfo>>)
      returns (r: Checked)
      requires Valid()
      modifies this
      ensures Valid()
      ensures r == Normalize(Price, Lookup(old(symbolInfoCache), symbol, exchangeSymbols).ToOption(), price)
      ensures symbolInfoCache == CacheAfter(old(symbolInfoCache), symbol, exchangeSymbols)
    {
      r := ValidateField(Price, symbol, price, exchangeSymbols);
    }

    method PlaceMarketOrder(symbol: string, side: Side, quantity: Decimal, exchangeSymbols: Option<seq<SymbolInfo>>,
                            reduceOnly: bool := false)
      returns (r: Result<OrderRequest, Error>)
      requires Valid()
      modifies this
      ensures Valid()
      ensures r == MarketOrder(Lookup(old(symbolInfoCache), symbol, exchangeSymbols).ToOption(),
                               symbol, side, quantity, reduceOnly)
      ensures symbolInfoCache == CacheAfter(old(symbolInfoCache), symbol, exchangeSymbols)
    {
      var q := ValidateQuantity(symbol, quantity, exchangeSymbols);
      if !q.ok {
        return Failure(InvalidParameter(q.message));
      }
      return Success(OrderRequest(symbol, side, Market, q.adjusted, None, None, None, reduceOnly));
    }

    method PlaceLimitOrder(symbol: string, side: Side, quantity: Decimal, price: Decimal,
                           exchangeSymbols: Option<seq<SymbolInfo>>, timeInForce: string := "GTC",
                           reduceOnly: bool := false)
      returns (r: Result<OrderRequest, Error>)
      requires Valid()
      modifies this
      ensures Valid()
      ensures r == LimitOrder(Lookup(old(symbolInfoCache), symbol, exchangeSymbols).ToOption(),
                              symbol, side, quantity, price, timeInForce, reduceOnly)
      ensures symbolInfoCache == CacheAfter(old(symbolInfoCache), symbol, exchangeSymbols)
    {
      LookupIsStable(symbolInfoCache, symbol, exchangeSymbols);
      var q := ValidateQuantity(symbol, quantity, exchangeSymbols);
      if !q.ok {
        return Failure(InvalidParameter(q.message));
      }
      var p := ValidatePrice(symbol, price, exchangeSymbols);
      if !p.ok {
        return Failure(InvalidParameter(p.message));
      }
      return Success(OrderRequest(symbol, side, Limit, q.adjusted, Some(p.adjusted), None, Some(timeInForce), reduceOnly));
    }

    method PlaceStopLimitOrder(symbol: string, side: Side, quantity: Decimal, price: Decimal, stopPrice: Decimal,
                               exchangeSymbols: Option<seq<SymbolInfo>>, timeInForce: string := "GTC",
                               reduceOnly: bool := false)
      returns (r: Result<OrderRequest, Error>)
      requires Valid()
      modifies this
      ensures Valid()
      ensures r == StopLimitOrder(Lookup(old(symbolInfoCache), symbol, exchangeSymbols).ToOption(),
                                  symbol, side, quantity, price, stopPrice, timeInForce, reduceOnly)
      ensures symbolInfoCache == CacheAfter(old(symbolInfoCache), symbol, exchangeSymbols)
    {
      LookupIsStable(symbolInfoCache, symbol, exchangeSymbols);
      var q := ValidateQuantity(symbol, quantity, exchangeSymbols);
      if !q.ok {
        return Failure(InvalidParameter(q.message));
      }
      var p := ValidatePrice(symbol, price, exchangeSymbols);
      if !p.ok {
        return Failure(InvalidParameter(p.message));
      }
      var s := ValidatePrice(symbol, stopPrice, exchangeSymbols);
      if !s.ok {
        return Failure(InvalidParameter(s.message));
      }
      return Success(OrderRequest(symbol, side, StopLimit, q.adjusted, Some(p.adjusted), Some(s.adjusted),
                                  Some(timeInForce), reduceOnly));
    }

    method PlaceStopMarketOrder(symbol: string, side: Side, quantity: Decimal, stopPrice: Decimal,
                                exchangeSymbols: Option<seq<SymbolInfo>>, reduceOnly: bool := false)
      returns (r: Result<OrderRequest, Error>)
      requires Valid()
      modifies this
      ensures Valid()
      ensures r == StopMarketOrder(Lookup(old(symbolInfoCache), symbol, exchangeSymbols).ToOption(),
                                   symbol, side, quantity, stopPrice, reduceOnly)
      ensures symbolInfoCache == CacheAfter(old(symbolInfoCache), symbol, exchangeSymbols)
    {
      LookupIsStable(symbolInfoCache, symbol, exchangeSymbols);
      var q := ValidateQuantity(symbol, quantity, exchangeSymbols);
      if !q.ok {
        return Failure(InvalidParameter(q.message));
      }
      var s := ValidatePrice(symbol, stopPrice, exchangeSymbols);
      if !s.ok {
        return Failure(InvalidParameter(s.message));
      }
      return Success(OrderRequest(symbol, side, StopMarket, q.adjusted, None, Some(s.adjusted), None, reduceOnly));
    }

    /** The parameters start as a TAKE_PROFIT_MARKET order and are rewritten in place when a limit price is given. */
    method PlaceTakeProfitOrder(symbol: string, side: Side, quantity: Decimal, stopPrice: Decimal,
                                exchangeSymbols: Option<seq<SymbolInfo>>, price: Option<Decimal> := None,
                                reduceOnly: bool := true)
      returns (r: Result<OrderRequest, Error>)
      requires Valid()
      modifies this
      ensures Valid()
      ensures r == TakeProfitOrder(Lookup(old(symbolInfoCache), symbol, exchangeSymbols).ToOption(),
                                   symbol, side, quantity, stopPrice, price, reduceOnly)
      ensures symbolInfoCache == CacheAfter(old(symbolInfoCache), symbol, exchangeSymbols)
    {
      LookupIsStable(symbolInfoCache, symbol, exchangeSymbols);
      var q := ValidateQuantity(symbol, quantity, exchangeSymbols);
      if !q.ok {
        return Failure(InvalidParameter(q.message));
      }
      var s := ValidatePrice(symbol, stopPrice, exchangeSymbols);
      if !s.ok {
        return Failure(InvalidParameter(s.message));
      }
      var params := OrderRequest(symbol, side, TakeProfitMarket, q.adjusted, None, Some(s.adjusted), None, reduceOnly);
      if PriceGiven(price) {
        var p := ValidatePrice(symbol, price.value, exchangeSymbols);
        if !p.ok {
          return Failure(InvalidParameter(p.message));
        }
        params := params.(orderType := TakeProfitLimit, price := Some(p.adjusted), timeInForce := Some("GTC"));
      }
      return Success(params);
    }

    /** `get_balance`: the loop returns at the first record of the asset. */
    method GetBalance(balances: seq<BalanceRecord>, asset: string := "USDT") returns (r: Balance)
      ensures r == BalanceOf(asset, balances)
    {
      for i := 0 to |balances|
        invariant forall j :: 0 <= j < i ==> balances[j].asset != asset
      {
        if balances[i].asset == asset {
          return ToBalance(asset, balances[i]);
        }
      }
      return Balance(asset, Zero, Zero, Zero);
    }

    /** `get_positions`: the symbol filter, then the loop appending the open positions. */
    method GetPositions(positions: seq<PositionRecord>, symbol: Option<string> := None) returns (active: seq<Position>)
      ensures active == ReportedPositions(positions, symbol)
    {
      var selected := positions;
      if Requested(symbol) {
        selected := ForSymbol(positions, symbol);
      }
      active := [];
      for i := 0 to |selected|
        invariant active == ActivePositions(selected[..i])
      {
        assert selected[..i + 1][..i] == selected[..i];
        if IsActive(selected[i]) {
          active := active + [ToPosition(selected[i])];
        }
      }
      assert selected[..|selected|] == selected;
      PositionsAreReported(positions, symbol);
    }
  }
}
