/**
 * The order parameters BasicBot hands to `futures_create_order`, and the
 * local checks each `place_*` method runs before that call: the quantity and
 * price fields are validated in a fixed order, the first failing validation
 * raises ValueError with its message, and the request is built from the
 * adjusted values only. `set_leverage` checks its range the same way.
 *
 * `info` is the outcome of `get_symbol_info` for the order's symbol (None when
 * it raised); every validation of one order sees the same outcome
 * (SymbolCache.LookupIsStable).
 */
module Orders {
  import opened Wrappers
  import opened Decimals
  import opened Records
  import opened Normalizer

  datatype Side = Buy | Sell

  /** The order types the bot sends, with the exchange's names in comments. */
  datatype OrderType =
    | Market            // "MARKET"
    | Limit             // "LIMIT"
    | StopMarket        // "STOP_MARKET"
    | StopLimit         // "STOP"
    | TakeProfitMarket  // "TAKE_PROFIT_MARKET"
    | TakeProfitLimit   // "TAKE_PROFIT"

  /** The keyword arguments of `futures_create_order`; None is a key that is not sent. */
  datatype OrderRequest = OrderRequest(
    symbol: string,
    side: Side,
    orderType: OrderType,
    quantity: Decimal,
    price: Option<Decimal>,
    stopPrice: Option<Decimal>,
    timeInForce: Option<string>,
    reduceOnly: bool)

  /**
   * The keys each order type carries: a limit price and a time in force for
   * the limit kinds, a stop price for the triggered kinds, and nothing else.
   */
  predicate WellFormed(r: OrderRequest)
  {
    var limit := r.orderType in {Limit, StopLimit, TakeProfitLimit};
    var triggered := r.orderType in {StopMarket, StopLimit, TakeProfitMarket, TakeProfitLimit};
    && (r.price.Some? <==> limit)
    && (r.timeInForce.Some? <==> limit)
    && (r.stopPrice.Some? <==> triggered)
  }

  /**
   * Runs the validations in order: either all pass and their adjusted values
   * come back in the same order, or the first failing one's message is raised.
   */
  function Validated(checks: seq<Checked>): (r: Result<seq<Decimal>, Error>)
    ensures r.Success? <==> forall i :: 0 <= i < |checks| ==> checks[i].ok
    ensures r.Success? ==> |r.value| == |checks| && forall i :: 0 <= i < |checks| ==> r.value[i] == checks[i].adjusted
    ensures r.Failure? ==> exists i :: (0 <= i < |checks| && !checks[i].ok
      && r.error == InvalidParameter(checks[i].message)
      && forall j :: 0 <= j < i ==> checks[j].ok)
  {
    if |checks| == 0 then Success([])
    else if !checks[0].ok then Failure(InvalidParameter(checks[0].message))
    else
      var rest := Validated(checks[1..]);
      assert forall i :: 1 <= i < |checks| ==> checks[i] == checks[1..][i - 1];
      match rest
      case Failure(e) => Failure(e)
      case Success(vs) => Success([checks[0].adjusted] + vs)
  }

  /** Two validations: the first failure in order, or both adjusted values. */
  lemma ValidatedPair(a: Checked, b: Checked)
    ensures Validated([a, b]) == if !a.ok then Failure(InvalidParameter(a.message))
                                 else if !b.ok then Failure(InvalidParameter(b.message))
                                 else Success([a.adjusted, b.adjusted])
  {
    assert [a, b][1..] == [b];
    assert [b][1..] == [];
    assert Validated([]) == Success([]);
    assert [b.adjusted] + [] == [b.adjusted];
    assert Validated([b]) == if !b.ok then Failure(InvalidParameter(b.message)) else Success([b.adjusted]);
    assert [a.adjusted] + [b.adjusted] == [a.adjusted, b.adjusted];
  }

  /** Three validations: the first failure in order, or the three adjusted values. */
  lemma ValidatedTriple(a: Checked, b: Checked, c: Checked)
    ensures Validated([a, b, c]) == if !a.ok then Failure(InvalidParameter(a.message))
                                    else if !b.ok then Failure(InvalidParameter(b.message))
                                    else if !c.ok then Failure(InvalidParameter(c.message))
                                    else Success([a.adjusted, b.adjusted, c.adjusted])
  {
    assert [a, b, c][1..] == [b, c];
    ValidatedPair(b, c);
    assert [a.adjusted] + [b.adjusted, c.adjusted] == [a.adjusted, b.adjusted, c.adjusted];
  }

  /** `place_market_order`: the quantity is validated. */
  function MarketOrder(info: Option<SymbolInfo>, symbol: string, side: Side, quantity: Decimal,
                       reduceOnly: bool := false): (r: Result<OrderRequest, Error>)
    ensures var q := Normalize(Quantity, info, quantity);
      && (r.Failure? <==> !q.ok)
      && (r.Failure? ==> r.error == InvalidParameter(q.message))
      && (r.Success? ==> && WellFormed(r.value) && r.value.orderType == Market
                         && r.value.symbol == symbol && r.value.side == side
                         && r.value.quantity == q.adjusted && r.value.reduceOnly == reduceOnly)
  {
    var adj :- Validated([Normalize(Quantity, info, quantity)]);
    Success(OrderRequest(symbol, side, Market, adj[0], None, None, None, reduceOnly))
  }

  /** `place_limit_order`: the quantity, then the price. */
  function LimitOrder(info: Option<SymbolInfo>, symbol: string, side: Side, quantity: Decimal, price: Decimal,
                      timeInForce: string := "GTC", reduceOnly: bool := false): (r: Result<OrderRequest, Error>)
    ensures var q, p := Normalize(Quantity, info, quantity), Normalize(Price, info, price);
      && (r.Failure? <==> !q.ok || !p.ok)
      && (!q.ok ==> r.error == InvalidParameter(q.message))
      && (q.ok && !p.ok ==> r.error == InvalidParameter(p.message))
      && (r.Success? ==> && WellFormed(r.value) && r.value.orderType == Limit
                         && r.value.symbol == symbol && r.value.side == side
                         && r.value.quantity == q.adjusted && r.value.price == Some(p.adjusted)
                         && r.value.timeInForce == Some(timeInForce) && r.value.reduceOnly == reduceOnly)
  {
    var adj :- Validated([Normalize(Quantity, info, quantity), Normalize(Price, info, price)]);
    Success(OrderRequest(symbol, side, Limit, adj[0], Some(adj[1]), None, Some(timeInForce), reduceOnly))
  }

  /** `place_stop_limit_order`: the quantity, the limit price, then the stop price; sent as type "STOP". */
  function StopLimitOrder(info: Option<SymbolInfo>, symbol: string, side: Side, quantity: Decimal, price: Decimal,
                          stopPrice: Decimal, timeInForce: string := "GTC", reduceOnly: bool := false)
    : (r: Result<OrderRequest, Error>)
    ensures var q, p, s := Normalize(Quantity, info, quantity), Normalize(Price, info, price),
                           Normalize(Price, info, stopPrice);
      && (r.Failure? <==> !q.ok || !p.ok || !s.ok)
      && (!q.ok ==> r.error == InvalidParameter(q.message))
      && (q.ok && !p.ok ==> r.error == InvalidParameter(p.message))
      && (q.ok && p.ok && !s.ok ==> r.error == InvalidParameter(s.message))
      && (r.Success? ==> && WellFormed(r.value) && r.value.orderType == StopLimit
                         && r.value.symbol == symbol && r.value.side == side
                         && r.value.quantity == q.adjusted && r.value.price == Some(p.adjusted)
                         && r.value.stopPrice == Some(s.adjusted)
                         && r.value.timeInForce == Some(timeInForce) && r.value.reduceOnly == reduceOnly)
  {
    var q, p, s := Normalize(Quantity, info, quantity), Normalize(Price, info, price),
                   Normalize(Price, info, stopPrice);
    ValidatedTriple(q, p, s);
    var adj :- Validated([q, p, s]);
    Success(OrderRequest(symbol, side, StopLimit, adj[0], Some(adj[1]), Some(adj[2]), Some(timeInForce), reduceOnly))
  }

  /** `place_stop_market_order`: the quantity, then the stop price. */
  function StopMarketOrder(info: Option<SymbolInfo>, symbol: string, side: Side, quantity: Decimal,
                           stopPrice: Decimal, reduceOnly: bool := false): (r: Result<OrderRequest, Error>)
    ensures var q, s := Normalize(Quantity, info, quantity), Normalize(Price, info, stopPrice);
      && (r.Failure? <==> !q.ok || !s.ok)
      && (!q.ok ==> r.error == InvalidParameter(q.message))
      && (q.ok && !s.ok ==> r.error == InvalidParameter(s.message))
      && (r.Success? ==> && WellFormed(r.value) && r.value.orderType == StopMarket
                         && r.value.symbol == symbol && r.value.side == side
                         && r.value.quantity == q.adjusted && r.value.stopPrice == Some(s.adjusted)
                         && r.value.reduceOnly == reduceOnly)
  {
    var adj :- Validated([Normalize(Quantity, info, quantity), Normalize(Price, info, stopPrice)]);
    Success(OrderRequest(symbol, side, StopMarket, adj[0], None, Some(adj[1]), None, reduceOnly))
  }

  /** Python's `if price:` on an optional float: None and 0.0 are false. */
  predicate PriceGiven(price: Option<Decimal>)
    ensures PriceGiven(price) <==> price.Some? && !SameValue(price.value, Zero)
  {
    match price
    case None => false
    case Some(p) =>
      assert At(p, p.scale) == p.mant && At(Zero, p.scale) == 0;
      p.mant != 0
  }

  /**
   * `place_take_profit_order`: a TAKE_PROFIT_MARKET order, which a given
   * limit price turns into a TAKE_PROFIT order with that price (validated
   * last) and GTC. Reduce-only by default.
   */
  function TakeProfitOrder(info: Option<SymbolInfo>, symbol: string, side: Side, quantity: Decimal,
                           stopPrice: Decimal, price: Option<Decimal> := None, reduceOnly: bool := true)
    : (r: Result<OrderRequest, Error>)
    ensures var q, s := Normalize(Quantity, info, quantity), Normalize(Price, info, stopPrice);
      var given := PriceGiven(price);
      && (r.Failure? <==> !q.ok || !s.ok || (given && !Normalize(Price, info, price.value).ok))
      && (!q.ok ==> r.error == InvalidParameter(q.message))
      && (q.ok && !s.ok ==> r.error == InvalidParameter(s.message))
      && ((q.ok && s.ok && given && !Normalize(Price, info, price.value).ok)
            ==> r.error == InvalidParameter(Normalize(Price, info, price.value).message))
      && (r.Success? ==> && WellFormed(r.value)
                         && r.value.orderType == (if given then TakeProfitLimit else TakeProfitMarket)
                         && r.value.symbol == symbol && r.value.side == side
                         && r.value.quantity == q.adjusted && r.value.stopPrice == Some(s.adjusted)
                         && (given ==> r.value.price == Some(Normalize(Price, info, price.value).adjusted)
                                       && r.value.timeInForce == Some("GTC"))
                         && r.value.reduceOnly == reduceOnly)
  {
    var q, s := Normalize(Quantity, info, quantity), Normalize(Price, info, stopPrice);
    if PriceGiven(price) then
      var p := Normalize(Price, info, price.value);
      ValidatedTriple(q, s, p);
      var adj :- Validated([q, s, p]);
      var params := OrderRequest(symbol, side, TakeProfitMarket, adj[0], None, Some(adj[1]), None, reduceOnly);
      Success(params.(orderType := TakeProfitLimit, price := Some(adj[2]), timeInForce := Some("GTC")))
    else
      ValidatedPair(q, s);
      var adj :- Validated([q, s]);
      Success(OrderRequest(symbol, side, TakeProfitMarket, adj[0], None, Some(adj[1]), None, reduceOnly))
  }

  /** What `futures_change_leverage` is asked to do. */
  datatype LeverageRequest = LeverageRequest(symbol: string, leverage: int)

  /** `set_leverage`: a leverage outside 1..125 raises before any exchange call. */
  function SetLeverage(symbol: string, leverage: int): (r: Result<LeverageRequest, Error>)
    ensures r.Success? <==> 1 <= leverage <= 125
    ensures r.Success? ==> r.value == LeverageRequest(symbol, leverage)
    ensures r.Failure? ==> r.error == LeverageOutOfRange
  {
    if leverage < 1 || leverage > 125 then Failure(LeverageOutOfRange)
    else Success(LeverageRequest(symbol, leverage))
  }

  /** What the validators can reject a value for: a bound it violates, reported with the raw value. */
  predicate IsBoundViolation(m: Message)
  {
    || (m.BelowMinimum? && Less(m.value, m.minimum))
    || (m.AboveMaximum? && Less(m.maximum, m.value))
  }

  /** A validator only ever rejects a value for being outside its filter's bounds. */
  lemma RejectionIsBoundViolation(field: Field, info: Option<SymbolInfo>, raw: Decimal)
    requires !Normalize(field, info, raw).ok
    ensures IsBoundViolation(Normalize(field, info, raw).message)
    ensures Normalize(field, info, raw).message.BelowMinimum? ==> Normalize(field, info, raw).message.value == raw
    ensures Normalize(field, info, raw).message.AboveMaximum? ==> Normalize(field, info, raw).message.value == raw
  {
  }

  /** Every order a builder refuses is refused for a bound violation of one of its fields. */
  lemma {:induction false} RefusalIsBoundViolation(checks: seq<Checked>)
    requires forall i :: 0 <= i < |checks| ==> !checks[i].ok ==> IsBoundViolation(checks[i].message)
    requires Validated(checks).Failure?
    ensures Validated(checks).error.InvalidParameter?
    ensures IsBoundViolation(Validated(checks).error.reason)
  {
  }

  /**
   * When the symbol information cannot be had (unknown symbol or an exchange
   * error), no validation fails, so every builder sends exactly the raw values
   * it was given.
   */
  lemma UnknownSymbolSendsRawValues(symbol: string, side: Side, quantity: Decimal, price: Decimal, stopPrice: Decimal,
                                    timeInForce: string, reduceOnly: bool, limitPrice: Option<Decimal>)
    ensures MarketOrder(None, symbol, side, quantity, reduceOnly)
         == Success(OrderRequest(symbol, side, Market, quantity, None, None, None, reduceOnly))
    ensures LimitOrder(None, symbol, side, quantity, price, timeInForce, reduceOnly)
         == Success(OrderRequest(symbol, side, Limit, quantity, Some(price), None, Some(timeInForce), reduceOnly))
    ensures StopLimitOrder(None, symbol, side, quantity, price, stopPrice, timeInForce, reduceOnly)
         == Success(OrderRequest(symbol, side, StopLimit, quantity, Some(price), Some(stopPrice), Some(timeInForce),
                                 reduceOnly))
    ensures StopMarketOrder(None, symbol, side, quantity, stopPrice, reduceOnly)
         == Success(OrderRequest(symbol, side, StopMarket, quantity, None, Some(stopPrice), None, reduceOnly))
    ensures TakeProfitOrder(None, symbol, side, quantity, stopPrice, limitPrice, reduceOnly)
         == Success(if PriceGiven(limitPrice)
                    then OrderRequest(symbol, side, TakeProfitLimit, quantity, limitPrice, Some(stopPrice), Some("GTC"),
                                      reduceOnly)
                    else OrderRequest(symbol, side, TakeProfitMarket, quantity, None, Some(stopPrice), None, reduceOnly))
  {
  }

  /**
   * A take-profit order without a limit price, or with price 0, is a
   * TAKE_PROFIT_MARKET order whatever the symbol's price filter says about 0.
   */
  lemma ZeroPriceMeansMarketTakeProfit(info: Option<SymbolInfo>, symbol: string, side: Side, quantity: Decimal,
                                       stopPrice: Decimal, zero: Decimal)
    requires zero.mant == 0
    ensures TakeProfitOrder(info, symbol, side, quantity, stopPrice, Some(zero))
         == TakeProfitOrder(info, symbol, side, quantity, stopPrice, None)
  {
  }

  /** A leverage of 0 or 126 is refused; 1 and 125 are accepted. */
  lemma LeverageEdges(symbol: string)
    ensures SetLeverage(symbol, 0).Failure? && SetLeverage(symbol, 126).Failure?
    ensures SetLeverage(symbol, 1).Success? && SetLeverage(symbol, 125).Success?
  {
  }
}
