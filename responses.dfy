/**
 * How BasicBot shapes what the exchange returns: `_format_order_response`
 * (a raw order record to the bot's result shape, with defaults), the symbol
 * and non-zero filters of `get_positions`, and the first-match lookup of
 * `get_balance`.
 */
module Responses {
  import opened Wrappers
  import opened Decimals
  import opened Records

  /** A JSON value of a raw order record. */
  datatype RawValue = Str(s: string) | Num(n: Decimal) | Bool(b: bool) | Null

  /** Python's truth value of the raw value. */
  predicate Truthy(v: RawValue)
    ensures v.Num? ==> (Truthy(v) <==> !SameValue(v.n, Zero))
    ensures v.Str? ==> (Truthy(v) <==> v.s != "")
  {
    match v
    case Str(s) => |s| > 0
    case Num(n) =>
      assert At(n, n.scale) == n.mant && At(Zero, n.scale) == 0;
      n.mant != 0
    case Bool(b) => b
    case Null => false
  }

  /** Python's float() of the raw value; None where float() raises. */
  function Float(v: RawValue): (r: Option<Decimal>)
    ensures v.Num? ==> r == Some(v.n)
    ensures v.Null? ==> r.None?
  {
    match v
    case Str(s) => ParseDecimal(s)
    case Num(n) => Some(n)
    case Bool(b) => Some(if b then Decimal(1, 0) else Zero)
    case Null => None
  }

  /** `dict.get(key, default)`. */
  function Get(order: map<string, RawValue>, key: string, default: RawValue): RawValue
  {
    if key in order then order[key] else default
  }

  /** The bot's order result; the fields it does not convert are passed through as raw values. */
  datatype OrderResult = OrderResult(
    orderId: RawValue,
    clientOrderId: RawValue,
    symbol: RawValue,
    side: RawValue,
    orderType: RawValue,
    status: RawValue,
    price: Decimal,
    quantity: Decimal,
    executedQty: Decimal,
    avgPrice: Decimal,
    stopPrice: Option<Decimal>,
    timeInForce: RawValue,
    reduceOnly: RawValue,
    closePosition: RawValue,
    workingType: RawValue,
    updateTime: RawValue)

  /** `float(order.get(key, 0))`, raising when the stored value is not a number. */
  function NumberOrZero(order: map<string, RawValue>, key: string): (r: Result<Decimal, Error>)
    ensures key !in order ==> r == Success(Zero)
    ensures key in order ==> (r.Success? <==> Float(order[key]).Some?)
    ensures r.Success? && key in order ==> Some(r.value) == Float(order[key])
    ensures r.Failure? ==> r.error == NotANumber(key)
  {
    match Float(Get(order, key, Num(Zero)))
    case None => Failure(NotANumber(key))
    case Some(d) => Success(d)
  }

  /** `float(order.get("stopPrice", 0)) if order.get("stopPrice") else None`. */
  function StopPriceOf(order: map<string, RawValue>): (r: Result<Option<Decimal>, Error>)
    ensures !Truthy(Get(order, "stopPrice", Null)) ==> r == Success(None)
    ensures Truthy(Get(order, "stopPrice", Null)) ==>
      && "stopPrice" in order
      && (r.Success? <==> Float(order["stopPrice"]).Some?)
      && (r.Success? ==> r.value == Float(order["stopPrice"]))
      && (r.Failure? ==> r.error == NotANumber("stopPrice"))
  {
    if Truthy(Get(order, "stopPrice", Null)) then
      var d :- NumberOrZero(order, "stopPrice");
      Success(Some(d))
    else Success(None)
  }

  /** The keys whose values float() converts, in the order the result's fields are evaluated. */
  const NumericKeys: seq<string> := ["price", "origQty", "executedQty", "avgPrice"]

  /** A key float() would be applied to and would raise on. */
  predicate Unreadable(order: map<string, RawValue>, key: string)
  {
    key in order && Float(order[key]).None?
  }

  /**
   * `_format_order_response`. It raises exactly when a numeric field holds
   * something float() rejects (stopPrice only when it is truthy), naming the
   * first such key; otherwise missing numbers read as 0, the flags default to
   * false, and stopPrice is None exactly when it is missing or falsy.
   */
  function FormatOrderResponse(order: map<string, RawValue>): (r: Result<OrderResult, Error>)
    ensures r.Failure? <==> || Unreadable(order, "price") || Unreadable(order, "origQty")
                            || Unreadable(order, "executedQty") || Unreadable(order, "avgPrice")
                            || (Truthy(Get(order, "stopPrice", Null)) && Unreadable(order, "stopPrice"))
    ensures Unreadable(order, "price") ==> r == Failure(NotANumber("price"))
    ensures !Unreadable(order, "price") && Unreadable(order, "origQty") ==> r == Failure(NotANumber("origQty"))
    ensures !Unreadable(order, "price") && !Unreadable(order, "origQty") && Unreadable(order, "executedQty")
            ==> r == Failure(NotANumber("executedQty"))
    ensures (!Unreadable(order, "price") && !Unreadable(order, "origQty") && !Unreadable(order, "executedQty")
             && Unreadable(order, "avgPrice")) ==> r == Failure(NotANumber("avgPrice"))
    ensures r.Failure? ==> r.error.NotANumber?
    ensures (!Unreadable(order, "price") && !Unreadable(order, "origQty") && !Unreadable(order, "executedQty")
             && !Unreadable(order, "avgPrice") && Truthy(Get(order, "stopPrice", Null)) && Unreadable(order, "stopPrice"))
            ==> r == Failure(NotANumber("stopPrice"))
    ensures r.Failure? && r.error == NotANumber("stopPrice") ==> Truthy(order["stopPrice"]) && Unreadable(order, "stopPrice")
    ensures r.Success? ==> && Some(r.value.price) == Float(Get(order, "price", Num(Zero)))
                           && Some(r.value.quantity) == Float(Get(order, "origQty", Num(Zero)))
                           && Some(r.value.executedQty) == Float(Get(order, "executedQty", Num(Zero)))
                           && Some(r.value.avgPrice) == Float(Get(order, "avgPrice", Num(Zero)))
    ensures r.Success? ==> && ("price" !in order ==> r.value.price == Zero)
                           && ("origQty" !in order ==> r.value.quantity == Zero)
                           && ("executedQty" !in order ==> r.value.executedQty == Zero)
                           && ("avgPrice" !in order ==> r.value.avgPrice == Zero)
    ensures r.Success? ==> (r.value.stopPrice.None? <==> !Truthy(Get(order, "stopPrice", Null)))
    ensures r.Success? && r.value.stopPrice.Some? ==> Float(order["stopPrice"]) == r.value.stopPrice
    ensures r.Success? ==> && r.value.orderId == Get(order, "orderId", Null)
                           && r.value.clientOrderId == Get(order, "clientOrderId", Null)
                           && r.value.symbol == Get(order, "symbol", Null)
                           && r.value.side == Get(order, "side", Null)
                           && r.value.orderType == Get(order, "type", Null)
                           && r.value.status == Get(order, "status", Null)
                           && r.value.timeInForce == Get(order, "timeInForce", Null)
                           && r.value.reduceOnly == Get(order, "reduceOnly", Bool(false))
                           && r.value.closePosition == Get(order, "closePosition", Bool(false))
                           && r.value.workingType == Get(order, "workingType", Null)
                           && r.value.updateTime == Get(order, "updateTime", Null)
  {
    var price :- NumberOrZero(order, "price");
    var quantity :- NumberOrZero(order, "origQty");
    var executed :- NumberOrZero(order, "executedQty");
    var average :- NumberOrZero(order, "avgPrice");
    var stop :- StopPriceOf(order);
    Success(OrderResult(
      Get(order, "orderId", Null), Get(order, "clientOrderId", Null), Get(order, "symbol", Null),
      Get(order, "side", Null), Get(order, "type", Null), Get(order, "status", Null),
      price, quantity, executed, average, stop,
      Get(order, "timeInForce", Null),
      Get(order, "reduceOnly", Bool(false)), Get(order, "closePosition", Bool(false)),
      Get(order, "workingType", Null), Get(order, "updateTime", Null)))
  }

  /** The numeric fields of a result written as the exchange writes them: decimal text, no stopPrice key when there is none. */
  function NumericRecord(price: Decimal, quantity: Decimal, executed: Decimal, average: Decimal, stop: Option<Decimal>)
    : map<string, RawValue>
  {
    var base := map["price" := Str(Show(price)), "origQty" := Str(Show(quantity)),
                    "executedQty" := Str(Show(executed)), "avgPrice" := Str(Show(average))];
    match stop
    case None => base
    case Some(d) => base["stopPrice" := Str(Show(d))]
  }

  /** Formatting reads back every number from its decimal text, and a stop price from its presence. */
  lemma {:induction false} FormatReadsNumbers(price: Decimal, quantity: Decimal, executed: Decimal, average: Decimal,
                                              stop: Option<Decimal>)
    ensures var r := FormatOrderResponse(NumericRecord(price, quantity, executed, average, stop));
      && r.Success?
      && r.value.price == price && r.value.quantity == quantity
      && r.value.executedQty == executed && r.value.avgPrice == average
      && r.value.stopPrice == stop
  {
    NumericRecordPrices(price, quantity, executed, average, stop);
    NumericRecordQuantities(price, quantity, executed, average, stop);
    NumericRecordStop(price, quantity, executed, average, stop);
  }

  lemma NumericRecordPrices(price: Decimal, quantity: Decimal, executed: Decimal, average: Decimal, stop: Option<Decimal>)
    ensures var order := NumericRecord(price, quantity, executed, average, stop);
      && NumberOrZero(order, "price") == Success(price)
      && NumberOrZero(order, "origQty") == Success(quantity)
  {
    var order := NumericRecord(price, quantity, executed, average, stop);
    assert "price" in order && order["price"] == Str(Show(price));
    assert "origQty" in order && order["origQty"] == Str(Show(quantity));
    ParseShow(price);
    ParseShow(quantity);
  }

  lemma NumericRecordQuantities(price: Decimal, quantity: Decimal, executed: Decimal, average: Decimal, stop: Option<Decimal>)
    ensures var order := NumericRecord(price, quantity, executed, average, stop);
      && NumberOrZero(order, "executedQty") == Success(executed)
      && NumberOrZero(order, "avgPrice") == Success(average)
  {
    var order := NumericRecord(price, quantity, executed, average, stop);
    assert "executedQty" in order && order["executedQty"] == Str(Show(executed));
    assert "avgPrice" in order && order["avgPrice"] == Str(Show(average));
    ParseShow(executed);
    ParseShow(average);
  }

  lemma NumericRecordStop(price: Decimal, quantity: Decimal, executed: Decimal, average: Decimal, stop: Option<Decimal>)
    ensures StopPriceOf(NumericRecord(price, quantity, executed, average, stop)) == Success(stop)
  {
    if stop.Some? {
      ParseShow(stop.value);
    }
  }

  /** An empty record formats to zeros, false flags, no stop price and null elsewhere. */
  lemma EmptyRecordDefaults()
    ensures FormatOrderResponse(map[]) == Success(OrderResult(
      Null, Null, Null, Null, Null, Null, Zero, Zero, Zero, Zero, None, Null,
      Bool(false), Bool(false), Null, Null))
  {
  }

  /**
   * The exchange's "0" for an order without a stop price is a non-empty
   * string, so it is truthy and becomes a stop price of 0, not None; an empty
   * string or a numeric 0 gives None.
   */
  lemma StopPriceZeroString(order: map<string, RawValue>)
    requires forall k :: k in NumericKeys ==> k !in order
    ensures FormatOrderResponse(order["stopPrice" := Str("0")]).Success?
    ensures FormatOrderResponse(order["stopPrice" := Str("0")]).value.stopPrice == Some(Decimal(0, 0))
    ensures FormatOrderResponse(order["stopPrice" := Str("")]).value.stopPrice.None?
    ensures FormatOrderResponse(order["stopPrice" := Num(Zero)]).value.stopPrice.None?
  {
    var zero := order["stopPrice" := Str("0")];
    assert forall k :: k in NumericKeys ==> k !in zero;
    assert ParseDecimal("0") == Some(Decimal(0, 0)) by {
      assert PointIndex("0") == 1;
      assert DigitsValue("0") == 0;
      assert "0"[..1] + "" == "0";
    }
  }

  /** A stop price the bot cannot read raises only when it is truthy. */
  lemma FalsyStopPriceIsNotRead(order: map<string, RawValue>)
    requires "stopPrice" in order && !Truthy(order["stopPrice"])
    ensures FormatOrderResponse(order).Success? <==> forall k :: k in NumericKeys ==> !Unreadable(order, k)
  {
  }

  // ---- get_positions -------------------------------------------------------

  /** The bot's position entry. */
  datatype Position = Position(
    symbol: string,
    positionAmount: Decimal,
    entryPrice: Decimal,
    markPrice: Decimal,
    unrealizedPnl: Decimal,
    liquidationPrice: Decimal,
    leverage: int,
    marginType: string,
    positionSide: string)

  /** The entry dict of one open position: every field of the record under the bot's key names. */
  function ToPosition(p: PositionRecord): (r: Position)
    ensures r.symbol == p.symbol && r.positionAmount == p.positionAmt && r.entryPrice == p.entryPrice
    ensures r.markPrice == p.markPrice && r.unrealizedPnl == p.unRealizedProfit
    ensures r.liquidationPrice == p.liquidationPrice && r.leverage == p.leverage
    ensures r.marginType == p.marginType && r.positionSide == p.positionSide
  {
    Position(p.symbol, p.positionAmt, p.entryPrice, p.markPrice, p.unRealizedProfit,
             p.liquidationPrice, p.leverage, p.marginType, p.positionSide)
  }

  /** Python's `if symbol:` on the optional symbol argument. */
  predicate Requested(symbol: Option<string>)
    ensures Requested(symbol) ==> symbol.Some?
    ensures symbol.Some? ==> (Requested(symbol) <==> |symbol.value| > 0)
  {
    symbol.Some? && symbol.value != ""
  }

  /** The list comprehension keeping the records of the requested symbol, or all records when none is requested. */
  function ForSymbol(positions: seq<PositionRecord>, symbol: Option<string>): (r: seq<PositionRecord>)
    ensures !Requested(symbol) ==> r == positions
    ensures |r| <= |positions|
  {
    if !Requested(symbol) || |positions| == 0 then positions
    else (if positions[0].symbol == symbol.value then [positions[0]] else [])
         + ForSymbol(positions[1..], symbol)
  }

  /** A record with a non-zero amount is an open position. */
  predicate IsActive(p: PositionRecord)
    ensures IsActive(p) <==> !SameValue(p.positionAmt, Zero)
  {
    assert At(p.positionAmt, p.positionAmt.scale) == p.positionAmt.mant && At(Zero, p.positionAmt.scale) == 0;
    p.positionAmt.mant != 0
  }

  /** What the appending loop builds from a prefix of the records: the entries of the open positions, in order. */
  function ActivePositions(positions: seq<PositionRecord>): (r: seq<Position>)
    ensures |r| <= |positions|
    ensures forall x :: x in r <==> exists i :: 0 <= i < |positions| && IsActive(positions[i]) && x == ToPosition(positions[i])
  {
    if |positions| == 0 then []
    else
      var init, last := positions[..|positions| - 1], positions[|positions| - 1];
      assert forall i :: 0 <= i < |init| ==> init[i] == positions[i];
      ActivePositions(init) + (if IsActive(last) then [ToPosition(last)] else [])
  }

  /** The records `get_positions` reports: open, and of the requested symbol when one is requested. */
  predicate Reported(p: PositionRecord, symbol: Option<string>)
  {
    IsActive(p) && (Requested(symbol) ==> p.symbol == symbol.value)
  }

  /** The reference reading of `get_positions`: one pass keeping the reported records. */
  function ReportedPositions(positions: seq<PositionRecord>, symbol: Option<string>): (r: seq<Position>)
    ensures |r| <= |positions|
  {
    if |positions| == 0 then []
    else (if Reported(positions[0], symbol) then [ToPosition(positions[0])] else [])
         + ReportedPositions(positions[1..], symbol)
  }

  lemma {:induction false} ActivePositionsAppend(a: seq<PositionRecord>, b: seq<PositionRecord>)
    ensures ActivePositions(a + b) == ActivePositions(a) + ActivePositions(b)
    decreases |b|
  {
    if |b| == 0 {
      assert a + b == a;
    } else {
      var b' := b[..|b| - 1];
      assert (a + b)[..|a + b| - 1] == a + b';
      assert (a + b)[|a + b| - 1] == b[|b| - 1];
      ActivePositionsAppend(a, b');
    }
  }

  lemma ActivePositionsSingle(p: PositionRecord)
    ensures ActivePositions([p]) == if IsActive(p) then [ToPosition(p)] else []
  {
    assert [p][..0] == [];
  }

  /**
   * `get_positions` returns, in input order, exactly the entries of the open
   * positions of the requested symbol (of every symbol when none is given).
   */
  lemma {:induction false} PositionsAreReported(positions: seq<PositionRecord>, symbol: Option<string>)
    ensures ActivePositions(ForSymbol(positions, symbol)) == ReportedPositions(positions, symbol)
  {
    if |positions| > 0 {
      var p, rest := positions[0], positions[1..];
      var head := if !Requested(symbol) || p.symbol == symbol.value then [p] else [];
      assert ForSymbol(positions, symbol) == head + ForSymbol(rest, symbol) by {
        if !Requested(symbol) {
          assert positions == [p] + rest;
        }
      }
      ActivePositionsAppend(head, ForSymbol(rest, symbol));
      ActivePositionsSingle(p);
      PositionsAreReported(rest, symbol);
    }
  }

  /** An entry is reported exactly when it comes from a reported record. */
  lemma {:induction false} ReportedMembers(positions: seq<PositionRecord>, symbol: Option<string>, x: Position)
    ensures x in ReportedPositions(positions, symbol)
        <==> exists i :: 0 <= i < |positions| && Reported(positions[i], symbol) && x == ToPosition(positions[i])
  {
    if |positions| > 0 {
      ReportedMembers(positions[1..], symbol, x);
      assert forall i :: 1 <= i < |positions| ==> positions[i] == positions[1..][i - 1];
      if x in ReportedPositions(positions[1..], symbol) {
        var j :| 0 <= j < |positions[1..]| && Reported(positions[1..][j], symbol) && x == ToPosition(positions[1..][j]);
        assert Reported(positions[j + 1], symbol) && x == ToPosition(positions[j + 1]);
      }
    }
  }

  // ---- get_balance ---------------------------------------------------------

  /** The bot's balance entry. */
  datatype Balance = Balance(asset: string, balance: Decimal, available: Decimal, crossWallet: Decimal)

  /** The entry for one balance record; a missing cross-wallet balance reads as 0. */
  function ToBalance(asset: string, b: BalanceRecord): (r: Balance)
    ensures r.asset == asset && r.balance == b.balance && r.available == b.availableBalance
    ensures b.crossWalletBalance.None? ==> r.crossWallet == Zero
    ensures b.crossWalletBalance.Some? ==> r.crossWallet == b.crossWalletBalance.value
  {
    Balance(asset, b.balance, b.availableBalance, if b.crossWalletBalance.Some? then b.crossWalletBalance.value else Zero)
  }

  /** `get_balance`: the first record of the asset, or all zeros when the account holds none. */
  function BalanceOf(asset: string, balances: seq<BalanceRecord>): (r: Balance)
    ensures r.asset == asset
    ensures (forall i :: 0 <= i < |balances| ==> balances[i].asset != asset) ==> r == Balance(asset, Zero, Zero, Zero)
    ensures (exists i :: 0 <= i < |balances| && balances[i].asset == asset)
        ==> exists i :: (0 <= i < |balances| && balances[i].asset == asset && r == ToBalance(asset, balances[i])
                         && forall j :: 0 <= j < i ==> balances[j].asset != asset)
  {
    if |balances| == 0 then Balance(asset, Zero, Zero, Zero)
    else if balances[0].asset == asset then ToBalance(asset, balances[0])
    else
      var r := BalanceOf(asset, balances[1..]);
      assert forall i :: 1 <= i < |balances| ==> balances[i] == balances[1..][i - 1];
      r
  }
}
