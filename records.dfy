/**
 * The records the trading bot reads from the exchange (symbol filters,
 * balances, positions) and the errors its operations raise.
 */
module Records {
  import opened Wrappers
  import opened Decimals

  /**
   * One entry of a symbol's "filters" list. A field that is missing, or that
   * float() cannot read, is absent from `fields`.
   */
  datatype Filter = Filter(filterType: string, fields: map<string, Decimal>)

  /** One entry of the "symbols" list of the exchange information. */
  datatype SymbolInfo = SymbolInfo(symbol: string, filters: seq<Filter>)

  /** One entry of the account balance list. */
  datatype BalanceRecord = BalanceRecord(
    asset: string,
    balance: Decimal,
    availableBalance: Decimal,
    crossWalletBalance: Option<Decimal>)

  /** One entry of the position-risk list. */
  datatype PositionRecord = PositionRecord(
    symbol: string,
    positionAmt: Decimal,
    entryPrice: Decimal,
    markPrice: Decimal,
    unRealizedProfit: Decimal,
    liquidationPrice: Decimal,
    leverage: int,
    marginType: string,
    positionSide: string)

  /** Which order field a validator checks: quantity against LOT_SIZE, prices against PRICE_FILTER. */
  datatype Field = Quantity | Price

  /** The message of a validator's (is_valid, message, adjusted) result. */
  datatype Message =
    | Valid
    | BelowMinimum(field: Field, value: Decimal, minimum: Decimal)
    | AboveMaximum(field: Field, value: Decimal, maximum: Decimal)
    | NoFilterFound(filterType: string)
    | ValidationSkipped

  datatype Error =
    | InvalidParameter(reason: Message)  // ValueError raised by an order builder
    | LeverageOutOfRange                 // ValueError raised by set_leverage
    | SymbolNotFound(symbol: string)     // ValueError raised by get_symbol_info
    | ExchangeFailure                    // BinanceAPIException from the exchange call
    | NotANumber(key: string)            // float() rejecting a field of an order record
}
