# Binance futures testnet bot: order validation core in Dafny

The repository is a small trading client for the Binance USDT-M futures
testnet, written in Python. Its `BasicBot` class validates quantities and
prices against each symbol's exchange filters, builds order requests from the
adjusted values, caches symbol information, and reshapes what the exchange
returns. `BotConfig` holds the configuration and reads it from the environment.
This project models those parts in Dafny and proves what they promise.

Modules:

- `Decimals` (decimals.dfy): exact decimals, `mant * 10^-scale`. It provides
  comparison at a common scale and `Decimal.quantize(..., ROUND_DOWN)` as
  truncation toward zero, including the 28-digit precision failure. It models
  the exponent that `Decimal(str(step))` takes from a float step, and the
  decimal text that `float()` reads, with a parse/print round trip.
- `Records` (records.dfy): exchange records (filters, symbols, balances,
  positions), validator messages and raised errors.
- `Normalizer` (normalizer.dfy): `_validate_quantity` and `_validate_price`.
- `SymbolCache` (symbol_cache.dfy): the lookup and update rules of `get_symbol_info`.
- `Orders` (orders.dfy): the five `place_*` builders as functions from a
  symbol lookup outcome to a request or a `ValueError`, and `set_leverage`.
- `Responses` (responses.dfy): `_format_order_response`, the filters of
  `get_positions`, and the lookup of `get_balance`.
- `Config` (config.py → config.dfy): defaults, `validate()` and `from_env()`.
- `Bot` (bot.dfy): the `BasicBot` class. Its `symbolInfoCache` map field is
  filled in place. Its methods are proved equal to the functions above, and
  the class invariant is that every cached record sits under its own symbol.

Exchange answers are parameters. `exchangeSymbols` is the symbol list of
`futures_exchange_info()`, or None when that call raises. Balance and position
lists are those the account endpoints return. The `place_*` methods return the
request that would be handed to `futures_create_order`. Submitting the request
and formatting the exchange's reply are separate steps (`FormatOrderResponse`).

Three behaviours of the code are worth knowing, because they differ from
what a reader of the validators might expect:

- `quantize` fixes only the number of fractional digits, to the exponent of
  `Decimal(str(step))`; it does not snap a value to a multiple of the step.
  A tick of 0.5 keeps one decimal, so 1.3 passes unchanged (`HalfTickExample`).
  A step of 1 prints as "1.0" and also keeps one decimal (`IntegralStepExample`).
  For a step of 0.1, 0.01, ... the quantized value is a multiple of the step
  (`ReprScaleOfPowerOfTen`, `ReprScaleIsCoarsest`).
- The stop price of a formatted order is tested with Python's truth value
  before it is converted. The exchange's string "0" is truthy, so it becomes
  a stop price of 0 (`StopPriceZeroString`). A missing key, an empty string,
  a numeric 0, JSON null or `false` gives None.
- Re-validating an accepted value is guaranteed to return it unchanged when
  the minimum is non-negative and has no more digits than the step
  (`RevalidationIsIdempotent`). Without that, truncation can take an accepted
  value below the minimum, and validating it again fails (`OffGridMinimumExample`).

## Model

| member | source | states |
|---|---|---|
| `Decimals.Quantize` | bot.py:222-224 | the result has exactly the requested number of fractional digits, and is None exactly when the magnitude of d times 10^s reaches 10^28, where quantize raises InvalidOperation |
| `Decimals.QuantizeTruncates` | bot.py:222-224 | ROUND_DOWN truncates toward zero: the result keeps the input's sign, is no larger in magnitude, and is less than one unit of the last kept digit away from it |
| `Decimals.QuantizeIsGreatestBelow` | bot.py:222-224 | for a non-negative input, the quantized value is the greatest number with that many digits not above the input |
| `Decimals.QuantizeKeepsGridValue` | bot.py:222-224 | a value with no more digits than the step is left with the same value |
| `Decimals.QuantizeIdempotent` | bot.py:222-224 | quantizing an already quantized value again changes nothing |
| `Decimals.ReprScale` | bot.py:223 | the exponent `Decimal(str(step))` takes is at least one fractional digit, since an integral float prints as "n.0" |
| `Decimals.ReprScaleOfPowerOfTen` | bot.py:223 | a step of 10^-k, with any trailing zeros in the exchange's text, quantizes to k digits |
| `Decimals.ReprScaleOfIntegral` | bot.py:223 | an integral step quantizes to one fractional digit |
| `Decimals.ReprScaleIsCoarsest` | bot.py:223 | the step has no digit beyond the exponent the bot quantizes to, and any coarser exponent from one digit up would cut one of its digits |
| `Decimals.ParseDecimal` | bot.py:803-806 | float() of text: a string of digits reads as that integer; the empty string, a lone sign or a lone point raise |
| `Decimals.ParseShow` | bot.py:210-212 | float() reads back the canonical decimal text of every decimal, so filter and order fields sent as decimal strings are read exactly |
| `Normalizer.FirstFilter` | bot.py:208-209 | the validator uses the first filter of its type; None exactly when there is none |
| `Normalizer.ApplyFilter` | bot.py:210-226 | the value fails exactly when the filter has its three fields and the raw value is out of bounds, with the below-minimum message first and the above-maximum one otherwise, keeping the raw value; an in-bounds value is Valid exactly when quantize succeeds, carrying the quantized raw value, and is skipped otherwise |
| `Normalizer.InBoundsIsAccepted` | bot.py:214-226 | a value within the bounds of a complete filter is accepted as Valid with its quantized value whenever quantize can represent it |
| `Normalizer.ScanFilters` | bot.py:208-228 | the loop over the filter list returns what the validator specification gives |
| `Normalizer.NormalizeWith` | bot.py:208-228 | the result is "No … found" exactly when the list has no filter of the type; otherwise it is what the first filter of the type gives |
| `Normalizer.Normalize` | bot.py:205-232 | a failed symbol lookup is caught and the raw value passes with "Validation skipped"; otherwise the symbol's filter list decides |
| `Normalizer.MissingFilterPassesThrough` | bot.py:228-232 | with no filter of the type, or when the symbol lookup raised, the raw value passes with ok = true and the "No … found" or "Validation skipped" message |
| `Normalizer.AcceptedValueIsTruncated` | bot.py:220-226 | for a non-negative raw value, the accepted value is non-negative, not above the raw value, less than one step-digit unit below it, and not above the maximum when one applies |
| `Normalizer.AcceptedValueKeepsGridMinimum` | bot.py:214-224 | when the minimum is non-negative and on the step's grid, truncation cannot take an accepted value below it |
| `Normalizer.RevalidationIsIdempotent` | bot.py:214-226 | re-validating an accepted value gives the same result, when the minimum is non-negative and on the step's grid |
| `Normalizer.GridValueUnchanged` | bot.py:222-224 | a raw value with no more digits than the step is accepted with the same value |
| `Normalizer.ZeroMaxPriceIsUnbounded` | bot.py:254-258 | with maxPrice 0, no price is too high, and a price fails exactly when it is below minPrice |
| `Normalizer.LotSizeExample` | bot.py:208-226 | minQty 0.001, stepSize 0.001: quantity 0.0019 is accepted as 0.001 |
| `Normalizer.PriceFilterExample` | bot.py:248-266 | maxPrice 0, tickSize 0.1: price 123.456 is accepted as 123.4 |
| `Normalizer.HalfTickExample` | bot.py:260-264 | tickSize 0.5: price 1.3 is accepted unchanged, though it is not a multiple of 0.5 |
| `Normalizer.IntegralStepExample` | bot.py:220-224 | stepSize 1: quantity 10.75 is accepted as 10.7 |
| `Normalizer.OffGridMinimumExample` | bot.py:214-226 | minQty 0.0015, stepSize 0.001: 0.0019 is accepted as 0.001, which is below the minimum and fails when validated again |
| `SymbolCache.FindSymbol` | bot.py:163-166 | the miss path caches the first record with the symbol; None exactly when the list has none |
| `SymbolCache.Lookup` | bot.py:156-168 | a hit returns the cached record; on a miss, a failed exchange call raises ExchangeFailure, and otherwise the result is the first record with the symbol, or SymbolNotFound exactly when the list has none |
| `SymbolCache.CacheAfter` | bot.py:156-168 | the cache never loses or changes an entry, and only the requested symbol can be added |
| `SymbolCache.LookupIsCached` | bot.py:163-168 | a successful lookup leaves its record cached under the symbol, and that record carries the symbol; a failed one leaves the cache unchanged; the cache stays consistent |
| `SymbolCache.HitIgnoresExchange` | bot.py:156-157 | a hit returns the cached record whatever the exchange would say, and changes nothing |
| `SymbolCache.UnknownSymbolRaises` | bot.py:168 | a symbol absent from the exchange list raises ValueError and leaves the cache unchanged |
| `SymbolCache.LookupIsStable` | bot.py:156-166 | looking the same symbol up again gives the same answer and changes the cache no further |
| `Orders.Validated` | bot.py:358-366 | the validations succeed together with their adjusted values in order, or the first failing one's message is raised |
| `Orders.MarketOrder` | bot.py:293-316 | fails exactly when the quantity fails, with its message; otherwise a well-formed MARKET request with the adjusted quantity |
| `Orders.LimitOrder` | bot.py:357-389 | fails exactly when quantity or price fails, quantity's message first; otherwise a LIMIT request with the adjusted values, the time in force and reduce-only flag |
| `Orders.StopLimitOrder` | bot.py:432-469 | checks quantity, price, then stop, reporting the first failure; otherwise a "STOP" request with all three adjusted values |
| `Orders.StopMarketOrder` | bot.py:505-533 | checks quantity, then stop; otherwise a STOP_MARKET request with no price or time in force |
| `Orders.TakeProfitOrder` | bot.py:571-604 | checks quantity, stop, then a given price; a truthy price makes a TAKE_PROFIT request with the adjusted price and GTC, otherwise TAKE_PROFIT_MARKET with neither |
| `Orders.PriceGiven` | bot.py:589 | `if price:` holds exactly for a price that is present and not equal to zero, at any scale |
| `Orders.SetLeverage` | bot.py:773-785 | succeeds exactly for leverage 1..125, otherwise raises before any exchange call |
| `Orders.RejectionIsBoundViolation` | bot.py:214-218 | a validator only rejects a value that lies outside a bound, and reports the raw value |
| `Orders.RefusalIsBoundViolation` | bot.py:294-297 | every refused order is refused with a ValueError naming a bound violation |
| `Orders.UnknownSymbolSendsRawValues` | bot.py:230-232 | when the symbol lookup raises, each of the five builders succeeds with the full request built from the raw quantity, price and stop price as given |
| `Orders.ZeroPriceMeansMarketTakeProfit` | bot.py:589 | a take-profit price of 0 is falsy and gives the same request as no price |
| `Orders.LeverageEdges` | bot.py:773-774 | 0 and 126 are refused, 1 and 125 accepted |
| `Responses.Float` | bot.py:803-806 | float() keeps a number as it is and raises on null |
| `Responses.Truthy` | bot.py:807 | Python's truth value: a number is truthy exactly when it is not zero, a string exactly when it is not empty |
| `Responses.StopPriceOf` | bot.py:807 | a falsy stop price gives None without conversion; a truthy one is present and converted by float(), or raises naming stopPrice |
| `Responses.NumberOrZero` | bot.py:803-806 | a missing key reads as 0; a present value reads as float() reads it, and raises naming the key otherwise |
| `Responses.FormatOrderResponse` | bot.py:794-813 | raises exactly when a numeric field (stopPrice only if truthy) cannot be read, naming the first such field in evaluation order; otherwise every number is float() of its value, or 0 when missing, stopPrice is None exactly when missing or falsy, and the eleven other fields are the raw values or their defaults |
| `Responses.FormatReadsNumbers` | bot.py:803-807 | numbers sent as decimal text, and a present stop price, are read back exactly |
| `Responses.EmptyRecordDefaults` | bot.py:796-813 | an empty record gives zeros, false flags, no stop price and null elsewhere |
| `Responses.StopPriceZeroString` | bot.py:807 | a stop price "0" becomes 0, while "" or a numeric 0 gives None |
| `Responses.FalsyStopPriceIsNotRead` | bot.py:807 | a falsy stop price is never converted, so it cannot make formatting raise |
| `Responses.ForSymbol` | bot.py:736-737 | without a requested symbol every record is kept |
| `Responses.IsActive` | bot.py:742 | a position is open exactly when its amount is not zero, at any scale |
| `Responses.ToPosition` | bot.py:743-753 | the entry carries each of the record's nine fields under the bot's key names |
| `Responses.ActivePositions` | bot.py:740-753 | the appending loop's list is no longer than its input and holds exactly the entries of the open records |
| `Responses.Requested` | bot.py:736 | `if symbol:` holds exactly for a given, non-empty symbol |
| `Responses.PositionsAreReported` | bot.py:736-753 | the symbol filter followed by the non-zero loop gives, in input order, exactly the open positions of the requested symbol (all symbols when none is given) |
| `Responses.ReportedMembers` | bot.py:740-753 | an entry is reported exactly when it comes from an open record of the requested symbol |
| `Responses.ToBalance` | bot.py:131-136 | the entry carries the asset, the balance and the available balance, and the cross-wallet balance or 0 when the record has none |
| `Responses.BalanceOf` | bot.py:129-140 | the entry of the first record of the asset, or an all-zero entry when there is none |
| `Config.DefaultConfig` | config.py:12-25 | `BotConfig()`: no credentials, so it fails validation; the testnet is on at its base URL; BTCUSDT, 0.001, INFO and trading_bot.log |
| `Config.Validate` | config.py:37-41 | true exactly when both the API key and the secret are non-empty |
| `Config.GetEnv` | config.py:31-34 | the variable's value when set, the default otherwise |
| `Config.Lower` | config.py:33 | the result has the input's length and maps each ASCII capital to its lower-case letter, leaving other characters alone |
| `Config.FromEnv` | config.py:27-35 | credentials and log level come from the environment ("" and "INFO" when unset); the base URL, default symbol, quantity and log file keep their defaults |
| `Config.TestnetFromEnv` | config.py:33 | testnet is on exactly when BINANCE_TESTNET is unset or spells "true" in any case |
| `Config.ValidFromEnv` | config.py:31-40 | a configuration from the environment is valid exactly when both credential variables are set and non-empty |
| `Config.EmptyEnvIsDefault` | config.py:12-45 | an empty environment gives the defaults, whose testnet is on and which fail validation |
| `Bot.BasicBot.constructor` | bot.py:70-80 | without a configuration the default one is used; the cache starts empty |
| `Bot.BasicBot.GetSymbolInfo` | bot.py:156-168 | returns the cached record or scans the exchange list and caches the first match, exactly as `Lookup` and `CacheAfter` say; a returned record carries the symbol and is cached under it |
| `Bot.BasicBot.ValidateField` | bot.py:205-232 | the validation through the cache equals the validator specification on the lookup's outcome |
| `Bot.BasicBot.ValidateQuantity` | bot.py:194-232 | `_validate_quantity` through the cache |
| `Bot.BasicBot.ValidatePrice` | bot.py:234-272 | `_validate_price` through the cache |
| `Bot.BasicBot.PlaceMarketOrder` | bot.py:293-316 | the request or error `MarketOrder` gives for the symbol's lookup outcome |
| `Bot.BasicBot.PlaceLimitOrder` | bot.py:357-389 | equals `LimitOrder`: the repeated symbol lookups all see the same outcome |
| `Bot.BasicBot.PlaceStopLimitOrder` | bot.py:432-469 | equals `StopLimitOrder` |
| `Bot.BasicBot.PlaceStopMarketOrder` | bot.py:505-533 | equals `StopMarketOrder` |
| `Bot.BasicBot.PlaceTakeProfitOrder` | bot.py:571-604 | builds TAKE_PROFIT_MARKET parameters and rewrites them in place when a price is given; equals `TakeProfitOrder` |
| `Bot.BasicBot.GetBalance` | bot.py:125-140 | the loop returning at the first record of the asset equals `BalanceOf` |
| `Bot.BasicBot.GetPositions` | bot.py:734-756 | the filter and appending loop return exactly the reported positions in input order |

## Left out

- Every python-binance call is left out and replaced by parameters or by the built request, because it is remote I/O: `futures_ping`, `futures_create_order`, `futures_exchange_info`, the account, balance and position endpoints, and `futures_change_leverage`. So are `_initialize_client` and the testnet URL it sets.
- `get_account_info`, `get_current_price`, `cancel_order`, `cancel_all_orders`, `get_open_orders` and `get_order_status` are left out. They only forward an exchange call, apart from formatting, which `FormatOrderResponse` covers.
- Logging is left out, including the take-profit log line that shows the raw price. It has no effect on results.
- The unused `precision` local is left out.
- cli.py and logger.py are not part of this model. They hold the interactive menu and the logging set-up.
- Binary floating point is not modelled. Values are exact decimals, which is what the exchange's decimal strings denote. `Decimal(str(float(x)))` recovers such a string only when it has at most 15 significant digits; longer ones are rounded to a binary float first, which the model does not do. A step from 1e16 up, which `str()` prints in exponent form with a positive exponent, is not modelled.
- ParseDecimal: reads an optional sign, ASCII digits and an optional point. It does not read what Python's float() also accepts: exponents, surrounding whitespace, underscores between digits ("1_000"), non-ASCII digits, "inf" and "nan".
- Filter records are assumed to carry `filterType`, and symbol records `filters`. A missing field used in a bound check is modelled: it makes the validator skip.
- Balance and position records are assumed well-formed. float() and int() failures on them are not modelled.
- `Config.Lower` maps only ASCII letters. Python's `str.lower()` also maps other letters.
- Each builder sees one exchange symbol list. The source may fetch the list more than once in one call when the symbol is unknown; with the same answer each time, the result is the same.
- RevalidationIsIdempotent: requires a non-negative minimum with no more digits than the step, because without it the property does not hold (`OffGridMinimumExample`).
- AcceptedValueIsTruncated: states the truncation bounds for non-negative values only. `QuantizeTruncates` covers negative values.
