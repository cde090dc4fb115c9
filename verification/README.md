# A verified model of a TradingView-to-Binance futures bot

The bot takes TradingView webhook alerts ("long" or "short" on a ticker at a
close price) and trades USDT-margined futures on Binance. This project models
its decision logic in Dafny and proves properties of that model:

- **Signal handling** (`main.py`, `handle_trade_signal`). A signal first
  settles the bot's own trade on the symbol: a signal in the same direction is
  ignored, and an opposite one closes the live position and reports its
  profit. Next it deals with a position the bot does not manage. Then it
  checks the open-trade limit and sets leverage and margin type once per
  symbol. Only then does it size the order, place the entry and place a
  stop-loss. A trade is recorded only when that stop-loss was accepted.
  Otherwise the new position is closed again.
- **The exchange client** (`binance_client.py`). This covers symbol and filter
  lookup, and truncation of quantities and prices to the step or tick with
  `Decimal.quantize(ROUND_DOWN)`. It also covers position sizing with the
  minimum-notional check, and the validation `place_futures_order` does
  before it sends anything. The entry, stop-loss and market-close orders are
  modelled too, and so is the way the leverage and margin-type calls
  classify the exchange's error codes.
- **The trailing stop** (`trailing_stop_manager.py`). Trailing is switched on
  once a trade is far enough in profit. From then on the pass tracks the best
  price and moves the stop order behind it: it cancels the old stop and
  places a replacement. It gives up the records whose position is gone or
  whose stop order could not be kept in place.
- **Service glue** (`main.py`). This is the clean-up of the webhook's ticker
  (`BINANCE:BTCUSDT.P` becomes `BTCUSDT`) and the clamp on the pause between
  two trailing passes.

The exchange is never called. Each operation receives the exchange's answers
as a value:

- `Registry.SignalGateway` holds one field per call that handling a signal
  makes.
- `TrailingStop.TrailGateway` holds one answer per symbol for the pass.

Every request that changes something on the exchange is returned as a trace
(`Trades.Request`, tagged with its purpose). This lets contracts say "no
entry order was sent" or "the stop was cancelled before its replacement was
placed".

The service's mutable state, `active_bot_trades` and
`initialized_symbols_settings`, is the class `Registry.TradeRegistry`. Its
`trades` map holds one `Trades.TradeRecord` value per symbol. Handling a
signal and running a trailing pass are its methods. The pass loops over a
snapshot of the keys and is proved equal to the pointwise function
`TrailingStop.PassResult`.

Files:

- `quantization.dfy`: decimal truncation.
- `basics.dfy`: directions, sides and `Option`.
- `settings.dfy`: the configuration constants as one value.
- `binance_client.dfy`: the exchange client.
- `trades.dfy`: trade records, requests and P&L.
- `trailing_stop.dfy`: one record's trailing step and the whole pass.
- `registry.dfy`: the service state and its two operations.
- `service.dfy`: ticker clean-up and the pass interval.

## Model

| member | source | states |
|---|---|---|
| Quantization.Quantize | binance_client.py:96-100 | Decimal.quantize with ROUND_DOWN: a whole number of step units, truncated toward zero; its properties are the lemmas below |
| Quantization.QuantizeBounds | binance_client.py:96-100 | ROUND_DOWN quantizing never moves a value away from zero and loses less than one unit of the step's last decimal, for either sign |
| Quantization.QuantizeClose | binance_client.py:96-100 | the quantized value is within one unit of the input |
| Quantization.QuantizeIsMultiple | binance_client.py:96-100 | the result keeps exactly the step's decimals: it is a whole number of units |
| Quantization.QuantizePowerOfTenStep | binance_client.py:96-100 | with a step such as "0.01" or "1e-8" the result is a multiple of the step's value |
| Quantization.QuantizeIdempotent | binance_client.py:96-100 | quantizing an already quantized value changes nothing |
| Quantization.QuantizeMonotone | binance_client.py:96-100 | quantizing preserves order |
| BinanceClient.SetLeverageSucceeded | binance_client.py:26-46 | set_leverage succeeds exactly on acceptance or the "leverage not changed" code -4048 |
| BinanceClient.SetMarginTypeSucceeded | binance_client.py:48-73 | set_margin_type succeeds exactly on acceptance or the "no need to change" code -4046; -4059 and every other error fail |
| BinanceClient.LookupSymbol | binance_client.py:89-94 | the result is absent exactly when no entry has the symbol, and otherwise is the first entry that has it |
| BinanceClient.GetSymbolInfo | binance_client.py:89-94 | the scanning loop returns exactly the first matching entry, or nothing |
| BinanceClient.FirstOfKind | binance_client.py:143-146 | the first filter of the wanted filterType, or None when there is none |
| BinanceClient.LotStepOf | binance_client.py:143-146 | the step of the first LOT_SIZE filter, absent exactly when the symbol has none |
| BinanceClient.MinNotionalOf | binance_client.py:152-154 | the notional of the first MIN_NOTIONAL filter, absent exactly when the symbol has none |
| BinanceClient.PriceTickOf | binance_client.py:171-174 | the tick of the first PRICE_FILTER filter, absent exactly when the symbol has none |
| BinanceClient.RawQuantity | binance_client.py:133-136 | the unadjusted size spends exactly balance × ratio / MAX_OPEN_TRADES at the entry price, and is never negative for a non-negative budget |
| BinanceClient.AdjustToLot | binance_client.py:143-162 | without LOT_SIZE the raw quantity is used; with it, the quantity is the raw one quantized down to the step (binance_client.py:96-98): a whole number of step units, less than one unit below the raw quantity; the order is refused exactly when a MIN_NOTIONAL is present and the truncated notional falls below it |
| BinanceClient.CalculatePositionSize | binance_client.py:128-162 | no size for a non-positive price or an unknown symbol; otherwise balance × ratio / MAX_OPEN_TRADES / price, adjusted to the lot |
| BinanceClient.PositionSizeExample | binance_client.py:128-162 | 10000 USDT, ratio 0.8, five slots, price 100 and step "0.01" give 16 contracts |
| BinanceClient.ResolvedType | binance_client.py:183-186 | an explicit order type wins; otherwise LIMIT exactly when a (truthy) price is given, else MARKET |
| BinanceClient.ToTick | binance_client.py:99-100 | with a tick, a price is truncated to a whole number of tick units less than one unit from the request, and a non-negative price never goes up; without a tick it is sent unchanged (binance_client.py:192-205) |
| BinanceClient.PlaceOrderParams | binance_client.py:165-205 | a request is built exactly when the symbol is known, a LIMIT order has a price and a STOP_MARKET/TAKE_PROFIT_MARKET order has a stop price; prices are truncated to the tick, GTC goes with LIMIT, and the side and quantity are passed through |
| BinanceClient.EntrySide | binance_client.py:230-231 | the entry side grows the position in the signal's direction |
| BinanceClient.EntryOrderParams | binance_client.py:230-241 | an order is built exactly when the entry type is supported, the symbol is known and a LIMIT entry has a non-zero price; it is then a LIMIT (at the price truncated to the symbol's tick) or MARKET order for that symbol, on the entry side, for the quantity, without a stop price |
| BinanceClient.StopLossSide | binance_client.py:246-251 | the stop-loss side is always the side opposite the entry |
| BinanceClient.InitialStopPrice | binance_client.py:243-251 | the trigger lies STOP_LOSS × entry below a long entry and above a short one |
| BinanceClient.InitialStopExample | binance_client.py:246-251 | a 2 % stop from 100 is 98 for a long and 102 for a short |
| BinanceClient.StopLossOrderParams | binance_client.py:243-281 | an unsupported type sends nothing; otherwise (LIMIT downgraded too) a STOP_MARKET order on the closing side for the quantity, not reduce-only, with the trigger truncated to the tick, sent exactly when the symbol is known and the trigger is non-zero |
| BinanceClient.ClosePositionOrder | binance_client.py:283-293 | nothing for a flat position; otherwise a MARKET order of the absolute amount whose fill brings the signed position back to zero |
| Trades.CalculatePnl | main.py:74-91 | a long gains exactly when the exit is above the entry and a short exactly when it is below; zero for a zero quantity or an unknown trade type |
| Trades.PnlLongShortOpposite | main.py:85-89 | a short's result is the negation of a long's over the same prices |
| Trades.PnlIgnoresQuantitySign | main.py:85 | only the absolute quantity matters |
| Trades.PnlCaseInsensitive | main.py:86-88 | two trade-type spellings that agree once lower-cased give the same result |
| Trades.PnlExample | main.py:85-89 | a long from 100 to 110 on 2 contracts earns 20; a short loses 20 |
| Service.Split | main.py:421 | str.split on one character: at least one piece, no piece holds the separator, and more than one piece exactly when the separator occurs |
| Service.SplitJoin | main.py:421 | joining the pieces back gives the original text |
| Service.SplitAtFirst | main.py:421 | the text before the first separator is the first piece |
| Service.Upper | main.py:426 | ASCII upper-casing character by character |
| Service.StripPerpetualSuffix | main.py:425-427 | the result is a prefix of the ticker; it is the ticker itself exactly when it ends in neither ".P" nor ".PERP" (any case), and otherwise what was cut off is one of those markers |
| Service.StripMarker | main.py:425-427 | stripping a marker of either spelling gives back the text before it |
| Service.SecondField | main.py:420-421 | after an exchange prefix the second ':'-field is the rest of the ticker |
| Service.NormalizeTicker | main.py:419-429 | the cleaned ticker has no ':' and is never longer; a ticker without prefix or marker is kept as is |
| Service.NormalizeTickerRoundTrip | main.py:419-429 | "EXCHANGE:" + symbol + a marker comes back as the symbol |
| Service.NormalizeTickerDropsExchange | main.py:419-429 | without a marker only the exchange prefix goes |
| Service.NormalizeTickerKeepsSecondField | main.py:420-421 | the second field is kept, not the last one |
| Service.TrailingCheckInterval | main.py:491-503 | the pause is at least 10 s: the configured value when it is at least 10, 10 when it is lower, 60 when it is missing or invalid |
| TrailingStop.PnlRatio | trailing_stop_manager.py:87-92 | zero without a positive entry price; otherwise positive exactly when the mark is on the profitable side |
| TrailingStop.ActivationPrice | trailing_stop_manager.py:87-98 | the activation threshold is the price level entry × (1 + a) for a long and entry × (1 − a) for a short |
| TrailingStop.Activate | trailing_stop_manager.py:96-105 | trailing switches on exactly when it was on or the gain exceeds the activation percentage; on first activation both extremes restart at the mark; nothing else changes |
| TrailingStop.TrackExtreme | trailing_stop_manager.py:117-130 | a long's high never falls and covers the mark; a short's low never rises and covers the mark; the other extreme and the trade are untouched |
| TrailingStop.Candidate | trailing_stop_manager.py:116-135 | a candidate lies the trailing distance behind the extreme, tightens the current stop and lies beyond the entry price |
| TrailingStop.TickFor | trailing_stop_manager.py:140-144 | the symbol's PRICE_FILTER tick, or 1e-8 when the symbol is unknown or has no PRICE_FILTER |
| TrailingStop.PlanStop | trailing_stop_manager.py:137-159 | a planned stop needs a stop order, moves at least one tick in the tightening direction, stays on the safe side of the mark, and is the candidate truncated to the tick; conversely a truncated candidate that passes those guards is always planned |
| TrailingStop.ReplaceStop | trailing_stop_manager.py:162-197 | the old stop is cancelled first; a replacement STOP_MARKET on the closing side goes out only after a confirmed cancel; the record is given up exactly on "unknown order" (-2011) or a failed replacement, and then keeps its old state; a confirmed cancel and an accepted replacement move the record to the new order id and stop price |
| TrailingStop.TrailStep | trailing_stop_manager.py:32-197 | one record's step never changes the trade's identity, entry, quantity, direction or status |
| TrailingStop.StepSkipsClosedRecords | trailing_stop_manager.py:34-35 | a record that is not open is skipped untouched |
| TrailingStop.StepDropsFlatPosition | trailing_stop_manager.py:41-74 | a record whose position is gone is given up and nothing is sent |
| TrailingStop.StepIgnoresMissingMark | trailing_stop_manager.py:76-79 | without a mark price nothing changes |
| TrailingStop.StepActivation | trailing_stop_manager.py:96-105 | after the step, trailing is on exactly when it was on or the gain exceeds the threshold |
| TrailingStop.StepInactiveSendsNothing | trailing_stop_manager.py:114-115 | a record that is not trailing sends nothing and stays as it was |
| TrailingStop.StepHighNeverFalls | trailing_stop_manager.py:117-120 | while trailing, a long's recorded high never goes down and covers the mark |
| TrailingStop.StepLowNeverRises | trailing_stop_manager.py:127-130 | while trailing, a short's recorded low never goes up and covers the mark |
| TrailingStop.StepStopRatchets | trailing_stop_manager.py:137-176 | a moved stop tightens by at least one tick, stays on the safe side of the mark, and carries the replacement's order id |
| TrailingStop.StepStopBeyondEntry | trailing_stop_manager.py:124-146 | a moved stop lies beyond the entry price, up to less than one tick unit |
| TrailingStop.StepRequests | trailing_stop_manager.py:162-172 | a step that sends anything cancels its own stop first, and a replacement only follows a confirmed cancel, as a STOP_MARKET on the closing side for the record's quantity |
| TrailingStop.StepDropReasons | trailing_stop_manager.py:41-196 | a record is given up only for a closed position, an "unknown order" cancel, or a failed replacement after a cancel |
| TrailingStop.ReplacementAtPlannedPrice | trailing_stop_manager.py:140-172 | the replacement's trigger is exactly the planned stop: truncating again to the same tick changes nothing |
| TrailingStop.MovedStopShape | trailing_stop_manager.py:137-176 | a moved stop passed every guard and only its order id and price changed |
| TrailingStop.QuietStep | trailing_stop_manager.py:115-151 | a trailing record already at its extreme with no stop to move sends nothing |
| TrailingStop.CandidateIgnoresStop | trailing_stop_manager.py:117-135 | where the trail goes depends on the extremes, not on the current stop |
| TrailingStop.PlanStopAtTrail | trailing_stop_manager.py:146-151 | a stop already at the truncated trail is not moved again |
| TrailingStop.StepReplacesPlannedStop | trailing_stop_manager.py:137-176 | whenever a stop is planned and the exchange confirms the cancel and accepts the replacement, the step keeps the record with the planned stop and the new order id, after exactly a cancel and a replacement at that trigger |
| TrailingStop.StepMovesLongStop | trailing_stop_manager.py:117-176 | for a trailing long, a trail highest × (1 − distance) above the current stop and the entry, which truncates to a stop at least one tick above the current one and below the mark, does move the stop there |
| TrailingStop.StepMovesShortStop | trailing_stop_manager.py:127-176 | for a trailing short, a trail lowest × (1 + distance) below the current stop and the entry, which truncates to a stop at least one tick below the current one and above the mark, does move the stop there |
| TrailingStop.TrailingExample | trailing_stop_manager.py:96-176 | a long entered at 100 with a stop at 98, activation 2 %, distance 1 % and tick 0.01 that sees a mark of 103 activates trailing and moves its stop to 101.97 |
| TrailingStop.StepSettles | trailing_stop_manager.py:115-176 | after a stop was moved, a second pass at the same mark keeps the record exactly as it is and sends nothing |
| TrailingStop.PassDisabled | trailing_stop_manager.py:17-19 | with TRAILING_STOP off the pass changes and sends nothing |
| TrailingStop.PassResult | trailing_stop_manager.py:28-197 | the intended pass: every record it keeps was in the map before and is the same trade |
| TrailingStop.PassOnlyRemoves | trailing_stop_manager.py:28-197 | the pass never adds to the number of trades |
| TrailingStop.PassRequests | trailing_stop_manager.py:28-197 | a switched-on pass has a request list for every record; a non-empty list starts with the cancel of that record's stop and holds at most a replacement besides, a STOP_MARKET on the closing side for the record's quantity |
| TrailingStop.PassDropsClosedPositions | trailing_stop_manager.py:41-74 | a record whose position is gone leaves the map and nothing is sent for it |
| TrailingStop.PassDropReasons | trailing_stop_manager.py:41-196 | a record leaves the map only for a closed position or a stop order that could not be kept |
| TrailingStop.PassResultAsWritten | main.py:478-480 | as the service calls it, the pass keeps exactly the keys it had, each still the same trade |
| TrailingStop.PassAsWrittenKeepsClosedPosition | main.py:478-480 | as called, a record whose position is gone stays in the map, where the intended pass drops it |
| Registry.TradeRegistry.constructor | main.py:24-25 | the service starts with no trades and no configured symbols |
| Registry.FillOrSignal | main.py:156-166 | the price used is the fill's average when it is positive and the signal's price otherwise, so it is positive when either is (also main.py:308-316) |
| Registry.TradeRegistry.HandleTradeSignal | main.py:94-376 | a trade is opened exactly when every gate passes: own trade settled, no unmanaged position left, a free slot, the symbol's settings in place, a balance and a positive size, and an entry and a stop-loss accepted; no entry order goes out on any path that stops before the entry, and a failed reversal or an unmanaged conflict places only the reversal close; an unmanaged conflict, a failed unmanaged close or a full registry neither sends nor remembers any settings; a same-direction signal changes and sends nothing; a failed reversal close keeps the old trade; other symbols are never touched; an entry is tried only with a free slot and the symbol configured; an opened trade's record is exactly what the handler stores: the entry and stop-loss order ids from the exchange's replies, the computed size, the reported stop trigger (0.0 when none) and fresh tracking fields at the fill price; the open-trade limit is preserved; settings are sent at most once per symbol; the reported P&L is that of the closed trade at its fill price |
| Registry.TradeRegistry.SettleOwnTrade | main.py:118-202 | the first phase as the rest of the handler relies on it: the signal goes on exactly when the own trade is settled, the record is then gone, settings are untouched, only a reversal close is placed, and the reported P&L is the closed trade's |
| Registry.TradeRegistry.ResolveOwnTrade | main.py:118-202 | the signal goes on exactly when the own trade is settled, and only a reversal close is placed; per case: no record; same direction (ignored); flat position (record dropped, stop cancelled if any); successful close (close order then stop cancel, record dropped, P&L computed); failed close (stop) |
| Registry.TradeRegistry.EnterTrade | main.py:204-376 | an opened trade's record holds both order ids, the computed size, the reported trigger and the fill price; a trade is opened exactly when the unmanaged position is cleared, a slot is free, the settings are in place and the entry and stop-loss are accepted; before the entry only an unmanaged close is placed, and a conflict sends nothing; the aborts before the settings step leave the configured symbols alone and send no settings call; after the own trade is settled: conflict or failed unmanaged close stops; a full registry stops with nothing recorded; the registry grows by exactly the new symbol and never beyond the limit |
| Registry.TradeRegistry.ResolveUnmanaged | main.py:209-248 | the only request is the unmanaged close, never a settings call; the entry goes ahead exactly when there is no position or an opposite one whose market close was accepted; a position in the signal's direction is a conflict |
| Registry.TradeRegistry.ConfigureSymbol | main.py:258-272 | succeeds exactly when the settings are in place, and places no order; a configured symbol sends nothing; otherwise leverage then margin type, and the symbol is remembered exactly when both succeed |
| Registry.TradeRegistry.ConfigureAndOpen | main.py:258-376 | fails on settings exactly when the symbol was not configured and the leverage or margin call failed; opens a trade exactly when the settings are in place and the entry and stop-loss are accepted, recording both order ids, the computed size, the reported trigger and the fill price; no order is placed when it stops before the entry |
| Registry.TradeRegistry.OpenTrade | main.py:274-305 | NoBalance exactly for a zero balance, SizingFailed exactly for a missing or non-positive size, EntryFailed exactly when the entry order cannot be built or is not accepted, Opened exactly when the entry and the stop-loss are accepted, with a record holding both order ids, the computed size, the reported trigger and the fill price; nothing is sent before sizing succeeds, and the entry order is on the entry side for the computed size |
| Registry.TradeRegistry.ProtectEntry | main.py:307-376 | the trade is recorded, fresh and with the stop's trigger price, exactly when the stop-loss was accepted; otherwise nothing is recorded and a close is sent for a position found open |
| Registry.TradeRegistry.ManageTrailingStops | trailing_stop_manager.py:12-210 | the loop over a key snapshot ends in exactly the pointwise pass result and request map; settings untouched; validity preserved, and every replacement stop order then has a positive quantity |
| Registry.TrailingPass | trailing_stop_manager.py:28-197 | the loop over a snapshot of the keys ends in exactly the intended pass result and request map |

## Left out

- Logging, Telegram notifications, `time.sleep`, timestamps and the server time offset have no effect on the state or on the orders sent, and are not modelled.
- The Flask endpoint's other checks (secret, interval, exchange name, TRADING_PAIRS, float parsing) are not modelled. Only the ticker clean-up is. `Signal` is the already validated signal.
- `get_usdt_balance`, `get_open_position_for_symbol` and `futures_get_order` are answers in the gateway values: the balance, the signed position amount, and the fill price where a non-positive value means "unknown".
- Threads and locks are not modelled. The signal handler and the trailing pass are modelled as operations that run one after the other.
- Floats are exact reals. `float(str(x))` round-off and Decimal precision overflow are not modelled. Case mapping is ASCII only.
- The `balance is None` check at main.py:276 is not modelled, because `get_usdt_balance` returns 0.0 on every error and never None.
- The re-check `symbol not in active_bot_trades` at main.py:209 is not modelled. It always holds once the first phase did not return.
- The outer `BinanceAPIException` handler at trailing_stop_manager.py:199-207 is not modelled. Every call in the `try` either catches its own API errors or has an inner handler.
- The guard at trailing_stop_manager.py:29 is not modelled. It only matters with concurrent removals, which do not exist in the sequential model.
- The `hasattr` check for the activation percentage is taken as true, since the setting is part of `Config`.
- The pass visits the keys in an arbitrary order. This is harmless, because each step reads and writes only its own key.
- The initial stop price stored for a new trade is the trigger price the exchange reports, passed in the gateway. A missing one is stored as 0.0, as in the source, and only logged.
- TrailingStop.StepStopBeyondEntry: the source requires the untruncated trail to lie beyond the entry. After truncation to the tick, a long's stop can end up less than one tick unit below the entry. The lemma states exactly that bound.
- The `orderId` of the cleanup close after a failed stop-loss is only reported in the source, so it is not part of the gateway.
- `Registry.TradeRegistry.ManageTrailingStops` is proved equal to the intended pass, `TrailingStop.PassResult`, which carries out the removals. The call as main.py:480 writes it, with the symbol list passed in place of a lock, is modelled only by `TrailingStop.PassResultAsWritten` (see Findings).

## Findings

| source | as written | input that shows it | evidently intended | confidence | as-written member | corrected member |
|---|---|---|---|---|---|---|
| main.py:480 | the trailing loop passes `symbols_to_check`, a list of symbols, as `active_trades_lock` (no lock exists, main.py:26). The list is truthy, so every removal runs `with <list>:`, which raises. The error is caught by the generic handler at trailing_stop_manager.py:209-210, and the record is never removed | one open long whose position was closed on the exchange (by its stop-loss firing): the pass finds amount 0, tries to remove the record, fails, and the record stays until an opposite signal for the symbol arrives (main.py:136-147), taking a MAX_OPEN_TRADES slot and blocking later signals for that symbol as "same direction" | records whose position is gone, or whose stop could not be kept, are removed (no lock, or a real lock) | high (not executed) | TrailingStop.PassAsWrittenKeepsClosedPosition | TrailingStop.PassDropsClosedPositions |
