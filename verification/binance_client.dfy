/**
 * The decision logic of the exchange client: symbol and filter lookup,
 * position sizing, order-parameter validation, and the shape of the
 * stop-loss, entry and closing orders.  Every network call is left to the
 * caller, which supplies the exchange's answer as a value.
 */
module BinanceClient {
  import opened Basics
  import opened Quantization
  import opened Settings

  datatype OrderType = LIMIT | MARKET | STOP | STOP_MARKET | TAKE_PROFIT | TAKE_PROFIT_MARKET

  /** One entry of a symbol's 'filters' list, keyed by its 'filterType'. */
  datatype Filter =
    | LotSize(stepSize: Step)
    | PriceFilter(tickSize: Step)
    | MinNotional(notional: real)
    | OtherFilter(filterType: string)

  datatype FilterKind = LOT_SIZE | PRICE_FILTER | MIN_NOTIONAL | OTHER

  /** One entry of exchange_info['symbols']. */
  datatype SymbolInfo = SymbolInfo(symbol: string, filters: seq<Filter>)

  /** The 'params' dictionary place_futures_order sends. */
  datatype OrderParams = OrderParams(
    symbol: string,
    side: Side,
    quantity: real,
    orderType: OrderType,
    price: Option<real>,
    timeInForceGtc: bool,
    stopPrice: Option<real>,
    reduceOnly: Option<bool>)

  /** The outcome of an account-setting call: accepted, rejected with an API code, or a non-API error. */
  datatype ApiReply = Accepted | Rejected(code: int) | Errored

  const LEVERAGE_NOT_CHANGED: int := -4048
  const NO_NEED_TO_CHANGE_MARGIN_TYPE: int := -4046

  /** set_leverage: "leverage not changed" is as good as a change; every other failure is a failure. */
  function SetLeverageSucceeded(reply: ApiReply): (ok: bool)
    ensures ok <==> reply == Accepted || reply == Rejected(LEVERAGE_NOT_CHANGED)
  {
    match reply
    case Accepted => true
    case Rejected(code) => code == LEVERAGE_NOT_CHANGED
    case Errored => false
  }

  /** set_margin_type: "no need to change margin type" is success; -4059 and every other failure is not. */
  function SetMarginTypeSucceeded(reply: ApiReply): (ok: bool)
    ensures ok <==> reply == Accepted || reply == Rejected(NO_NEED_TO_CHANGE_MARGIN_TYPE)
  {
    match reply
    case Accepted => true
    case Rejected(code) => code == NO_NEED_TO_CHANGE_MARGIN_TYPE
    case Errored => false
  }

  // ---------------------------------------------------------------- lookup

  /** The entry get_symbol_info returns: the first one whose symbol matches. */
  function LookupSymbol(info: seq<SymbolInfo>, symbol: string): (r: Option<SymbolInfo>)
    ensures r.None? <==> forall i | 0 <= i < |info| :: info[i].symbol != symbol
    ensures r.Some? ==> exists i | 0 <= i < |info| ::
      && info[i] == r.value
      && info[i].symbol == symbol
      && forall j | 0 <= j < i :: info[j].symbol != symbol
  {
    if |info| == 0 then None
    else if info[0].symbol == symbol then
      Some(info[0])
    else
      var r := LookupSymbol(info[1..], symbol);
      assert forall i | 1 <= i < |info| :: info[i] == info[1..][i - 1];
      r
  }

  /** get_symbol_info: a linear scan of the exchange's symbol list. */
  method GetSymbolInfo(info: seq<SymbolInfo>, symbol: string) returns (r: Option<SymbolInfo>)
    ensures r == LookupSymbol(info, symbol)
  {
    var i := 0;
    while i < |info|
      invariant 0 <= i <= |info|
      invariant LookupSymbol(info[i..], symbol) == LookupSymbol(info, symbol)
    {
      if info[i].symbol == symbol {
        return Some(info[i]);
      }
      assert info[i..][1..] == info[i + 1..];
      i := i + 1;
    }
    return None;
  }

  function KindOf(f: Filter): FilterKind
  {
    match f
    case LotSize(_) => LOT_SIZE
    case PriceFilter(_) => PRICE_FILTER
    case MinNotional(_) => MIN_NOTIONAL
    case OtherFilter(_) => OTHER
  }

  /** next((f for f in filters if f['filterType'] == kind), None) */
  function FirstOfKind(fs: seq<Filter>, kind: FilterKind): (r: Option<Filter>)
    ensures r.None? <==> forall i | 0 <= i < |fs| :: KindOf(fs[i]) != kind
    ensures r.Some? ==> exists i | 0 <= i < |fs| ::
      && fs[i] == r.value
      && KindOf(fs[i]) == kind
      && forall j | 0 <= j < i :: KindOf(fs[j]) != kind
  {
    if |fs| == 0 then None
    else if KindOf(fs[0]) == kind then
      Some(fs[0])
    else
      var r := FirstOfKind(fs[1..], kind);
      assert forall i | 1 <= i < |fs| :: fs[i] == fs[1..][i - 1];
      r
  }

  /** The step of the first LOT_SIZE filter, if the symbol has one. */
  function LotStepOf(si: SymbolInfo): (r: Option<Step>)
    ensures r.None? <==> forall i | 0 <= i < |si.filters| :: !si.filters[i].LotSize?
    ensures r.Some? ==> FirstOfKind(si.filters, LOT_SIZE) == Some(LotSize(r.value))
  {
    assert forall i | 0 <= i < |si.filters| :: KindOf(si.filters[i]) == LOT_SIZE <==> si.filters[i].LotSize?;
    match FirstOfKind(si.filters, LOT_SIZE)
    case Some(LotSize(step)) => Some(step)
    case _ => None
  }

  /** The tick of the first PRICE_FILTER, if the symbol has one. */
  function PriceTickOf(si: SymbolInfo): (r: Option<Step>)
    ensures r.None? <==> forall i | 0 <= i < |si.filters| :: !si.filters[i].PriceFilter?
    ensures r.Some? ==> FirstOfKind(si.filters, PRICE_FILTER) == Some(PriceFilter(r.value))
  {
    assert forall i | 0 <= i < |si.filters| :: KindOf(si.filters[i]) == PRICE_FILTER <==> si.filters[i].PriceFilter?;
    match FirstOfKind(si.filters, PRICE_FILTER)
    case Some(PriceFilter(tick)) => Some(tick)
    case _ => None
  }

  /** The minimum notional of the first MIN_NOTIONAL filter, if the symbol has one. */
  function MinNotionalOf(si: SymbolInfo): (r: Option<real>)
    ensures r.None? <==> forall i | 0 <= i < |si.filters| :: !si.filters[i].MinNotional?
    ensures r.Some? ==> FirstOfKind(si.filters, MIN_NOTIONAL) == Some(MinNotional(r.value))
  {
    assert forall i | 0 <= i < |si.filters| :: KindOf(si.filters[i]) == MIN_NOTIONAL <==> si.filters[i].MinNotional?;
    match FirstOfKind(si.filters, MIN_NOTIONAL)
    case Some(MinNotional(n)) => Some(n)
    case _ => None
  }

  // ---------------------------------------------------------------- sizing

  /**
   * The quantity before any rounding: its notional at the entry price is the
   * tradable part of the balance shared equally among the trade slots.
   */
  function RawQuantity(balance: real, entryPrice: real, c: Config): (q: real)
    requires c.maxOpenTrades > 0 && entryPrice > 0.0
    ensures q * entryPrice * (c.maxOpenTrades as real) == balance * c.tradableBalanceRatio
    ensures balance * c.tradableBalanceRatio >= 0.0 ==> q >= 0.0
  {
    var share := balance * c.tradableBalanceRatio / (c.maxOpenTrades as real);
    DivMulCancel(share, entryPrice);
    DivMulCancel(balance * c.tradableBalanceRatio, c.maxOpenTrades as real);
    DivSign(share, entryPrice);
    DivSign(balance * c.tradableBalanceRatio, c.maxOpenTrades as real);
    share / entryPrice
  }

  /** An order of this quantity at this price is worth less than the minimum notional. */
  predicate BelowMinNotional(quantity: real, price: real, minNotional: real)
  {
    quantity * price < minNotional
  }

  /**
   * The LOT_SIZE and MIN_NOTIONAL part of calculate_position_size for an
   * already computed raw quantity: truncate to the lot step, then refuse an
   * order whose notional is below the minimum.  Without a LOT_SIZE filter
   * the raw quantity is used as it is, and the minimum is not checked.
   */
  function AdjustToLot(si: SymbolInfo, raw: real, entryPrice: real): (r: Option<real>)
    ensures r.None? <==>
      && LotStepOf(si).Some? && MinNotionalOf(si).Some?
      && BelowMinNotional(Quantize(raw, LotStepOf(si).value), entryPrice, MinNotionalOf(si).value)
    ensures r.Some? ==>
      match LotStepOf(si)
      case None => r.value == raw
      case Some(step) =>
        && (raw >= 0.0 ==> 0.0 <= r.value <= raw && raw - r.value < Unit(step))
        && (MinNotionalOf(si).Some? ==> !BelowMinNotional(r.value, entryPrice, MinNotionalOf(si).value))
    // With a step, the quantity sent is the raw one cut down to the step's decimals.
    ensures r.Some? && LotStepOf(si).Some? ==>
      && r.value == Quantize(raw, LotStepOf(si).value)
      && IsMultipleOf(r.value, Unit(LotStepOf(si).value))
  {
    match LotStepOf(si)
    case None => Some(raw)
    case Some(step) =>
      var adjusted := Quantize(raw, step);
      if MinNotionalOf(si).Some? && BelowMinNotional(adjusted, entryPrice, MinNotionalOf(si).value) then None
      else
        QuantizeBounds(raw, step);
        QuantizeIsMultiple(raw, step);
        Some(adjusted)
  }

  /** calculate_position_size: None for a non-positive price, an unknown symbol or an order below the minimum notional. */
  function CalculatePositionSize(info: seq<SymbolInfo>, symbol: string, balance: real, entryPrice: real, c: Config)
    : (r: Option<real>)
    requires c.maxOpenTrades > 0
    ensures entryPrice <= 0.0 ==> r.None?
    ensures LookupSymbol(info, symbol).None? ==> r.None?
    ensures entryPrice > 0.0 && LookupSymbol(info, symbol).Some? ==>
      r == AdjustToLot(LookupSymbol(info, symbol).value, RawQuantity(balance, entryPrice, c), entryPrice)
  {
    if entryPrice <= 0.0 then None
    else
      match LookupSymbol(info, symbol)
      case None => None
      case Some(si) => AdjustToLot(si, RawQuantity(balance, entryPrice, c), entryPrice)
  }

  /** 10000 USDT, a 0.8 ratio, five slots, a price of 100 and a "0.01" step give 16 contracts. */
  lemma PositionSizeExample()
    ensures
      var si := SymbolInfo("BTCUSDT", [LotSize(Step(1, -2)), MinNotional(5.0)]);
      var c := Config(0.8, 5, 0.02, EntryLimit, StopMarket, true, 0.01, 0.005);
      CalculatePositionSize([si], "BTCUSDT", 10000.0, 100.0, c) == Some(16.0)
  {
  }

  // ---------------------------------------------------------------- orders

  /** Python truthiness of an optional float argument: present and non-zero. */
  predicate Given(p: Option<real>)
  {
    p.Some? && p.value != 0.0
  }

  /** The order type sent: the one asked for, else LIMIT exactly when a price is given, else MARKET. */
  function ResolvedType(price: Option<real>, orderType: Option<OrderType>): (t: OrderType)
    ensures orderType.Some? ==> t == orderType.value
    ensures orderType.None? ==> (t == LIMIT <==> Given(price)) && (t == LIMIT || t == MARKET)
  {
    if orderType.Some? then orderType.value
    else if Given(price) then LIMIT
    else MARKET
  }

  predicate NeedsStopPrice(t: OrderType)
  {
    t == STOP_MARKET || t == TAKE_PROFIT_MARKET
  }

  /**
   * A price as sent: truncated to the tick when the symbol has a
   * PRICE_FILTER.  A non-negative price is never raised and loses less than
   * one tick unit, and it keeps exactly the tick's decimals.
   */
  function ToTick(p: real, tick: Option<Step>): (r: real)
    ensures p >= 0.0 ==> 0.0 <= r <= p
    ensures tick.Some? ==> p - Unit(tick.value) < r < p + Unit(tick.value)
    ensures tick.Some? ==> IsMultipleOf(r, Unit(tick.value))
    ensures tick.None? ==> r == p
  {
    if tick.Some? then
      QuantizeBounds(p, tick.value);
      QuantizeIsMultiple(p, tick.value);
      Quantize(p, tick.value)
    else p
  }

  /**
   * The validation part of place_futures_order: the request it would send,
   * or None when it returns before sending anything.
   */
  function PlaceOrderParams(
    info: seq<SymbolInfo>, symbol: string, side: Side, quantity: real,
    price: Option<real>, stopPrice: Option<real>, orderType: Option<OrderType>)
    : (r: Option<OrderParams>)
    ensures r.Some? <==>
      && LookupSymbol(info, symbol).Some?
      && (ResolvedType(price, orderType) == LIMIT ==> Given(price))
      && (NeedsStopPrice(ResolvedType(price, orderType)) ==> Given(stopPrice))
    ensures r.Some? ==>
      var tick := PriceTickOf(LookupSymbol(info, symbol).value);
      && r.value.symbol == symbol && r.value.side == side && r.value.quantity == quantity
      && r.value.orderType == ResolvedType(price, orderType)
      && (r.value.price.Some? <==> r.value.orderType == LIMIT)
      && (r.value.price.Some? ==> r.value.price.value == ToTick(price.value, tick))
      && r.value.timeInForceGtc == (r.value.orderType == LIMIT)
      && (r.value.stopPrice.Some? <==> NeedsStopPrice(r.value.orderType))
      && (r.value.stopPrice.Some? ==> r.value.stopPrice.value == ToTick(stopPrice.value, tick))
  {
    match LookupSymbol(info, symbol)
    case None => None
    case Some(si) =>
      var tick := PriceTickOf(si);
      var t := ResolvedType(price, orderType);
      if t == LIMIT && !Given(price) then None
      else if NeedsStopPrice(t) && !Given(stopPrice) then None
      else
        Some(OrderParams(
          symbol, side, quantity, t,
          if t == LIMIT then Some(ToTick(price.value, tick)) else None,
          t == LIMIT,
          if NeedsStopPrice(t) then Some(ToTick(stopPrice.value, tick)) else None,
          if NeedsStopPrice(t) then Some(false) else None))
  }

  /** The side that opens a position in this direction (create_entry_order). */
  function EntrySide(d: Direction): (s: Side)
    ensures SignedFill(s, 1.0) > 0.0 <==> d == Long
  {
    if d == Long then BUY else SELL
  }

  /** create_entry_order: a LIMIT order at the signal price, a MARKET order, or nothing for an unsupported type. */
  function EntryOrderParams(info: seq<SymbolInfo>, symbol: string, d: Direction, entryPrice: real, quantity: real, kind: EntryOrderKind)
    : (r: Option<OrderParams>)
    ensures r.Some? <==>
      && kind != EntryUnsupported
      && LookupSymbol(info, symbol).Some?
      && (kind == EntryLimit ==> entryPrice != 0.0)
    ensures r.Some? ==>
      && r.value.symbol == symbol && r.value.side == EntrySide(d) && r.value.quantity == quantity
      && r.value.orderType == (if kind == EntryLimit then LIMIT else MARKET)
      && r.value.price == (if kind == EntryLimit
                           then Some(ToTick(entryPrice, PriceTickOf(LookupSymbol(info, symbol).value)))
                           else None)
      && r.value.stopPrice.None?
  {
    match kind
    case EntryLimit => PlaceOrderParams(info, symbol, EntrySide(d), quantity, Some(entryPrice), None, Some(LIMIT))
    case EntryMarket => PlaceOrderParams(info, symbol, EntrySide(d), quantity, None, None, Some(MARKET))
    case EntryUnsupported => None
  }

  /** The side of the protective order: it always closes the position the entry opened. */
  function StopLossSide(d: Direction): (s: Side)
    ensures s != EntrySide(d)
  {
    if d == Long then SELL else BUY
  }

  /** The trigger price create_stop_loss_order computes: STOP_LOSS below a long entry, above a short one. */
  function InitialStopPrice(d: Direction, entryPrice: real, stopLoss: real): (p: real)
    ensures entryPrice > 0.0 && 0.0 < stopLoss < 1.0 ==>
      if d == Long then 0.0 < p < entryPrice else p > entryPrice
    ensures d == Long ==> entryPrice - p == entryPrice * stopLoss
    ensures d == Short ==> p - entryPrice == entryPrice * stopLoss
  {
    if d == Long then entryPrice * (1.0 - stopLoss) else entryPrice * (1.0 + stopLoss)
  }

  lemma InitialStopExample()
    ensures InitialStopPrice(Long, 100.0, 0.02) == 98.0
    ensures InitialStopPrice(Short, 100.0, 0.02) == 102.0
  {
  }

  /**
   * create_stop_loss_order: a STOP_MARKET order on the closing side at the
   * initial stop price ('LIMIT' is downgraded to STOP_MARKET too), or
   * nothing for an unsupported type.
   */
  function StopLossOrderParams(
    info: seq<SymbolInfo>, symbol: string, d: Direction, entryPrice: real, quantity: real,
    stopLoss: real, kind: StopOrderKind)
    : (r: Option<OrderParams>)
    ensures kind == StopUnsupported ==> r.None?
    ensures kind != StopUnsupported ==>
      (r.Some? <==> LookupSymbol(info, symbol).Some? && InitialStopPrice(d, entryPrice, stopLoss) != 0.0)
    ensures r.Some? ==>
      && r.value.orderType == STOP_MARKET && r.value.side == StopLossSide(d) && r.value.quantity == quantity
      && r.value.price.None? && r.value.reduceOnly == Some(false)
      && r.value.stopPrice == Some(ToTick(InitialStopPrice(d, entryPrice, stopLoss), PriceTickOf(LookupSymbol(info, symbol).value)))
  {
    if kind == StopUnsupported then None
    else PlaceOrderParams(info, symbol, StopLossSide(d), quantity, None, Some(InitialStopPrice(d, entryPrice, stopLoss)), Some(STOP_MARKET))
  }

  /**
   * close_position_market: nothing for a flat position; otherwise a MARKET
   * order whose fill brings the signed amount back to zero.
   */
  function ClosePositionOrder(info: seq<SymbolInfo>, symbol: string, positionAmt: real): (r: Option<OrderParams>)
    ensures r.Some? <==> positionAmt != 0.0 && LookupSymbol(info, symbol).Some?
    ensures r.Some? ==>
      && r.value.orderType == MARKET && r.value.symbol == symbol
      && r.value.quantity == Abs(positionAmt) > 0.0
      && positionAmt + SignedFill(r.value.side, r.value.quantity) == 0.0
      && r.value.price.None? && r.value.stopPrice.None?
  {
    if positionAmt == 0.0 then None
    else
      var side := if positionAmt > 0.0 then SELL else BUY;
      PlaceOrderParams(info, symbol, side, Abs(positionAmt), None, None, Some(MARKET))
  }
}
