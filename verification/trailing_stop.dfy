/**
 * One record's share of the trailing-stop pass: activation once the trade is
 * far enough in profit, tracking of the best price since activation, the
 * stop price that trails it, and the cancel-and-replace of the stop order on
 * the exchange.  The exchange's answers are given as a gateway value.
 */
module TrailingStop {
  import opened Basics
  import opened Quantization
  import opened Settings
  import opened BinanceClient
  import opened Trades

  /** What get_open_position_for_symbol reports: nothing, or the signed amount and the mark price. */
  datatype PositionInfo = NoPosition | Position(amount: real, markPrice: real)

  /** The outcome of futures_cancel_order on the current stop order. */
  datatype CancelOutcome = Cancelled | CancelRejected(code: int) | CancelErrored

  /**
   * The exchange as one pass sees it: each symbol is asked for its position
   * once, its stop is cancelled at most once and at most one replacement is
   * placed, whose reply may carry an order id.
   */
  datatype TrailGateway = TrailGateway(
    position: string -> PositionInfo,
    cancel: string -> CancelOutcome,
    replacement: string -> Option<int>)

  /** "Unknown order sent": the stop was already filled or cancelled. */
  const UNKNOWN_ORDER: int := -2011

  /** The tick used when the symbol has no PRICE_FILTER: "1e-8". */
  const DEFAULT_TICK: Step := Step(1, -8)

  /** The fields the pass never touches. */
  predicate SameTrade(a: TradeRecord, b: TradeRecord)
  {
    && a.entryOrderId == b.entryOrderId
    && a.entryPrice == b.entryPrice
    && a.quantity == b.quantity
    && a.signalType == b.signalType
    && a.status == b.status
  }

  /** The stop order the record points at. */
  predicate SameStop(a: TradeRecord, b: TradeRecord)
  {
    a.slOrderId == b.slOrderId && a.currentSlPrice == b.currentSlPrice
  }

  /** Unrealised gain as a fraction of the entry price; 0 when the entry price is not positive. */
  function PnlRatio(entryPrice: real, d: Direction, mark: real): (ratio: real)
    ensures entryPrice <= 0.0 ==> ratio == 0.0
    ensures entryPrice > 0.0 && d == Long ==> (ratio > 0.0 <==> mark > entryPrice)
    ensures entryPrice > 0.0 && d == Short ==> (ratio > 0.0 <==> mark < entryPrice)
  {
    if entryPrice > 0.0 then
      if d == Long then (mark - entryPrice) / entryPrice else (entryPrice - mark) / entryPrice
    else 0.0
  }

  /** The activation threshold is a price level: above entry × (1 + a) for a long, below entry × (1 - a) for a short. */
  lemma ActivationPrice(entryPrice: real, d: Direction, mark: real, a: real)
    requires entryPrice > 0.0
    ensures d == Long ==> (PnlRatio(entryPrice, d, mark) > a <==> mark > entryPrice * (1.0 + a))
    ensures d == Short ==> (PnlRatio(entryPrice, d, mark) > a <==> mark < entryPrice * (1.0 - a))
  {
  }

  /** Switches trailing on the first time the gain exceeds the activation percentage, restarting both extremes at the mark. */
  function Activate(rec: TradeRecord, mark: real, c: Config): (r: TradeRecord)
    ensures SameTrade(r, rec) && SameStop(r, rec)
    ensures r.trailingActive <==> rec.trailingActive || PnlRatio(rec.entryPrice, rec.signalType, mark) > c.trailingActivationPercentage
    ensures rec.trailingActive ==> r == rec
    ensures !rec.trailingActive && r.trailingActive ==>
      r.highestSinceActivation == mark && r.lowestSinceActivation == Some(mark)
    ensures !r.trailingActive ==> r == rec
  {
    if !rec.trailingActive && PnlRatio(rec.entryPrice, rec.signalType, mark) > c.trailingActivationPercentage then
      rec.(trailingActive := true, highestSinceActivation := mark, lowestSinceActivation := Some(mark))
    else rec
  }

  /** A new high (long) or low (short) since activation replaces the recorded one. */
  function TrackExtreme(rec: TradeRecord, mark: real): (r: TradeRecord)
    ensures SameTrade(r, rec) && SameStop(r, rec) && r.trailingActive == rec.trailingActive
    ensures rec.signalType == Long ==>
      && r.lowestSinceActivation == rec.lowestSinceActivation
      && r.highestSinceActivation >= rec.highestSinceActivation
      && r.highestSinceActivation >= mark
      && (r.highestSinceActivation == rec.highestSinceActivation || r.highestSinceActivation == mark)
    ensures rec.signalType == Short ==>
      && r.highestSinceActivation == rec.highestSinceActivation
      && r.lowestSinceActivation.Some? && r.lowestSinceActivation.value <= mark
      && (rec.lowestSinceActivation.Some? ==> r.lowestSinceActivation.value <= rec.lowestSinceActivation.value)
      && (r.lowestSinceActivation == rec.lowestSinceActivation || r.lowestSinceActivation == Some(mark))
  {
    if rec.signalType == Long then
      if mark > rec.highestSinceActivation then rec.(highestSinceActivation := mark) else rec
    else
      if rec.lowestSinceActivation.None? || mark < rec.lowestSinceActivation.value
      then rec.(lowestSinceActivation := Some(mark))
      else rec
  }

  /**
   * The stop the trail asks for: the distance below the high of a long, or
   * above the low of a short, and only when it tightens the current stop
   * and lies beyond the entry price.  A short whose low is still infinite
   * has no candidate.
   */
  function Candidate(rec: TradeRecord, c: Config): (r: Option<real>)
    ensures r.Some? && rec.signalType == Long ==>
      && r.value == rec.highestSinceActivation * (1.0 - c.trailingDistancePercentage)
      && r.value > rec.currentSlPrice && r.value > rec.entryPrice
    ensures r.Some? && rec.signalType == Short ==>
      && rec.lowestSinceActivation.Some?
      && r.value == rec.lowestSinceActivation.value * (1.0 + c.trailingDistancePercentage)
      && r.value < rec.currentSlPrice && r.value < rec.entryPrice
  {
    if rec.signalType == Long then
      (var trail := rec.highestSinceActivation * (1.0 - c.trailingDistancePercentage);
       if trail > rec.currentSlPrice && trail > rec.entryPrice then Some(trail) else None)
    else
      match rec.lowestSinceActivation
      case None => None
      case Some(low) =>
        var trail := low * (1.0 + c.trailingDistancePercentage);
        if trail < rec.currentSlPrice && trail < rec.entryPrice then Some(trail) else None
  }

  /** The tick the pass truncates to: the symbol's PRICE_FILTER, else 1e-8. */
  function TickFor(info: seq<SymbolInfo>, symbol: string): (t: Step)
    ensures LookupSymbol(info, symbol).Some? && PriceTickOf(LookupSymbol(info, symbol).value).Some? ==>
      t == PriceTickOf(LookupSymbol(info, symbol).value).value
    ensures LookupSymbol(info, symbol).Some? && PriceTickOf(LookupSymbol(info, symbol).value).None? ==>
      t == DEFAULT_TICK
    ensures LookupSymbol(info, symbol).None? ==> t == DEFAULT_TICK
  {
    match LookupSymbol(info, symbol)
    case None => DEFAULT_TICK
    case Some(si) => if PriceTickOf(si).Some? then PriceTickOf(si).value else DEFAULT_TICK
  }

  /**
   * The new stop price, if the stop is to be moved: the candidate truncated
   * to the tick, provided the record has a stop order, the move is at least
   * one tick, and the stop stays on the safe side of the mark price.
   */
  function PlanStop(rec: TradeRecord, mark: real, tick: Step, c: Config): (r: Option<real>)
    ensures r.Some? ==> rec.slOrderId != 0
    ensures r.Some? && rec.signalType == Long ==>
      && r.value >= rec.currentSlPrice + Value(tick)
      && r.value < mark
      && r.value > rec.entryPrice - Unit(tick)
    ensures r.Some? && rec.signalType == Short ==>
      && r.value <= rec.currentSlPrice - Value(tick)
      && r.value > mark
      && r.value < rec.entryPrice + Unit(tick)
    ensures r.Some? ==> Candidate(rec, c).Some? && r.value == Quantize(Candidate(rec, c).value, tick)
    ensures
      && Candidate(rec, c).Some? && rec.slOrderId != 0
      && Abs(Quantize(Candidate(rec, c).value, tick) - rec.currentSlPrice) >= Value(tick)
      && (rec.signalType == Long ==> Quantize(Candidate(rec, c).value, tick) < mark)
      && (rec.signalType == Short ==> Quantize(Candidate(rec, c).value, tick) > mark)
      ==> r == Some(Quantize(Candidate(rec, c).value, tick))
  {
    match Candidate(rec, c)
    case None => None
    case Some(trail) =>
      if rec.slOrderId == 0 then None
      else
        var adjusted := Quantize(trail, tick);
        QuantizeClose(trail, tick);
        if Abs(adjusted - rec.currentSlPrice) < Value(tick) then None
        else if rec.signalType == Long && adjusted >= mark then None
        else if rec.signalType == Short && adjusted <= mark then None
        else Some(adjusted)
  }

  /**
   * A record's share of the pass: its next state, whether the pass wants
   * it removed, and the requests it sent.  When removal is wanted, `next`
   * is the record as it stood at that moment.
   */
  datatype TrailOutcome = TrailOutcome(next: TradeRecord, dropped: bool, requests: seq<Request>)

  /** Cancel the current stop, then place the replacement; any failure after the cancel gives the record up. */
  function ReplaceStop(symbol: string, rec: TradeRecord, newStop: real, info: seq<SymbolInfo>, gw: TrailGateway)
    : (o: TrailOutcome)
    ensures SameTrade(o.next, rec) && o.next.trailingActive == rec.trailingActive
    ensures o.next.highestSinceActivation == rec.highestSinceActivation
    ensures o.next.lowestSinceActivation == rec.lowestSinceActivation
    ensures 1 <= |o.requests| <= 2 && o.requests[0] == Cancel(symbol, rec.slOrderId)
    ensures |o.requests| == 2 ==>
      && gw.cancel(symbol) == Cancelled
      && o.requests[1].Place? && o.requests[1].purpose == TrailingStopLoss
      && o.requests[1].order.orderType == STOP_MARKET
      && o.requests[1].order.side == StopLossSide(rec.signalType)
      && o.requests[1].order.quantity == rec.quantity
    ensures !SameStop(o.next, rec) ==>
      && !o.dropped && |o.requests| == 2
      && o.next.currentSlPrice == newStop
      && gw.replacement(symbol).Some? && o.next.slOrderId == gw.replacement(symbol).value
    ensures o.dropped <==>
      || gw.cancel(symbol) == CancelRejected(UNKNOWN_ORDER)
      || (gw.cancel(symbol) == Cancelled && (|o.requests| == 1 || gw.replacement(symbol).None?))
    ensures o.dropped ==> o.next == rec
    ensures
      && gw.cancel(symbol) == Cancelled
      && PlaceOrderParams(info, symbol, StopLossSide(rec.signalType), rec.quantity, None, Some(newStop), Some(STOP_MARKET)).Some?
      && gw.replacement(symbol).Some?
      ==>
      && !o.dropped
      && o.next == rec.(slOrderId := gw.replacement(symbol).value, currentSlPrice := newStop)
      && o.requests == [Cancel(symbol, rec.slOrderId),
                        Place(TrailingStopLoss, PlaceOrderParams(info, symbol, StopLossSide(rec.signalType), rec.quantity,
                                                                 None, Some(newStop), Some(STOP_MARKET)).value)]
  {
    var cancel := [Cancel(symbol, rec.slOrderId)];
    match gw.cancel(symbol)
    case CancelErrored => TrailOutcome(rec, false, cancel)
    case CancelRejected(code) => TrailOutcome(rec, code == UNKNOWN_ORDER, cancel)
    case Cancelled =>
      match PlaceOrderParams(info, symbol, StopLossSide(rec.signalType), rec.quantity, None, Some(newStop), Some(STOP_MARKET))
      case None => TrailOutcome(rec, true, cancel)
      case Some(order) =>
        var sent := cancel + [Place(TrailingStopLoss, order)];
        match gw.replacement(symbol)
        case Some(id) => TrailOutcome(rec.(slOrderId := id, currentSlPrice := newStop), false, sent)
        case None => TrailOutcome(rec, true, sent)
  }

  /** The body of the pass's loop for one symbol. */
  function TrailStep(symbol: string, rec: TradeRecord, info: seq<SymbolInfo>, gw: TrailGateway, c: Config)
    : (o: TrailOutcome)
    ensures SameTrade(o.next, rec)
  {
    if rec.status != OPEN then TrailOutcome(rec, false, [])
    else
      match gw.position(symbol)
      case NoPosition => TrailOutcome(rec, true, [])
      case Position(amount, mark) =>
        if amount == 0.0 then TrailOutcome(rec, true, [])
        else if mark == 0.0 then TrailOutcome(rec, false, [])
        else
          var activated := Activate(rec, mark, c);
          if !activated.trailingActive then TrailOutcome(activated, false, [])
          else
            var tracked := TrackExtreme(activated, mark);
            match PlanStop(tracked, mark, TickFor(info, symbol), c)
            case None => TrailOutcome(tracked, false, [])
            case Some(newStop) => ReplaceStop(symbol, tracked, newStop, info, gw)
  }

  predicate Flat(p: PositionInfo)
  {
    p.NoPosition? || p.amount == 0.0
  }

  // ---------------------------------------------------------------- one record

  /** Records that are not open are skipped untouched. */
  lemma StepSkipsClosedRecords(symbol: string, rec: TradeRecord, info: seq<SymbolInfo>, gw: TrailGateway, c: Config)
    requires rec.status != OPEN
    ensures TrailStep(symbol, rec, info, gw, c) == TrailOutcome(rec, false, [])
  {
  }

  /** A position that is gone on the exchange is given up without touching the exchange. */
  lemma StepDropsFlatPosition(symbol: string, rec: TradeRecord, info: seq<SymbolInfo>, gw: TrailGateway, c: Config)
    requires rec.status == OPEN && Flat(gw.position(symbol))
    ensures TrailStep(symbol, rec, info, gw, c) == TrailOutcome(rec, true, [])
  {
  }

  /** Without a mark price nothing changes. */
  lemma StepIgnoresMissingMark(symbol: string, rec: TradeRecord, info: seq<SymbolInfo>, gw: TrailGateway, c: Config)
    requires !Flat(gw.position(symbol)) && gw.position(symbol).markPrice == 0.0
    ensures TrailStep(symbol, rec, info, gw, c) == TrailOutcome(rec, false, [])
  {
  }

  /** Once on, trailing stays on; and a record in enough profit is switched on. */
  lemma StepActivation(symbol: string, rec: TradeRecord, info: seq<SymbolInfo>, gw: TrailGateway, c: Config)
    requires rec.status == OPEN && !Flat(gw.position(symbol)) && gw.position(symbol).markPrice != 0.0
    ensures var o := TrailStep(symbol, rec, info, gw, c);
      o.next.trailingActive <==>
        rec.trailingActive || PnlRatio(rec.entryPrice, rec.signalType, gw.position(symbol).markPrice) > c.trailingActivationPercentage
  {
  }

  /** A record that is not trailing sends nothing. */
  lemma StepInactiveSendsNothing(symbol: string, rec: TradeRecord, info: seq<SymbolInfo>, gw: TrailGateway, c: Config)
    requires !TrailStep(symbol, rec, info, gw, c).next.trailingActive
    ensures TrailStep(symbol, rec, info, gw, c).requests == []
    ensures !TrailStep(symbol, rec, info, gw, c).dropped ==> TrailStep(symbol, rec, info, gw, c).next == rec
  {
  }

  /** While trailing, the recorded high of a long never goes down and covers the mark price. */
  lemma StepHighNeverFalls(symbol: string, rec: TradeRecord, info: seq<SymbolInfo>, gw: TrailGateway, c: Config)
    requires rec.status == OPEN && rec.trailingActive && rec.signalType == Long
    requires !Flat(gw.position(symbol)) && gw.position(symbol).markPrice != 0.0
    requires !TrailStep(symbol, rec, info, gw, c).dropped
    ensures TrailStep(symbol, rec, info, gw, c).next.highestSinceActivation >= rec.highestSinceActivation
    ensures TrailStep(symbol, rec, info, gw, c).next.highestSinceActivation >= gw.position(symbol).markPrice
  {
  }

  /** While trailing, the recorded low of a short never goes up and covers the mark price. */
  lemma StepLowNeverRises(symbol: string, rec: TradeRecord, info: seq<SymbolInfo>, gw: TrailGateway, c: Config)
    requires rec.status == OPEN && rec.trailingActive && rec.signalType == Short
    requires !Flat(gw.position(symbol)) && gw.position(symbol).markPrice != 0.0
    requires !TrailStep(symbol, rec, info, gw, c).dropped
    ensures var low := TrailStep(symbol, rec, info, gw, c).next.lowestSinceActivation;
      && low.Some? && low.value <= gw.position(symbol).markPrice
      && (rec.lowestSinceActivation.Some? ==> low.value <= rec.lowestSinceActivation.value)
  {
  }

  /**
   * The stop only ever tightens: when the pass moves it, a long's stop rises
   * by at least one tick and stays below the mark, a short's falls by at
   * least one tick and stays above it; and it was the exchange that
   * accepted the replacement.
   */
  lemma StepStopRatchets(symbol: string, rec: TradeRecord, info: seq<SymbolInfo>, gw: TrailGateway, c: Config)
    requires !SameStop(TrailStep(symbol, rec, info, gw, c).next, rec)
    ensures var o := TrailStep(symbol, rec, info, gw, c);
      var tick := TickFor(info, symbol);
      && !o.dropped
      && rec.slOrderId != 0
      && gw.position(symbol).Position?
      && gw.replacement(symbol).Some? && o.next.slOrderId == gw.replacement(symbol).value
      && (rec.signalType == Long ==>
            o.next.currentSlPrice >= rec.currentSlPrice + Value(tick)
            && o.next.currentSlPrice < gw.position(symbol).markPrice)
      && (rec.signalType == Short ==>
            o.next.currentSlPrice <= rec.currentSlPrice - Value(tick)
            && o.next.currentSlPrice > gw.position(symbol).markPrice)
  {
  }

  /** A moved stop lies beyond the entry price, up to the truncation to one tick unit. */
  lemma StepStopBeyondEntry(symbol: string, rec: TradeRecord, info: seq<SymbolInfo>, gw: TrailGateway, c: Config)
    requires !SameStop(TrailStep(symbol, rec, info, gw, c).next, rec)
    ensures var o := TrailStep(symbol, rec, info, gw, c);
      var tick := TickFor(info, symbol);
      && (rec.signalType == Long ==> o.next.currentSlPrice > rec.entryPrice - Unit(tick))
      && (rec.signalType == Short ==> o.next.currentSlPrice < rec.entryPrice + Unit(tick))
  {
  }

  /** The candidate is the trail itself when it tightens the stop and lies beyond the entry. */
  lemma TrailCandidate(rec: TradeRecord, c: Config, trail: real)
    requires rec.signalType == Long ==> trail == rec.highestSinceActivation * (1.0 - c.trailingDistancePercentage)
    requires rec.signalType == Short ==>
      rec.lowestSinceActivation.Some? && trail == rec.lowestSinceActivation.value * (1.0 + c.trailingDistancePercentage)
    requires rec.signalType == Long ==> trail > rec.currentSlPrice && trail > rec.entryPrice
    requires rec.signalType == Short ==> trail < rec.currentSlPrice && trail < rec.entryPrice
    ensures Candidate(rec, c) == Some(trail)
  {
  }

  lemma PlanTakesCandidate(rec: TradeRecord, mark: real, tick: Step, c: Config, trail: real, newStop: real)
    requires Candidate(rec, c) == Some(trail) && rec.slOrderId != 0
    requires newStop == Quantize(trail, tick)
    requires rec.signalType == Long ==> newStop - rec.currentSlPrice >= Value(tick) && newStop < mark
    requires rec.signalType == Short ==> rec.currentSlPrice - newStop >= Value(tick) && newStop > mark
    ensures PlanStop(rec, mark, tick, c) == Some(newStop)
  {
  }

  lemma TrackedCandidate(rec: TradeRecord, mark: real, c: Config, trail: real)
    requires rec.signalType == Long ==>
      trail == TrackExtreme(rec, mark).highestSinceActivation * (1.0 - c.trailingDistancePercentage)
    requires rec.signalType == Short ==>
      trail == TrackExtreme(rec, mark).lowestSinceActivation.value * (1.0 + c.trailingDistancePercentage)
    requires rec.signalType == Long ==> trail > rec.currentSlPrice && trail > rec.entryPrice
    requires rec.signalType == Short ==> trail < rec.currentSlPrice && trail < rec.entryPrice
    ensures Candidate(TrackExtreme(rec, mark), c) == Some(trail)
  {
    TrailCandidate(TrackExtreme(rec, mark), c, trail);
  }

  lemma TrackedPlan(rec: TradeRecord, mark: real, tick: Step, c: Config, trail: real, newStop: real)
    requires rec.slOrderId != 0
    requires rec.signalType == Long ==>
      trail == TrackExtreme(rec, mark).highestSinceActivation * (1.0 - c.trailingDistancePercentage)
    requires rec.signalType == Short ==>
      trail == TrackExtreme(rec, mark).lowestSinceActivation.value * (1.0 + c.trailingDistancePercentage)
    requires rec.signalType == Long ==> trail > rec.currentSlPrice && trail > rec.entryPrice
    requires rec.signalType == Short ==> trail < rec.currentSlPrice && trail < rec.entryPrice
    requires newStop == Quantize(trail, tick)
    requires rec.signalType == Long ==> newStop - rec.currentSlPrice >= Value(tick) && newStop < mark
    requires rec.signalType == Short ==> rec.currentSlPrice - newStop >= Value(tick) && newStop > mark
    ensures PlanStop(TrackExtreme(rec, mark), mark, tick, c) == Some(newStop)
  {
    TrackedCandidate(rec, mark, c, trail);
    PlanTakesCandidate(TrackExtreme(rec, mark), mark, tick, c, trail, newStop);
  }

  /** A step whose plan moves the stop replaces it there once the exchange cancels and accepts. */
  lemma StepReplacesPlannedStop(symbol: string, rec: TradeRecord, info: seq<SymbolInfo>, gw: TrailGateway, c: Config, newStop: real)
    requires rec.status == OPEN && !Flat(gw.position(symbol)) && gw.position(symbol).markPrice != 0.0
    requires var mark := gw.position(symbol).markPrice;
      && Activate(rec, mark, c).trailingActive
      && PlanStop(TrackExtreme(Activate(rec, mark, c), mark), mark, TickFor(info, symbol), c) == Some(newStop)
    requires LookupSymbol(info, symbol).Some? && newStop != 0.0
    requires gw.cancel(symbol) == Cancelled && gw.replacement(symbol).Some?
    ensures var o := TrailStep(symbol, rec, info, gw, c);
      && !o.dropped
      && o.next.currentSlPrice == newStop
      && o.next.slOrderId == gw.replacement(symbol).value
      && |o.requests| == 2 && o.requests[1].Place? && o.requests[1].order.stopPrice == Some(newStop)
  {
    var mark := gw.position(symbol).markPrice;
    var tracked := TrackExtreme(Activate(rec, mark, c), mark);
    var tick := TickFor(info, symbol);
    assert TrailStep(symbol, rec, info, gw, c) == ReplaceStop(symbol, tracked, newStop, info, gw);
    var order := PlaceOrderParams(info, symbol, StopLossSide(tracked.signalType), tracked.quantity, None, Some(newStop), Some(STOP_MARKET));
    assert order.Some?;
    QuantizeIdempotent(Candidate(tracked, c).value, tick);
    assert order.value.stopPrice == Some(newStop);
  }

  /**
   * The stop does move: a trailing long whose trail (the distance below the
   * best price so far, the mark included) truncates to a stop at least one
   * tick above the current one and below the mark has its stop replaced
   * there, once the exchange confirms the cancel and accepts the new order.
   */
  lemma StepMovesLongStop(symbol: string, rec: TradeRecord, info: seq<SymbolInfo>, gw: TrailGateway, c: Config, mark: real, newStop: real)
    requires rec.status == OPEN && rec.signalType == Long && rec.trailingActive && rec.slOrderId != 0
    requires !Flat(gw.position(symbol)) && gw.position(symbol).markPrice == mark && mark != 0.0
    requires var trail := TrackExtreme(rec, mark).highestSinceActivation * (1.0 - c.trailingDistancePercentage);
      && trail > rec.currentSlPrice && trail > rec.entryPrice
      && newStop == Quantize(trail, TickFor(info, symbol))
      && newStop - rec.currentSlPrice >= Value(TickFor(info, symbol))
      && 0.0 < newStop < mark
    requires LookupSymbol(info, symbol).Some?
    requires gw.cancel(symbol) == Cancelled && gw.replacement(symbol).Some?
    ensures var o := TrailStep(symbol, rec, info, gw, c);
      && !o.dropped
      && o.next.currentSlPrice == newStop
      && o.next.slOrderId == gw.replacement(symbol).value
      && |o.requests| == 2 && o.requests[1].Place? && o.requests[1].order.stopPrice == Some(newStop)
  {
    var trail := TrackExtreme(rec, mark).highestSinceActivation * (1.0 - c.trailingDistancePercentage);
    TrackedPlan(rec, mark, TickFor(info, symbol), c, trail, newStop);
    StepReplacesPlannedStop(symbol, rec, info, gw, c, newStop);
  }

  /** The same for a short: the trail above the lowest price so far, at least one tick below the current stop and above the mark. */
  lemma StepMovesShortStop(symbol: string, rec: TradeRecord, info: seq<SymbolInfo>, gw: TrailGateway, c: Config, mark: real, newStop: real)
    requires rec.status == OPEN && rec.signalType == Short && rec.trailingActive && rec.slOrderId != 0
    requires !Flat(gw.position(symbol)) && gw.position(symbol).markPrice == mark && mark > 0.0
    requires var trail := TrackExtreme(rec, mark).lowestSinceActivation.value * (1.0 + c.trailingDistancePercentage);
      && trail < rec.currentSlPrice && trail < rec.entryPrice
      && newStop == Quantize(trail, TickFor(info, symbol))
      && rec.currentSlPrice - newStop >= Value(TickFor(info, symbol))
      && newStop > mark
    requires LookupSymbol(info, symbol).Some?
    requires gw.cancel(symbol) == Cancelled && gw.replacement(symbol).Some?
    ensures var o := TrailStep(symbol, rec, info, gw, c);
      && !o.dropped
      && o.next.currentSlPrice == newStop
      && o.next.slOrderId == gw.replacement(symbol).value
      && |o.requests| == 2 && o.requests[1].Place? && o.requests[1].order.stopPrice == Some(newStop)
  {
    var trail := TrackExtreme(rec, mark).lowestSinceActivation.value * (1.0 + c.trailingDistancePercentage);
    TrackedPlan(rec, mark, TickFor(info, symbol), c, trail, newStop);
    StepReplacesPlannedStop(symbol, rec, info, gw, c, newStop);
  }

  /**
   * A long entered at 100 with a stop at 98, activation at 2 %, a 1 %
   * distance and a "0.01" tick: a mark of 103 switches trailing on and
   * moves the stop to 101.97.
   */
  lemma TrailingExample()
    ensures
      var rec := TradeRecord(1, 2, 98.0, 100.0, 1.0, Long, OPEN, false, 100.0, None);
      var info := [SymbolInfo("BTCUSDT", [PriceFilter(Step(1, -2))])];
      var gw := TrailGateway(s => Position(1.0, 103.0), s => Cancelled, s => Some(3));
      var c := Config(0.8, 5, 0.02, EntryLimit, StopMarket, true, 0.02, 0.01);
      var o := TrailStep("BTCUSDT", rec, info, gw, c);
      && !o.dropped && o.next.trailingActive
      && o.next.currentSlPrice == 101.97 && o.next.slOrderId == 3
      && o.requests[1].order.stopPrice == Some(101.97)
  {
    var tick := Step(1, -2);
    assert Unit(tick) == 0.01;
    assert Trunc(101.97 / 0.01) == 10197;
    assert Quantize(101.97, tick) == 101.97;
  }

  /**
   * Every request of a step cancels the record's own stop first; a
   * replacement is placed only after the exchange confirmed the cancel, as
   * a STOP_MARKET order closing the record's quantity.
   */
  lemma StepRequests(symbol: string, rec: TradeRecord, info: seq<SymbolInfo>, gw: TrailGateway, c: Config)
    requires TrailStep(symbol, rec, info, gw, c).requests != []
    ensures var o := TrailStep(symbol, rec, info, gw, c);
      && rec.slOrderId != 0
      && |o.requests| <= 2
      && o.requests[0] == Cancel(symbol, rec.slOrderId)
      && (|o.requests| == 2 ==>
            && gw.cancel(symbol) == Cancelled
            && o.requests[1].Place? && o.requests[1].purpose == TrailingStopLoss
            && o.requests[1].order.orderType == STOP_MARKET
            && o.requests[1].order.side == StopLossSide(rec.signalType)
            && o.requests[1].order.quantity == rec.quantity)
  {
  }

  /** A record is given up only when its position is gone or its stop order could not be kept in place. */
  lemma StepDropReasons(symbol: string, rec: TradeRecord, info: seq<SymbolInfo>, gw: TrailGateway, c: Config)
    requires TrailStep(symbol, rec, info, gw, c).dropped
    ensures rec.status == OPEN
    ensures || Flat(gw.position(symbol))
            || gw.cancel(symbol) == CancelRejected(UNKNOWN_ORDER)
            || (gw.cancel(symbol) == Cancelled && TrailStep(symbol, rec, info, gw, c).requests != [])
  {
  }

  /** The replacement goes out at exactly the stop the pass computed: truncating again to the same tick changes nothing. */
  lemma ReplacementAtPlannedPrice(symbol: string, rec: TradeRecord, info: seq<SymbolInfo>, gw: TrailGateway, c: Config)
    requires |TrailStep(symbol, rec, info, gw, c).requests| == 2
    ensures var o := TrailStep(symbol, rec, info, gw, c);
      var mark := gw.position(symbol).markPrice;
      var tracked := TrackExtreme(Activate(rec, mark, c), mark);
      && gw.position(symbol).Position?
      && o.requests[1].order.stopPrice == PlanStop(tracked, mark, TickFor(info, symbol), c)
  {
    var mark := gw.position(symbol).markPrice;
    var tracked := TrackExtreme(Activate(rec, mark, c), mark);
    var tick := TickFor(info, symbol);
    var newStop := PlanStop(tracked, mark, tick, c).value;
    var si := LookupSymbol(info, symbol).value;
    QuantizeIdempotent(Candidate(tracked, c).value, tick);
    assert ToTick(newStop, PriceTickOf(si)) == newStop;
  }

  /** How a step that moved the stop went: every guard passed and the replacement was accepted. */
  lemma MovedStopShape(symbol: string, rec: TradeRecord, info: seq<SymbolInfo>, gw: TrailGateway, c: Config)
    requires !SameStop(TrailStep(symbol, rec, info, gw, c).next, rec)
    ensures rec.status == OPEN && !Flat(gw.position(symbol)) && gw.position(symbol).markPrice != 0.0
    ensures var mark := gw.position(symbol).markPrice;
      var tracked := TrackExtreme(Activate(rec, mark, c), mark);
      var next := TrailStep(symbol, rec, info, gw, c).next;
      && tracked.trailingActive
      && PlanStop(tracked, mark, TickFor(info, symbol), c) == Some(next.currentSlPrice)
      && next == tracked.(slOrderId := next.slOrderId, currentSlPrice := next.currentSlPrice)
  {
  }

  /** A trailing record already at its extreme and with no stop to move sends nothing. */
  lemma QuietStep(symbol: string, rec: TradeRecord, info: seq<SymbolInfo>, gw: TrailGateway, c: Config)
    requires rec.status == OPEN && rec.trailingActive && gw.position(symbol).Position?
    requires TrackExtreme(rec, gw.position(symbol).markPrice) == rec
    requires PlanStop(rec, gw.position(symbol).markPrice, TickFor(info, symbol), c).None?
    ensures TrailStep(symbol, rec, info, gw, c).requests == []
  {
  }

  /** Where the trail would go depends on the extremes, not on the current stop. */
  lemma CandidateIgnoresStop(a: TradeRecord, b: TradeRecord, c: Config)
    requires a.signalType == b.signalType
    requires a.highestSinceActivation == b.highestSinceActivation && a.lowestSinceActivation == b.lowestSinceActivation
    requires Candidate(a, c).Some? && Candidate(b, c).Some?
    ensures Candidate(a, c).value == Candidate(b, c).value
  {
  }

  /** A stop already sitting at the truncated trail is not moved again. */
  lemma PlanStopAtTrail(rec: TradeRecord, mark: real, tick: Step, c: Config)
    requires Candidate(rec, c).Some? ==> Quantize(Candidate(rec, c).value, tick) == rec.currentSlPrice
    ensures PlanStop(rec, mark, tick, c).None?
  {
  }

  /**
   * The pass settles: after it has moved a stop, a second pass that sees
   * the same mark price keeps the record as it is and sends nothing.
   */
  lemma StepSettles(symbol: string, rec: TradeRecord, info: seq<SymbolInfo>, gw: TrailGateway, c: Config)
    requires !SameStop(TrailStep(symbol, rec, info, gw, c).next, rec)
    ensures
      var next := TrailStep(symbol, rec, info, gw, c).next;
      TrailStep(symbol, next, info, gw, c) == TrailOutcome(next, false, [])
  {
    MovedStopShape(symbol, rec, info, gw, c);
    var mark := gw.position(symbol).markPrice;
    var tick := TickFor(info, symbol);
    var tracked := TrackExtreme(Activate(rec, mark, c), mark);
    var next := TrailStep(symbol, rec, info, gw, c).next;
    assert TrackExtreme(next, mark) == next;
    var trail := Candidate(tracked, c).value;
    assert next.currentSlPrice == Quantize(trail, tick);
    QuantizeIdempotent(trail, tick);
    if Candidate(next, c).Some? {
      CandidateIgnoresStop(next, tracked, c);
    }
    PlanStopAtTrail(next, mark, tick, c);
    QuietStep(symbol, next, info, gw, c);
  }

  // ---------------------------------------------------------------- the whole pass

  /**
   * The records after one pass over a snapshot of the keys, every step's
   * removal carried out.  Each step reads and writes only its own key, so
   * the order of the keys does not matter.
   */
  function PassResult(trades: map<string, TradeRecord>, info: seq<SymbolInfo>, gw: TrailGateway, c: Config)
    : (r: map<string, TradeRecord>)
    ensures forall s | s in r :: s in trades && SameTrade(r[s], trades[s])
  {
    if !c.trailingStop then trades
    else
      var r := map s | s in trades && !TrailStep(s, trades[s], info, gw, c).dropped
                 :: TrailStep(s, trades[s], info, gw, c).next;
      r
  }

  /** A pass never adds a record: it keeps or removes each one. */
  lemma PassOnlyRemoves(trades: map<string, TradeRecord>, info: seq<SymbolInfo>, gw: TrailGateway, c: Config)
    ensures |PassResult(trades, info, gw, c)| <= |trades|
  {
    SubsetSize(PassResult(trades, info, gw, c).Keys, trades.Keys);
  }

  /** The requests of one pass, per symbol. */
  function PassRequests(trades: map<string, TradeRecord>, info: seq<SymbolInfo>, gw: TrailGateway, c: Config)
    : (r: map<string, seq<Request>>)
    ensures c.trailingStop ==> r.Keys == trades.Keys
    ensures forall s | s in r && r[s] != [] ::
      && s in trades && trades[s].slOrderId != 0
      && |r[s]| <= 2 && r[s][0] == Cancel(s, trades[s].slOrderId)
    ensures forall s | s in r && |r[s]| == 2 ::
      && r[s][1].Place? && r[s][1].purpose == TrailingStopLoss
      && r[s][1].order.orderType == STOP_MARKET
      && r[s][1].order.side == StopLossSide(trades[s].signalType)
      && r[s][1].order.quantity == trades[s].quantity
  {
    if !c.trailingStop then map[]
    else
      assert forall s | s in trades && TrailStep(s, trades[s], info, gw, c).requests != [] ::
        var o := TrailStep(s, trades[s], info, gw, c);
        && trades[s].slOrderId != 0
        && |o.requests| <= 2 && o.requests[0] == Cancel(s, trades[s].slOrderId)
        && (|o.requests| == 2 ==>
              && o.requests[1].Place? && o.requests[1].purpose == TrailingStopLoss
              && o.requests[1].order.orderType == STOP_MARKET
              && o.requests[1].order.side == StopLossSide(trades[s].signalType)
              && o.requests[1].order.quantity == trades[s].quantity)
      by {
        forall s | s in trades && TrailStep(s, trades[s], info, gw, c).requests != [] {
          StepRequests(s, trades[s], info, gw, c);
        }
      }
      map s | s in trades :: TrailStep(s, trades[s], info, gw, c).requests
  }

  /**
   * The pass as the service runs it: the symbol list is handed over in the
   * lock's place, so every removal fails inside the lock statement, the
   * error is caught and logged, and the record stays as it stood.
   */
  function PassResultAsWritten(trades: map<string, TradeRecord>, info: seq<SymbolInfo>, gw: TrailGateway, c: Config)
    : (r: map<string, TradeRecord>)
    ensures r.Keys == trades.Keys
    ensures forall s | s in r :: SameTrade(r[s], trades[s])
  {
    if !c.trailingStop then trades
    else map s | s in trades :: TrailStep(s, trades[s], info, gw, c).next
  }

  /** Records that agree with every step of the pass, key by key, are the pass's result. */
  lemma PassResultByKeys(trades: map<string, TradeRecord>, result: map<string, TradeRecord>,
                         info: seq<SymbolInfo>, gw: TrailGateway, c: Config)
    requires c.trailingStop && result.Keys <= trades.Keys
    requires forall s | s in trades :: (s in result <==> !TrailStep(s, trades[s], info, gw, c).dropped)
    requires forall s | s in result :: result[s] == TrailStep(s, trades[s], info, gw, c).next
    ensures result == PassResult(trades, info, gw, c)
  {
  }

  /** Requests that agree with every step of the pass, key by key, are the pass's requests. */
  lemma PassRequestsByKeys(trades: map<string, TradeRecord>, sent: map<string, seq<Request>>,
                           info: seq<SymbolInfo>, gw: TrailGateway, c: Config)
    requires c.trailingStop && sent.Keys == trades.Keys
    requires forall s | s in sent :: sent[s] == TrailStep(s, trades[s], info, gw, c).requests
    ensures sent == PassRequests(trades, info, gw, c)
  {
  }

  /** A switched-off trailing stop leaves everything alone. */
  lemma PassDisabled(trades: map<string, TradeRecord>, info: seq<SymbolInfo>, gw: TrailGateway, c: Config)
    requires !c.trailingStop
    ensures PassResult(trades, info, gw, c) == trades
    ensures PassRequests(trades, info, gw, c) == map[]
  {
  }

  lemma SubsetSize<T>(a: set<T>, b: set<T>)
    requires a <= b
    ensures |a| <= |b|
  {
    assert b == a + (b - a);
  }

  /** A record whose position is gone is removed by the pass, and nothing is sent for it. */
  lemma PassDropsClosedPositions(trades: map<string, TradeRecord>, info: seq<SymbolInfo>, gw: TrailGateway, c: Config, s: string)
    requires c.trailingStop && s in trades && trades[s].status == OPEN && Flat(gw.position(s))
    ensures s !in PassResult(trades, info, gw, c)
    ensures PassRequests(trades, info, gw, c)[s] == []
  {
  }

  /** A record is removed only for a closed position or a stop order that could not be kept in place. */
  lemma PassDropReasons(trades: map<string, TradeRecord>, info: seq<SymbolInfo>, gw: TrailGateway, c: Config, s: string)
    requires s in trades && s !in PassResult(trades, info, gw, c)
    ensures c.trailingStop && trades[s].status == OPEN
    ensures || Flat(gw.position(s))
            || gw.cancel(s) == CancelRejected(UNKNOWN_ORDER)
            || (gw.cancel(s) == Cancelled && PassRequests(trades, info, gw, c)[s] != [])
  {
  }

  /**
   * The discrepancy: a trade whose position is already closed stays in the
   * as-written result, unchanged, where the intended pass drops it.
   */
  lemma PassAsWrittenKeepsClosedPosition(trades: map<string, TradeRecord>, info: seq<SymbolInfo>, gw: TrailGateway, c: Config, s: string)
    requires c.trailingStop && s in trades && trades[s].status == OPEN && Flat(gw.position(s))
    ensures s in PassResultAsWritten(trades, info, gw, c) && PassResultAsWritten(trades, info, gw, c)[s] == trades[s]
    ensures s !in PassResult(trades, info, gw, c)
  {
  }
}
