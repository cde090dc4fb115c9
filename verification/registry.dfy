/**
 * The service's mutable state — the trades the bot manages and the symbols
 * whose leverage and margin type it has already set — with the two
 * operations that change it: handling a webhook signal and running one
 * trailing-stop pass.
 */
module Registry {
  import opened Basics
  import opened Settings
  import opened BinanceClient
  import opened Trades
  import opened TrailingStop

  /** A validated webhook signal: the cleaned ticker, the direction and the close price. */
  datatype Signal = Signal(symbol: string, direction: Direction, price: real)

  /**
   * The exchange's answers to the calls one signal can make, in the order
   * they are made.  A position is its signed amount, 0 when there is none;
   * a fill price that is not positive means the fill could not be read;
   * an order reply is the order id it carries, if any.
   */
  datatype SignalGateway = SignalGateway(
    positionAtSignal: real,
    reversalCloseOrderId: Option<int>,
    reversalFillPrice: real,
    positionBeforeEntry: real,
    unmanagedCloseOrderId: Option<int>,
    leverage: ApiReply,
    marginType: ApiReply,
    balance: real,
    entryOrderId: Option<int>,
    entryFillPrice: real,
    stopLossOrderId: Option<int>,
    stopLossStopPrice: Option<real>,
    positionAfterEntry: real)

  /** Where handling a signal ended. */
  datatype SignalOutcome =
    | IgnoredSameDirection
    | ReversalCloseFailed
    | UnmanagedConflict
    | UnmanagedCloseFailed
    | AtCapacity
    | SettingsFailed
    | NoBalance
    | SizingFailed
    | EntryFailed
    | StopLossFailed
    | Opened

  /** The average fill price when the exchange reports one, else the signal's price. */
  function FillOrSignal(avgPrice: real, signalPrice: real): (r: real)
    ensures r == avgPrice || r == signalPrice
    // A readable fill always wins over the signal's price.
    ensures avgPrice > 0.0 ==> r == avgPrice
    // The price used is positive whenever either price is.
    ensures r > 0.0 <==> avgPrice > 0.0 || signalPrice > 0.0
  {
    if avgPrice > 0.0 then avgPrice else signalPrice
  }

  /** The tracking fields of a record that has just been opened at this entry price. */
  predicate Fresh(rec: TradeRecord, d: Direction, entryPrice: real)
  {
    && rec.status == OPEN
    && !rec.trailingActive
    && rec.signalType == d
    && rec.entryPrice == entryPrice
    && rec.highestSinceActivation == (if d == Long then entryPrice else 0.0)
    && rec.lowestSinceActivation == (if d == Short then Some(entryPrice) else None)
  }

  /**
   * The record stored for a trade just opened: both order ids from the
   * exchange's replies, the computed size, the trigger price the stop-loss
   * reply reported (0.0 when it reported none), and fresh tracking fields
   * at the entry's fill price.
   */
  predicate OpenedRecord(rec: TradeRecord, sig: Signal, c: Config, info: seq<SymbolInfo>, gw: SignalGateway)
    requires c.maxOpenTrades > 0
  {
    var quantity := CalculatePositionSize(info, sig.symbol, gw.balance, sig.price, c);
    && quantity.Some? && gw.entryOrderId.Some? && gw.stopLossOrderId.Some?
    && Fresh(rec, sig.direction, FillOrSignal(gw.entryFillPrice, sig.price))
    && rec.entryOrderId == gw.entryOrderId.value
    && rec.slOrderId == gw.stopLossOrderId.value
    && rec.quantity == quantity.value
    && rec.currentSlPrice == (if gw.stopLossStopPrice.Some? then gw.stopLossStopPrice.value else 0.0)
  }

  /** No leverage or margin-type change among the requests. */
  predicate NoSettingsChange(sent: seq<Request>)
  {
    forall i | 0 <= i < |sent| :: !sent[i].SetLeverage? && !sent[i].SetMarginType?
  }

  lemma NoSettingsChangeConcat(a: seq<Request>, b: seq<Request>)
    requires NoSettingsChange(a) && NoSettingsChange(b)
    ensures NoSettingsChange(a + b)
  {
  }

  /** Every order placed among the requests serves one of these purposes. */
  predicate OnlyPlaces(sent: seq<Request>, purposes: set<Purpose>)
  {
    forall i | 0 <= i < |sent| && sent[i].Place? :: sent[i].purpose in purposes
  }

  lemma OnlyPlacesConcat(a: seq<Request>, b: seq<Request>, purposes: set<Purpose>)
    requires OnlyPlaces(a, purposes) && OnlyPlaces(b, purposes)
    ensures OnlyPlaces(a + b, purposes)
  {
  }

  /**
   * The bot's own trade on the symbol lets the signal go on: there is none,
   * or it runs the other way and its position is gone or was closed.
   */
  predicate OwnTradeSettled(sig: Signal, info: seq<SymbolInfo>, gw: SignalGateway, trades: map<string, TradeRecord>)
  {
    sig.symbol in trades ==>
      && trades[sig.symbol].signalType != sig.direction
      && (|| gw.positionAtSignal == 0.0
          || (ClosePositionOrder(info, sig.symbol, gw.positionAtSignal).Some? && gw.reversalCloseOrderId.Some?))
  }

  /** No position the bot does not manage is left on the symbol. */
  predicate UnmanagedCleared(sig: Signal, info: seq<SymbolInfo>, gw: SignalGateway)
  {
    || gw.positionBeforeEntry == 0.0
    || ((gw.positionBeforeEntry > 0.0 <==> sig.direction == Short)
        && ClosePositionOrder(info, sig.symbol, gw.positionBeforeEntry).Some?
        && gw.unmanagedCloseOrderId.Some?)
  }

  /** The symbol's leverage and margin type are set, now or by an earlier signal. */
  predicate SettingsInPlace(symbol: string, configured: set<string>, gw: SignalGateway)
  {
    symbol in configured || (SetLeverageSucceeded(gw.leverage) && SetMarginTypeSucceeded(gw.marginType))
  }

  /** A balance, a positive size, and an entry and a stop-loss that the exchange accepts. */
  predicate OpenSucceeds(sig: Signal, c: Config, info: seq<SymbolInfo>, gw: SignalGateway)
    requires c.maxOpenTrades > 0
  {
    var quantity := CalculatePositionSize(info, sig.symbol, gw.balance, sig.price, c);
    && gw.balance != 0.0 && quantity.Some? && quantity.value > 0.0
    && EntryOrderParams(info, sig.symbol, sig.direction, sig.price, quantity.value, c.entryOrderType).Some?
    && gw.entryOrderId.Some?
    && StopLossOrderParams(info, sig.symbol, sig.direction, FillOrSignal(gw.entryFillPrice, sig.price),
                           quantity.value, c.stopLoss, c.stopLossOrderType).Some?
    && gw.stopLossOrderId.Some?
  }

  lemma RemoveKeySize(m: map<string, TradeRecord>, k: string)
    ensures |m - {k}| <= |m|
  {
  }

  lemma InsertThenRemove(m: map<string, TradeRecord>, k: string, v: TradeRecord)
    requires k !in m
    ensures m[k := v] - {k} == m
  {
  }

  lemma RemoveAbsent(m: map<string, TradeRecord>, k: string)
    requires k !in m
    ensures m - {k} == m
  {
  }

  lemma InsertNewKey(m: map<string, TradeRecord>, k: string, v: TradeRecord)
    requires k !in m
    ensures |m[k := v]| == |m| + 1
  {
  }

  class TradeRegistry {
    /** active_bot_trades */
    var trades: map<string, TradeRecord>
    /** initialized_symbols_settings */
    var configuredSymbols: set<string>

    /** Every managed trade is open and holds a positive quantity. */
    predicate Valid()
      reads this
    {
      forall s | s in trades :: trades[s].quantity > 0.0 && trades[s].status == OPEN
    }

    constructor ()
      ensures trades == map[] && configuredSymbols == {}
      ensures Valid()
    {
      trades := map[];
      configuredSymbols := {};
    }

    /**
     * handle_trade_signal: settle the bot's own trade on the symbol, then a
     * position the bot does not manage, then check capacity and the symbol's
     * settings, and only then size and open the new trade with its
     * stop-loss.  `sent` lists every order, cancel and settings change in
     * the order they go out; `closedPnl` is the result reported for a trade
     * closed by the reversal.
     */
    method HandleTradeSignal(sig: Signal, c: Config, info: seq<SymbolInfo>, gw: SignalGateway)
      returns (outcome: SignalOutcome, closedPnl: Option<real>, sent: seq<Request>)
      requires c.maxOpenTrades > 0
      modifies this
      // A signal in the direction of the bot's own trade changes nothing and sends nothing.
      ensures outcome == IgnoredSameDirection <==>
        sig.symbol in old(trades) && old(trades)[sig.symbol].signalType == sig.direction
      ensures outcome == IgnoredSameDirection ==>
        trades == old(trades) && configuredSymbols == old(configuredSymbols) && sent == []
      // A reversal whose close failed keeps the old trade and opens nothing.
      ensures outcome == ReversalCloseFailed ==>
        trades == old(trades) && configuredSymbols == old(configuredSymbols) && |sent| <= 1
        && OnlyPlaces(sent, {ReversalClose})
      // A trade is opened exactly when every gate on the way passes.
      ensures outcome == Opened <==>
        && OwnTradeSettled(sig, info, gw, old(trades)) && UnmanagedCleared(sig, info, gw)
        && |old(trades) - {sig.symbol}| < c.maxOpenTrades
        && SettingsInPlace(sig.symbol, old(configuredSymbols), gw) && OpenSucceeds(sig, c, info, gw)
      // An entry order goes out only on the paths that reach the entry.
      ensures outcome !in {EntryFailed, StopLossFailed, Opened} ==> OnlyPlaces(sent, {ReversalClose, UnmanagedClose})
      ensures outcome == UnmanagedConflict ==> OnlyPlaces(sent, {ReversalClose})
      // The aborts before the settings step neither call nor remember settings.
      ensures outcome in {UnmanagedConflict, UnmanagedCloseFailed, AtCapacity} ==>
        configuredSymbols == old(configuredSymbols) && NoSettingsChange(sent)
      // Other symbols' trades are never touched.
      ensures trades - {sig.symbol} == old(trades) - {sig.symbol}
      // Past the reversal, the symbol has a record only if a new trade was opened.
      ensures outcome !in {IgnoredSameDirection, ReversalCloseFailed, Opened} ==> sig.symbol !in trades
      ensures outcome == Opened ==>
        && sig.symbol in trades
        && Fresh(trades[sig.symbol], sig.direction, FillOrSignal(gw.entryFillPrice, sig.price))
        && trades[sig.symbol].quantity > 0.0
        && gw.entryOrderId.Some? && gw.stopLossOrderId.Some?
        && trades[sig.symbol].slOrderId == gw.stopLossOrderId.value
        && OpenedRecord(trades[sig.symbol], sig, c, info, gw)
      // The bot does not open a second position next to one it does not manage.
      ensures outcome == UnmanagedConflict ==>
        gw.positionBeforeEntry != 0.0 && (gw.positionBeforeEntry > 0.0 <==> sig.direction == Long)
      // An entry is attempted only with a free slot and the symbol's settings in place.
      ensures outcome in {NoBalance, SizingFailed, EntryFailed, StopLossFailed, Opened} ==>
        |old(trades) - {sig.symbol}| < c.maxOpenTrades && sig.symbol in configuredSymbols
      ensures outcome == AtCapacity ==> |old(trades) - {sig.symbol}| >= c.maxOpenTrades
      ensures |old(trades)| <= c.maxOpenTrades ==> |trades| <= c.maxOpenTrades
      // Settings are made once per symbol, and remembered only when both succeeded.
      ensures configuredSymbols == old(configuredSymbols) || configuredSymbols == old(configuredSymbols) + {sig.symbol}
      ensures configuredSymbols != old(configuredSymbols) ==>
        SetLeverageSucceeded(gw.leverage) && SetMarginTypeSucceeded(gw.marginType)
      ensures sig.symbol in old(configuredSymbols) ==> NoSettingsChange(sent)
      // The reported result of a reversal is the closed trade's profit at the fill price.
      ensures closedPnl.Some? ==>
        && sig.symbol in old(trades)
        && var rec := old(trades)[sig.symbol];
        && rec.signalType != sig.direction
        && closedPnl.value == CalculatePnl(rec.entryPrice, FillOrSignal(gw.reversalFillPrice, sig.price),
                                           rec.quantity, DirectionName(rec.signalType))
      ensures old(Valid()) ==> Valid()
    {
      var stop, more;
      stop, outcome, closedPnl, sent := SettleOwnTrade(sig, info, gw);
      if stop {
        return;
      }
      ghost var settled := sent;
      ghost var remaining := trades;
      assert remaining == old(trades) - {sig.symbol};
      RemoveKeySize(old(trades), sig.symbol);
      outcome, more := EnterTrade(sig, c, info, gw);
      sent := sent + more;
      if sig.symbol in old(configuredSymbols) {
        NoSettingsChangeConcat(settled, more);
      }
      if outcome !in {EntryFailed, StopLossFailed, Opened} {
        OnlyPlacesConcat(settled, more, {ReversalClose, UnmanagedClose});
      }
      if outcome == UnmanagedConflict {
        OnlyPlacesConcat(settled, more, {ReversalClose});
      }
      if outcome in {UnmanagedConflict, UnmanagedCloseFailed, AtCapacity} {
        NoSettingsChangeConcat(settled, more);
      }
      if outcome == Opened {
        InsertThenRemove(remaining, sig.symbol, trades[sig.symbol]);
      } else {
        RemoveAbsent(remaining, sig.symbol);
      }
    }

    /**
     * The part of handle_trade_signal after the bot's own trade on the
     * symbol is settled: a position the bot does not manage, the capacity
     * check, the symbol's settings, then the entry with its stop-loss.
     */
    method EnterTrade(sig: Signal, c: Config, info: seq<SymbolInfo>, gw: SignalGateway)
      returns (outcome: SignalOutcome, sent: seq<Request>)
      requires c.maxOpenTrades > 0
      requires sig.symbol !in trades
      modifies this
      ensures outcome !in {IgnoredSameDirection, ReversalCloseFailed}
      ensures outcome == Opened <==>
        && UnmanagedCleared(sig, info, gw) && |old(trades)| < c.maxOpenTrades
        && SettingsInPlace(sig.symbol, old(configuredSymbols), gw) && OpenSucceeds(sig, c, info, gw)
      // Before the entry order, the only order placed is the close of an unmanaged position.
      ensures outcome !in {EntryFailed, StopLossFailed, Opened} ==> OnlyPlaces(sent, {UnmanagedClose})
      ensures outcome == UnmanagedConflict ==> sent == []
      // The aborts before the settings step neither call nor remember settings.
      ensures outcome in {UnmanagedConflict, UnmanagedCloseFailed, AtCapacity} ==>
        configuredSymbols == old(configuredSymbols) && NoSettingsChange(sent)
      ensures outcome != Opened ==> trades == old(trades)
      ensures outcome == Opened ==>
        && sig.symbol in trades
        && trades == old(trades)[sig.symbol := trades[sig.symbol]]
        && Fresh(trades[sig.symbol], sig.direction, FillOrSignal(gw.entryFillPrice, sig.price))
        && trades[sig.symbol].quantity > 0.0
        && gw.entryOrderId.Some? && gw.stopLossOrderId.Some?
        && trades[sig.symbol].slOrderId == gw.stopLossOrderId.value
        && OpenedRecord(trades[sig.symbol], sig, c, info, gw)
      ensures outcome == UnmanagedConflict ==>
        gw.positionBeforeEntry != 0.0 && (gw.positionBeforeEntry > 0.0 <==> sig.direction == Long)
      ensures outcome in {NoBalance, SizingFailed, EntryFailed, StopLossFailed, Opened} ==>
        |old(trades)| < c.maxOpenTrades && sig.symbol in configuredSymbols
      ensures outcome == AtCapacity ==> |old(trades)| >= c.maxOpenTrades
      ensures |old(trades)| < c.maxOpenTrades ==> |trades| <= c.maxOpenTrades
      ensures |old(trades)| >= c.maxOpenTrades ==> trades == old(trades)
      ensures configuredSymbols == old(configuredSymbols) || configuredSymbols == old(configuredSymbols) + {sig.symbol}
      ensures configuredSymbols != old(configuredSymbols) ==>
        SetLeverageSucceeded(gw.leverage) && SetMarginTypeSucceeded(gw.marginType)
      ensures sig.symbol in old(configuredSymbols) ==> NoSettingsChange(sent)
      ensures old(Valid()) ==> Valid()
    {
      var proceed;
      proceed, outcome, sent := ResolveUnmanaged(sig, info, gw);
      if !proceed {
        return;
      }
      if |trades| >= c.maxOpenTrades {
        outcome := AtCapacity;
        return;
      }
      var more;
      ghost var closing := sent;
      outcome, more := ConfigureAndOpen(sig, c, info, gw);
      sent := sent + more;
      if sig.symbol in old(configuredSymbols) {
        NoSettingsChangeConcat(closing, more);
      }
      if outcome !in {EntryFailed, StopLossFailed, Opened} {
        OnlyPlacesConcat(closing, more, {UnmanagedClose});
      }
      if outcome == Opened {
        InsertNewKey(old(trades), sig.symbol, trades[sig.symbol]);
      }
    }

    /**
     * A position on the symbol that the bot does not manage: one in the
     * signal's direction blocks the entry, one against it is closed first.
     */
    method ResolveUnmanaged(sig: Signal, info: seq<SymbolInfo>, gw: SignalGateway)
      returns (proceed: bool, outcome: SignalOutcome, sent: seq<Request>)
      ensures proceed <==>
        || gw.positionBeforeEntry == 0.0
        || ((gw.positionBeforeEntry > 0.0 <==> sig.direction == Short)
            && ClosePositionOrder(info, sig.symbol, gw.positionBeforeEntry).Some?
            && gw.unmanagedCloseOrderId.Some?)
      ensures proceed <==> UnmanagedCleared(sig, info, gw)
      ensures OnlyPlaces(sent, {UnmanagedClose}) && NoSettingsChange(sent)
      ensures !proceed && outcome == UnmanagedConflict ==> sent == []
      ensures !proceed ==> outcome in {UnmanagedConflict, UnmanagedCloseFailed}
      ensures !proceed ==>
        (outcome == UnmanagedConflict <==> (gw.positionBeforeEntry > 0.0 <==> sig.direction == Long))
      // The only request is the market close of the opposite position, when it can be built.
      ensures sent == [] || (ClosePositionOrder(info, sig.symbol, gw.positionBeforeEntry).Some? &&
        sent == [Place(UnmanagedClose, ClosePositionOrder(info, sig.symbol, gw.positionBeforeEntry).value)])
      ensures sent != [] <==>
        && gw.positionBeforeEntry != 0.0
        && (gw.positionBeforeEntry > 0.0 <==> sig.direction == Short)
        && ClosePositionOrder(info, sig.symbol, gw.positionBeforeEntry).Some?
    {
      proceed, outcome, sent := true, UnmanagedConflict, [];
      if gw.positionBeforeEntry != 0.0 {
        var unmanaged := if gw.positionBeforeEntry > 0.0 then Long else Short;
        if unmanaged == sig.direction {
          proceed := false;
          return;
        }
        var close := ClosePositionOrder(info, sig.symbol, gw.positionBeforeEntry);
        if close.Some? {
          sent := [Place(UnmanagedClose, close.value)];
        }
        if close.None? || gw.unmanagedCloseOrderId.None? {
          proceed, outcome := false, UnmanagedCloseFailed;
        }
      }
    }

    /** The symbol's settings, then the entry with its stop-loss. */
    method ConfigureAndOpen(sig: Signal, c: Config, info: seq<SymbolInfo>, gw: SignalGateway)
      returns (outcome: SignalOutcome, sent: seq<Request>)
      requires c.maxOpenTrades > 0
      requires sig.symbol !in trades
      modifies this
      ensures outcome in {SettingsFailed, NoBalance, SizingFailed, EntryFailed, StopLossFailed, Opened}
      ensures outcome == SettingsFailed <==> !SettingsInPlace(sig.symbol, old(configuredSymbols), gw)
      ensures outcome == Opened <==>
        SettingsInPlace(sig.symbol, old(configuredSymbols), gw) && OpenSucceeds(sig, c, info, gw)
      // Only settings calls go out before the entry order.
      ensures outcome in {SettingsFailed, NoBalance, SizingFailed} ==> OnlyPlaces(sent, {})
      ensures outcome != Opened ==> trades == old(trades)
      ensures outcome == Opened ==>
        && sig.symbol in trades
        && trades == old(trades)[sig.symbol := trades[sig.symbol]]
        && Fresh(trades[sig.symbol], sig.direction, FillOrSignal(gw.entryFillPrice, sig.price))
        && trades[sig.symbol].quantity > 0.0
        && gw.entryOrderId.Some? && gw.stopLossOrderId.Some?
        && trades[sig.symbol].slOrderId == gw.stopLossOrderId.value
        && OpenedRecord(trades[sig.symbol], sig, c, info, gw)
      ensures outcome != SettingsFailed ==> sig.symbol in configuredSymbols
      ensures configuredSymbols == old(configuredSymbols) || configuredSymbols == old(configuredSymbols) + {sig.symbol}
      ensures configuredSymbols != old(configuredSymbols) ==>
        SetLeverageSucceeded(gw.leverage) && SetMarginTypeSucceeded(gw.marginType)
      ensures sig.symbol in old(configuredSymbols) ==> NoSettingsChange(sent)
      ensures old(Valid()) ==> Valid()
    {
      var ok, more;
      ok, sent := ConfigureSymbol(sig.symbol, gw);
      if !ok {
        outcome := SettingsFailed;
        return;
      }
      ghost var beforeEntry := sent;
      outcome, more := OpenTrade(sig, c, info, gw);
      sent := sent + more;
      if sig.symbol in old(configuredSymbols) {
        NoSettingsChangeConcat(beforeEntry, more);
      }
      if more == [] {
        assert sent == beforeEntry;
      }
    }

    /**
     * manage_trailing_stops: one pass over a snapshot of the managed
     * symbols.  Each record is advanced by its own step, and removed when
     * the step gives it up.
     */
    method ManageTrailingStops(info: seq<SymbolInfo>, gw: TrailGateway, c: Config)
      returns (sent: map<string, seq<Request>>)
      modifies this
      ensures configuredSymbols == old(configuredSymbols)
      ensures trades == PassResult(old(trades), info, gw, c)
      ensures sent == PassRequests(old(trades), info, gw, c)
      ensures old(Valid()) ==> Valid()
      ensures old(Valid()) ==>
        forall s | s in sent && |sent[s]| == 2 :: sent[s][1].order.quantity > 0.0
    {
      sent := map[];
      if !c.trailingStop {
        return;
      }
      trades, sent := TrailingPass(trades, info, gw, c);
    }

    /**
     * The first phase of handle_trade_signal as the rest of the handler sees
     * it: whether the signal goes on, what is left of the registry, and the
     * reversal's reported result.
     */
    method SettleOwnTrade(sig: Signal, info: seq<SymbolInfo>, gw: SignalGateway)
      returns (stop: bool, outcome: SignalOutcome, closedPnl: Option<real>, sent: seq<Request>)
      modifies this
      ensures configuredSymbols == old(configuredSymbols)
      ensures NoSettingsChange(sent) && OnlyPlaces(sent, {ReversalClose})
      ensures !stop <==> OwnTradeSettled(sig, info, gw, old(trades))
      ensures stop ==> trades == old(trades) && outcome in {IgnoredSameDirection, ReversalCloseFailed}
      ensures !stop ==> trades == old(trades) - {sig.symbol}
      ensures stop ==>
        (outcome == IgnoredSameDirection <==>
           sig.symbol in old(trades) && old(trades)[sig.symbol].signalType == sig.direction)
      ensures stop && outcome == IgnoredSameDirection ==> sent == []
      ensures stop && outcome == ReversalCloseFailed ==> |sent| <= 1
      ensures closedPnl.Some? ==>
        && sig.symbol in old(trades)
        && var rec := old(trades)[sig.symbol];
        && rec.signalType != sig.direction
        && closedPnl.value == CalculatePnl(rec.entryPrice, FillOrSignal(gw.reversalFillPrice, sig.price),
                                           rec.quantity, DirectionName(rec.signalType))
    {
      stop, outcome, closedPnl, sent := ResolveOwnTrade(sig, info, gw);
    }

    /**
     * The bot's own trade on this symbol, if any (main.py lines 119-202): a signal
     * in the same direction is ignored; an opposite one closes the live
     * position first, and a failed close stops everything.  A record whose
     * position is already gone is simply forgotten, after a best-effort
     * cancel of its stop.
     */
    method ResolveOwnTrade(sig: Signal, info: seq<SymbolInfo>, gw: SignalGateway)
      returns (stop: bool, outcome: SignalOutcome, closedPnl: Option<real>, sent: seq<Request>)
      modifies this
      ensures configuredSymbols == old(configuredSymbols)
      ensures NoSettingsChange(sent)
      ensures OnlyPlaces(sent, {ReversalClose})
      ensures !stop <==> OwnTradeSettled(sig, info, gw, old(trades))
      ensures stop ==> outcome in {IgnoredSameDirection, ReversalCloseFailed}
      ensures sig.symbol !in old(trades) ==> !stop && trades == old(trades) && sent == [] && closedPnl.None?
      ensures sig.symbol in old(trades) ==>
        var rec := old(trades)[sig.symbol];
        var cancel := if rec.slOrderId != 0 then [Cancel(sig.symbol, rec.slOrderId)] else [];
        var close := ClosePositionOrder(info, sig.symbol, gw.positionAtSignal);
        if rec.signalType == sig.direction then
          stop && outcome == IgnoredSameDirection && trades == old(trades) && sent == [] && closedPnl.None?
        else if gw.positionAtSignal == 0.0 then
          !stop && trades == old(trades) - {sig.symbol} && sent == cancel && closedPnl.None?
        else if close.Some? && gw.reversalCloseOrderId.Some? then
          && !stop && trades == old(trades) - {sig.symbol}
          && sent == [Place(ReversalClose, close.value)] + cancel
          && closedPnl == Some(CalculatePnl(rec.entryPrice, FillOrSignal(gw.reversalFillPrice, sig.price),
                                            rec.quantity, DirectionName(rec.signalType)))
        else
          && stop && outcome == ReversalCloseFailed && trades == old(trades) && closedPnl.None?
          && sent == (if close.Some? then [Place(ReversalClose, close.value)] else [])
    {
      stop, outcome, closedPnl, sent := false, Opened, None, [];
      if sig.symbol !in trades {
        return;
      }
      var rec := trades[sig.symbol];
      if rec.signalType == sig.direction {
        stop, outcome := true, IgnoredSameDirection;
        return;
      }
      if gw.positionAtSignal == 0.0 {
        if rec.slOrderId != 0 {
          sent := [Cancel(sig.symbol, rec.slOrderId)];
        }
        trades := trades - {sig.symbol};
        return;
      }
      var close := ClosePositionOrder(info, sig.symbol, gw.positionAtSignal);
      if close.None? {
        stop, outcome := true, ReversalCloseFailed;
        return;
      }
      sent := [Place(ReversalClose, close.value)];
      if gw.reversalCloseOrderId.None? {
        stop, outcome := true, ReversalCloseFailed;
        return;
      }
      var exitPrice := FillOrSignal(gw.reversalFillPrice, sig.price);
      closedPnl := Some(CalculatePnl(rec.entryPrice, exitPrice, rec.quantity, DirectionName(rec.signalType)));
      if rec.slOrderId != 0 {
        sent := sent + [Cancel(sig.symbol, rec.slOrderId)];
      }
      trades := trades - {sig.symbol};
    }

    /**
     * Leverage and margin type, once per symbol (main.py lines 259-272): the symbol
     * is remembered only when both calls succeed, and a remembered symbol
     * causes no calls at all.
     */
    method ConfigureSymbol(symbol: string, gw: SignalGateway) returns (ok: bool, sent: seq<Request>)
      modifies this
      ensures trades == old(trades)
      ensures ok <==> SettingsInPlace(symbol, old(configuredSymbols), gw)
      ensures OnlyPlaces(sent, {})
      ensures symbol in old(configuredSymbols) ==> ok && sent == [] && configuredSymbols == old(configuredSymbols)
      ensures symbol !in old(configuredSymbols) ==>
        && (ok <==> SetLeverageSucceeded(gw.leverage) && SetMarginTypeSucceeded(gw.marginType))
        && sent == [SetLeverage(symbol)] + (if SetLeverageSucceeded(gw.leverage) then [SetMarginType(symbol)] else [])
        && configuredSymbols == old(configuredSymbols) + (if ok then {symbol} else {})
    {
      if symbol in configuredSymbols {
        return true, [];
      }
      sent := [SetLeverage(symbol)];
      if !SetLeverageSucceeded(gw.leverage) {
        return false, sent;
      }
      sent := sent + [SetMarginType(symbol)];
      if !SetMarginTypeSucceeded(gw.marginType) {
        return false, sent;
      }
      configuredSymbols := configuredSymbols + {symbol};
      ok := true;
    }

    /**
     * Sizing and entry (main.py lines 275-305): a zero balance, a size that is
     * missing or not positive, or an entry order that is refused or not
     * accepted ends the signal; otherwise the stop-loss phase takes over.
     */
    method OpenTrade(sig: Signal, c: Config, info: seq<SymbolInfo>, gw: SignalGateway)
      returns (outcome: SignalOutcome, sent: seq<Request>)
      requires c.maxOpenTrades > 0
      requires sig.symbol !in trades
      modifies this
      ensures configuredSymbols == old(configuredSymbols)
      ensures outcome in {NoBalance, SizingFailed, EntryFailed, StopLossFailed, Opened}
      ensures outcome != Opened ==> trades == old(trades)
      ensures outcome == NoBalance <==> gw.balance == 0.0
      ensures outcome == SizingFailed <==>
        var quantity := CalculatePositionSize(info, sig.symbol, gw.balance, sig.price, c);
        gw.balance != 0.0 && (quantity.None? || quantity.value <= 0.0)
      ensures outcome == EntryFailed <==>
        var quantity := CalculatePositionSize(info, sig.symbol, gw.balance, sig.price, c);
        && gw.balance != 0.0 && quantity.Some? && quantity.value > 0.0
        && (EntryOrderParams(info, sig.symbol, sig.direction, sig.price, quantity.value, c.entryOrderType).None?
            || gw.entryOrderId.None?)
      ensures outcome == Opened <==> OpenSucceeds(sig, c, info, gw)
      ensures outcome == Opened ==> sig.symbol in trades && OpenedRecord(trades[sig.symbol], sig, c, info, gw)
      ensures outcome == NoBalance || outcome == SizingFailed ==> sent == []
      ensures NoSettingsChange(sent)
      ensures sent != [] ==>
        var quantity := CalculatePositionSize(info, sig.symbol, gw.balance, sig.price, c);
        && gw.balance != 0.0 && quantity.Some? && quantity.value > 0.0
        && sent[0].Place? && sent[0].purpose == Entry
        && sent[0].order.side == EntrySide(sig.direction) && sent[0].order.quantity == quantity.value
      ensures outcome == Opened || outcome == StopLossFailed ==>
        && gw.entryOrderId.Some? && sent != []
        && CalculatePositionSize(info, sig.symbol, gw.balance, sig.price, c).Some?
        && ProtectionOutcome(outcome, sig, c, info, gw, old(trades), trades,
             CalculatePositionSize(info, sig.symbol, gw.balance, sig.price, c).value, sent[1..])
    {
      sent := [];
      if gw.balance == 0.0 {
        return NoBalance, sent;
      }
      var quantity := CalculatePositionSize(info, sig.symbol, gw.balance, sig.price, c);
      if quantity.None? || quantity.value <= 0.0 {
        return SizingFailed, sent;
      }
      var entry := EntryOrderParams(info, sig.symbol, sig.direction, sig.price, quantity.value, c.entryOrderType);
      if entry.None? {
        return EntryFailed, sent;
      }
      sent := [Place(Entry, entry.value)];
      if gw.entryOrderId.None? {
        return EntryFailed, sent;
      }
      var more;
      outcome, more := ProtectEntry(sig, c, info, gw, quantity.value);
      NoSettingsChangeConcat(sent, more);
      sent := sent + more;
      assert sent[1..] == more;
    }

    /**
     * The stop-loss phase (main.py lines 308-376).  The trade is recorded, with the
     * stop-loss reply's trigger price, only when the stop-loss order was
     * accepted; otherwise a position that did open is closed again.
     */
    method ProtectEntry(sig: Signal, c: Config, info: seq<SymbolInfo>, gw: SignalGateway, quantity: real)
      returns (outcome: SignalOutcome, sent: seq<Request>)
      requires sig.symbol !in trades && gw.entryOrderId.Some?
      modifies this
      ensures configuredSymbols == old(configuredSymbols)
      ensures outcome == Opened || outcome == StopLossFailed
      ensures NoSettingsChange(sent)
      ensures ProtectionOutcome(outcome, sig, c, info, gw, old(trades), trades, quantity, sent)
    {
      var entryPrice := FillOrSignal(gw.entryFillPrice, sig.price);
      var stopLoss := StopLossOrderParams(info, sig.symbol, sig.direction, entryPrice, quantity, c.stopLoss, c.stopLossOrderType);
      sent := [];
      if stopLoss.Some? {
        sent := [Place(StopLoss, stopLoss.value)];
      }
      if stopLoss.None? || gw.stopLossOrderId.None? {
        var cleanup := ClosePositionOrder(info, sig.symbol, gw.positionAfterEntry);
        if gw.positionAfterEntry != 0.0 && cleanup.Some? {
          sent := sent + [Place(CleanupClose, cleanup.value)];
        }
        return StopLossFailed, sent;
      }
      var initialStop := if gw.stopLossStopPrice.Some? then gw.stopLossStopPrice.value else 0.0;
      trades := trades[sig.symbol := TradeRecord(
        gw.entryOrderId.value, gw.stopLossOrderId.value, initialStop,
        entryPrice, quantity, sig.direction, OPEN, false,
        if sig.direction == Long then entryPrice else 0.0,
        if sig.direction == Short then Some(entryPrice) else None)];
      outcome := Opened;
    }
  }

  /**
   * What the stop-loss phase leaves behind.  Opened: the stop-loss order
   * was sent on the closing side for the whole quantity and accepted, and
   * the new record carries the entry's fill price, both order ids and the
   * trigger price the exchange reported.  StopLossFailed: nothing is
   * recorded, and a closing order is sent exactly when a position is
   * found open after the entry and the symbol is known.
   */
  ghost predicate ProtectionOutcome(
    outcome: SignalOutcome, sig: Signal, c: Config, info: seq<SymbolInfo>, gw: SignalGateway,
    before: map<string, TradeRecord>, after: map<string, TradeRecord>, quantity: real, sent: seq<Request>)
  {
    var entryPrice := FillOrSignal(gw.entryFillPrice, sig.price);
    var stopLoss := StopLossOrderParams(info, sig.symbol, sig.direction, entryPrice, quantity, c.stopLoss, c.stopLossOrderType);
    var cleanup := ClosePositionOrder(info, sig.symbol, gw.positionAfterEntry);
    var cleanupSent := if gw.positionAfterEntry != 0.0 && cleanup.Some? then [Place(CleanupClose, cleanup.value)] else [];
    match outcome
    case Opened =>
      && stopLoss.Some? && gw.stopLossOrderId.Some? && gw.entryOrderId.Some?
      && sent == [Place(StopLoss, stopLoss.value)]
      && stopLoss.value.side == StopLossSide(sig.direction) && stopLoss.value.quantity == quantity
      && sig.symbol in after && after == before[sig.symbol := after[sig.symbol]]
      && Fresh(after[sig.symbol], sig.direction, entryPrice)
      && after[sig.symbol].quantity == quantity
      && after[sig.symbol].entryOrderId == gw.entryOrderId.value
      && after[sig.symbol].slOrderId == gw.stopLossOrderId.value
      && after[sig.symbol].currentSlPrice == (if gw.stopLossStopPrice.Some? then gw.stopLossStopPrice.value else 0.0)
    case StopLossFailed =>
      && (stopLoss.None? || gw.stopLossOrderId.None?)
      && after == before
      && sent == (if stopLoss.Some? then [Place(StopLoss, stopLoss.value)] else []) + cleanupSent
    case _ => false
  }

  /** The loop of manage_trailing_stops over a snapshot of the managed symbols. */
  method TrailingPass(start: map<string, TradeRecord>, info: seq<SymbolInfo>, gw: TrailGateway, c: Config)
    returns (result: map<string, TradeRecord>, sent: map<string, seq<Request>>)
    requires c.trailingStop
    ensures result == PassResult(start, info, gw, c)
    ensures sent == PassRequests(start, info, gw, c)
  {
    sent := map[];
    result := start;
    var pending := start.Keys;
    while pending != {}
      invariant pending <= start.Keys && result.Keys <= start.Keys
      invariant forall s | s in pending :: s in result && result[s] == start[s]
      invariant forall s | s in start && s !in pending ::
        (s in result <==> !TrailStep(s, start[s], info, gw, c).dropped)
      invariant forall s | s in result && s !in pending :: result[s] == TrailStep(s, start[s], info, gw, c).next
      invariant sent.Keys == start.Keys - pending
      invariant forall s | s in sent :: sent[s] == TrailStep(s, start[s], info, gw, c).requests
      decreases pending
    {
      var s :| s in pending;
      var step := TrailStep(s, result[s], info, gw, c);
      if step.dropped {
        result := result - {s};
      } else {
        result := result[s := step.next];
      }
      sent := sent[s := step.requests];
      pending := pending - {s};
    }
    PassResultByKeys(start, result, info, gw, c);
    PassRequestsByKeys(start, sent, info, gw, c);
  }
}
