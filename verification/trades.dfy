/**
 * What the bot remembers about a trade it opened, the requests it sends to
 * the exchange, and the profit-and-loss figure it reports when a trade is
 * closed by a reversal signal.
 */
module Trades {
  import opened Basics
  import opened BinanceClient

  /**
   * One value of active_bot_trades.  The lowest price since activation is
   * None where the source stores float('inf'); the opening timestamp is not
   * part of the model.
   */
  datatype TradeRecord = TradeRecord(
    entryOrderId: int,
    slOrderId: int,
    currentSlPrice: real,
    entryPrice: real,
    quantity: real,
    signalType: Direction,
    status: string,
    trailingActive: bool,
    highestSinceActivation: real,
    lowestSinceActivation: Option<real>)

  const OPEN: string := "open"

  /** Why an order was placed. */
  datatype Purpose =
    | ReversalClose     // closing the bot's own trade on an opposite signal
    | UnmanagedClose    // closing a position the bot did not open
    | Entry
    | StopLoss
    | CleanupClose      // closing a fresh position whose stop-loss could not be placed
    | TrailingStopLoss  // the replacement stop of the trailing-stop pass

  /** A request that changes something on the exchange; reads are not recorded. */
  datatype Request =
    | Place(purpose: Purpose, order: OrderParams)
    | Cancel(symbol: string, orderId: int)
    | SetLeverage(symbol: string)
    | SetMarginType(symbol: string)

  /** ASCII lower-casing of one character. */
  function LowerChar(c: char): (r: char)
    ensures 'A' <= c <= 'Z' ==> 'a' <= r <= 'z' && r as int - c as int == 32
    ensures !('A' <= c <= 'Z') ==> r == c
  {
    if 'A' <= c <= 'Z' then (c as int + 32) as char else c
  }

  /** str.lower() on ASCII text. */
  function Lower(s: string): (r: string)
    ensures |r| == |s| && forall i | 0 <= i < |s| :: r[i] == LowerChar(s[i])
  {
    if |s| == 0 then "" else [LowerChar(s[0])] + Lower(s[1..])
  }

  /**
   * calculate_pnl: the gain of a long or short trade over the absolute
   * quantity; zero for a trade type that is neither.
   */
  function CalculatePnl(entryPrice: real, exitPrice: real, quantity: real, tradeType: string): (r: real)
    ensures Lower(tradeType) != "long" && Lower(tradeType) != "short" ==> r == 0.0
    ensures quantity == 0.0 ==> r == 0.0
    ensures Lower(tradeType) == "long" && quantity != 0.0 ==>
      (r > 0.0 <==> exitPrice > entryPrice) && (r < 0.0 <==> exitPrice < entryPrice)
    ensures Lower(tradeType) == "short" && quantity != 0.0 ==>
      (r > 0.0 <==> exitPrice < entryPrice) && (r < 0.0 <==> exitPrice > entryPrice)
  {
    var q := Abs(quantity);
    if Lower(tradeType) == "long" then
      SignOfProduct(exitPrice - entryPrice, q);
      (exitPrice - entryPrice) * q
    else if Lower(tradeType) == "short" then
      SignOfProduct(entryPrice - exitPrice, q);
      (entryPrice - exitPrice) * q
    else 0.0
  }

  lemma SignOfProduct(d: real, q: real)
    requires q >= 0.0
    ensures q == 0.0 ==> d * q == 0.0
    ensures q > 0.0 ==> (d * q > 0.0 <==> d > 0.0) && (d * q < 0.0 <==> d < 0.0)
  {
  }

  /** A short's result is exactly the opposite of a long's over the same prices. */
  lemma PnlLongShortOpposite(entryPrice: real, exitPrice: real, quantity: real)
    ensures CalculatePnl(entryPrice, exitPrice, quantity, "long") == -CalculatePnl(entryPrice, exitPrice, quantity, "short")
  {
  }

  /** The sign of the stored quantity does not matter: the absolute amount is used. */
  lemma PnlIgnoresQuantitySign(entryPrice: real, exitPrice: real, quantity: real, tradeType: string)
    ensures CalculatePnl(entryPrice, exitPrice, quantity, tradeType) == CalculatePnl(entryPrice, exitPrice, -quantity, tradeType)
  {
  }

  /** The type is matched without regard to case. */
  lemma PnlCaseInsensitive(entryPrice: real, exitPrice: real, quantity: real, a: string, b: string)
    requires Lower(a) == Lower(b)
    ensures CalculatePnl(entryPrice, exitPrice, quantity, a) == CalculatePnl(entryPrice, exitPrice, quantity, b)
  {
  }

  lemma PnlExample()
    ensures CalculatePnl(100.0, 110.0, 2.0, "long") == 20.0
    ensures CalculatePnl(100.0, 110.0, -2.0, "short") == -20.0
  {
  }
}
