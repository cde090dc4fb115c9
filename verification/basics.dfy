/** Vocabulary shared by the exchange client, the signal handler and the trailing-stop pass. */
module Basics {

  datatype Option<+T> = None | Some(value: T)

  /** The direction of a signal or a position ('long' / 'short'). */
  datatype Direction = Long | Short

  /** The side of an order ('BUY' / 'SELL'). */
  datatype Side = BUY | SELL

  /** The name the source stores in a trade record's 'signal_type'. */
  function DirectionName(d: Direction): string
  {
    if d == Long then "long" else "short"
  }

  /** Change of the signed position amount when an order of this side and quantity fills. */
  function SignedFill(side: Side, quantity: real): real
  {
    if side == BUY then quantity else -quantity
  }

  function Abs(x: real): (r: real)
    ensures r >= 0.0 && (r == x || r == -x)
  {
    if x < 0.0 then -x else x
  }
}
