/**
 * The trading constants the core reads, passed in as one value instead of
 * being read from a configuration file.
 */
module Settings {

  /** ORDER_TYPES['entry'] after upper-casing. */
  datatype EntryOrderKind = EntryLimit | EntryMarket | EntryUnsupported

  /** ORDER_TYPES['stoploss'] after upper-casing: 'MARKET' or 'LIMIT' (both end up STOP_MARKET) or anything else. */
  datatype StopOrderKind = StopMarket | StopLimit | StopUnsupported

  datatype Config = Config(
    tradableBalanceRatio: real,
    maxOpenTrades: int,
    stopLoss: real,
    entryOrderType: EntryOrderKind,
    stopLossOrderType: StopOrderKind,
    trailingStop: bool,
    trailingActivationPercentage: real,
    trailingDistancePercentage: real)
}
