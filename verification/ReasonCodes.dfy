/** The reason-code dictionary, one constructor for each code. */
module ReasonCodes {
  datatype ReasonCode =
    | CooldownActive
    | EmaMomentumLong
    | EmaMomentumShort
    | NoTradeSetup
    | BelowMinConfidence
    | RegimeVolatilitySpike
    | RegimeThinLiquidity
    | ExecuteOrdersDisabled
    | LiveHttpDisabled
    | StreamReconnecting
    | StreamDegraded
    | OrderFetchFailed
    | OrderCancelFailed
    | OrderRejected
    | OrderSizeTooSmall
    | MaxDrawdownExceeded
    | DailyLossLimitExceeded
    | MaxPositionSizeExceeded
    | MaxTradeLossExceeded
    | MaxLeverageExceeded
    | WalletDriftExceeded
}
