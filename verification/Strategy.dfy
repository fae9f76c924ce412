/** `decide_action` and `_build_risk`, over exact reals. */
module Strategy {
  import opened Wrappers
  import opened Reals
  import opened ReasonCodes

  datatype Action = Buy | Sell | Hold

  // What an indicator row holds: a number, NaN before its window is full, or `pandas.NA`, which
  // `_rsi` puts where the average loss is zero.
  datatype Reading = Number(value: real) | NaN | NA

  datatype Indicators = Indicators(close: real, emaFast: real, emaSlow: real, rsi: Reading, atr: real,
                                   volume: real, volumeMa: real)

  datatype Hooks = Hooks(minConfidence: real, cooldownBars: int, maxHoldingBars: int, maxAtrToPrice: real, minVolumeRatio: real)

  datatype Risk = Risk(sl: real, tp: real, maxHoldingBars: int)

  datatype Decision = Decision(action: Action, confidence: real, reasons: seq<ReasonCode>, risk: Risk)

  function BuildRisk(action: Action, ind: Indicators, maxHoldingBars: int): Risk {
    var atr := Max(ind.atr, 0.0);
    match action
    case Buy => Risk(ind.close - atr, ind.close + atr * 2.0, maxHoldingBars)
    case Sell => Risk(ind.close + atr, ind.close - atr * 2.0, maxHoldingBars)
    case Hold => Risk(ind.close - atr, ind.close + atr, maxHoldingBars)
  }

  function Volatility(ind: Indicators): (v: real)
    ensures v > 0.0
  {
    Max(Abs(ind.atr), 1e-9)
  }

  function NormalizedGap(ind: Indicators): real {
    (ind.emaFast - ind.emaSlow) / Volatility(ind)
  }

  predicate Below(x: Reading, limit: real) {
    x.Number? && x.value < limit
  }

  predicate Above(x: Reading, limit: real) {
    x.Number? && x.value > limit
  }

  // What testing a comparison with NA raises: the truth value of NA is ambiguous.
  datatype TypeError = AmbiguousTruth

  // `guard and comparison` as an `if` condition, where the comparison with x gives `value`: the
  // comparison is looked at only if the guard is true, and is NA if x is.
  function And(guard: bool, x: Reading, value: bool): Result<bool, TypeError> {
    if !guard then Ok(false) else if x.NA? then Err(AmbiguousTruth) else Ok(value)
  }

  // Action, confidence and reason before the filters.
  function Setup(ind: Indicators): Result<(Action, real, ReasonCode), TypeError> {
    var gap := NormalizedGap(ind);
    match And(gap > 0.2, ind.rsi, Below(ind.rsi, 70.0))
    case Err(e) => Err(e)
    case Ok(buys) =>
      if buys then Ok((Buy, Min(1.0, Abs(gap)), EmaMomentumLong)) else
      match And(gap < -0.2, ind.rsi, Above(ind.rsi, 30.0))
      case Err(e) => Err(e)
      case Ok(sells) =>
        if sells then Ok((Sell, Min(1.0, Abs(gap)), EmaMomentumShort)) else Ok((Hold, 0.0, NoTradeSetup))
  }

  // The volatility filter, for a position opened at `price`.
  predicate TooVolatile(ind: Indicators, price: real, hooks: Hooks) {
    Abs(ind.atr) / Max(Abs(price), 1e-9) > hooks.maxAtrToPrice
  }

  predicate TooThin(ind: Indicators, hooks: Hooks) {
    ind.volume / Max(ind.volumeMa, 1e-9) < hooks.minVolumeRatio
  }

  // The filters a setup has to pass.
  function Filter(ind: Indicators, hooks: Hooks, action: Action, confidence: real, reason: ReasonCode): Decision {
    var holdRisk := BuildRisk(Hold, ind, hooks.maxHoldingBars);
    if action != Hold && confidence < hooks.minConfidence then
      Decision(Hold, confidence, [reason, BelowMinConfidence], holdRisk)
    else if action != Hold && TooVolatile(ind, ind.close, hooks) then
      Decision(Hold, confidence, [reason, RegimeVolatilitySpike], holdRisk)
    else if action != Hold && TooThin(ind, hooks) then
      Decision(Hold, confidence, [reason, RegimeThinLiquidity], holdRisk)
    else
      Decision(action, confidence, [reason], BuildRisk(action, ind, hooks.maxHoldingBars))
  }

  function Decide(ind: Indicators, hooks: Hooks): Result<Decision, TypeError> {
    if hooks.cooldownBars > 0 then
      Ok(Decision(Hold, 0.0, [CooldownActive], BuildRisk(Hold, ind, hooks.maxHoldingBars)))
    else
    match Setup(ind)
    case Err(e) => Err(e)
    case Ok((action, confidence, reason)) => Ok(Filter(ind, hooks, action, confidence, reason))
  }

  predicate Decides(ind: Indicators, hooks: Hooks, action: Action) {
    Decide(ind, hooks).Ok? && Decide(ind, hooks).value.action == action
  }

  // A trade is the one decision that passes every test. An RSI that is NA is an exception
  // exactly where the momentum test gets to look at it. The confidence is always in the range
  // that `StrategyDecision` accepts.
  lemma TradesExactlyWhen(ind: Indicators, hooks: Hooks)
    ensures Decide(ind, hooks).Err? <==> hooks.cooldownBars <= 0 && ind.rsi.NA? && Abs(NormalizedGap(ind)) > 0.2
    ensures Decide(ind, hooks).Ok? ==> 0.0 <= Decide(ind, hooks).value.confidence <= 1.0
    ensures var passes := hooks.cooldownBars <= 0 && Min(1.0, Abs(NormalizedGap(ind))) >= hooks.minConfidence
                          && !TooVolatile(ind, ind.close, hooks) && !TooThin(ind, hooks);
            && (Decides(ind, hooks, Buy) <==> passes && NormalizedGap(ind) > 0.2 && Below(ind.rsi, 70.0))
            && (Decides(ind, hooks, Sell) <==> passes && NormalizedGap(ind) < -0.2 && Above(ind.rsi, 30.0))
  {
  }

  // ---- The same without quotients

  predicate AtLeast(x: real, share: real, whole: real) {
    x >= share * whole
  }

  predicate MoreThan(x: real, share: real, whole: real) {
    x > share * whole
  }

  lemma ShareOf(x: real, share: real, whole: real)
    requires whole > 0.0
    ensures AtLeast(x, share, whole) <==> x / whole >= share
    ensures MoreThan(x, share, whole) <==> x / whole > share
  {
    QuotientAgainst(x, whole, share);
  }

  // How far the EMAs are apart, and in which unit that is measured.
  function Apart(ind: Indicators): real {
    ind.emaFast - ind.emaSlow
  }

  function Unit(ind: Indicators): (u: real)
    ensures u > 0.0 && u >= ind.atr && u >= -ind.atr && u in {ind.atr, -ind.atr, 1e-9}
  {
    if ind.atr > 1e-9 then ind.atr else if ind.atr < -1e-9 then -ind.atr else 1e-9
  }

  lemma GapApart(ind: Indicators)
    ensures NormalizedGap(ind) > 0.2 <==> MoreThan(Apart(ind), 0.2, Unit(ind))
    ensures NormalizedGap(ind) < -0.2 <==> MoreThan(-Apart(ind), 0.2, Unit(ind))
    ensures Abs(NormalizedGap(ind)) == Abs(Apart(ind)) / Unit(ind)
  {
    ShareOf(Apart(ind), 0.2, Unit(ind));
    ShareOf(-Apart(ind), 0.2, Unit(ind));
    DivMul(Apart(ind), Unit(ind));
    DivUnique(-Apart(ind), Unit(ind), -(Apart(ind) / Unit(ind)));
    QuotientNonNegative(Abs(Apart(ind)), Unit(ind));
  }

  // A confidence c says how many units the EMAs are apart, up to one.
  predicate ConfidenceIs(c: real, apart: real, unit: real) {
    c * unit == Min(apart, unit)
  }

  lemma ConfidenceApart(apart: real, unit: real)
    requires apart >= 0.0 && unit > 0.0
    ensures ConfidenceIs(Min(1.0, apart / unit), apart, unit)
  {
    DivMul(apart, unit);
    QuotientAgainst(apart, unit, 1.0);
  }

  // The filters in terms of the row: the confidence, the ATR against the price, the volume
  // against its mean.
  predicate PassesFilters(ind: Indicators, hooks: Hooks) {
    && hooks.minConfidence <= 1.0 && AtLeast(Abs(Apart(ind)), hooks.minConfidence, Unit(ind))
    && !MoreThan(Abs(ind.atr), hooks.maxAtrToPrice, if Abs(ind.close) < 1e-9 then 1e-9 else Abs(ind.close))
    && AtLeast(ind.volume, hooks.minVolumeRatio, if ind.volumeMa < 1e-9 then 1e-9 else ind.volumeMa)
  }

  lemma FiltersMean(ind: Indicators, hooks: Hooks)
    ensures PassesFilters(ind, hooks) <==>
            Min(1.0, Abs(NormalizedGap(ind))) >= hooks.minConfidence && !TooVolatile(ind, ind.close, hooks) && !TooThin(ind, hooks)
  {
    GapApart(ind);
    ShareOf(Abs(Apart(ind)), hooks.minConfidence, Unit(ind));
    ShareOf(Abs(ind.atr), hooks.maxAtrToPrice, Max(Abs(ind.close), 1e-9));
    ShareOf(ind.volume, hooks.minVolumeRatio, Max(ind.volumeMa, 1e-9));
  }

  // What is traded, and when it raises, in terms of the row.
  lemma TradesInPrices(ind: Indicators, hooks: Hooks)
    ensures Decides(ind, hooks, Buy) <==>
            && hooks.cooldownBars <= 0 && PassesFilters(ind, hooks)
            && MoreThan(Apart(ind), 0.2, Unit(ind)) && ind.rsi.Number? && ind.rsi.value < 70.0
    ensures Decides(ind, hooks, Sell) <==>
            && hooks.cooldownBars <= 0 && PassesFilters(ind, hooks)
            && MoreThan(-Apart(ind), 0.2, Unit(ind)) && ind.rsi.Number? && ind.rsi.value > 30.0
    ensures Decide(ind, hooks).Err? <==>
            hooks.cooldownBars <= 0 && ind.rsi == NA && MoreThan(Abs(Apart(ind)), 0.2, Unit(ind))
  {
    TradesExactlyWhen(ind, hooks);
    FiltersMean(ind, hooks);
    GapApart(ind);
    ShareOf(Abs(Apart(ind)), 0.2, Unit(ind));
  }

  // The confidence is how many units the EMAs are apart, up to one, whether the trade goes
  // through or a filter stops it; without a setup it is zero.
  lemma DecisionConfidence(ind: Indicators, hooks: Hooks)
    requires Decide(ind, hooks).Ok?
    ensures var d := Decide(ind, hooks).value;
            if d.reasons[..1] in {[EmaMomentumLong], [EmaMomentumShort]} then ConfidenceIs(d.confidence, Abs(Apart(ind)), Unit(ind))
            else d.confidence == 0.0
  {
    GapApart(ind);
    ConfidenceApart(Abs(Apart(ind)), Unit(ind));
    var d := Decide(ind, hooks).value;
    assert d.reasons[..1] == [d.reasons[0]];
  }

  // The stop is one ATR against the position, the target two ATRs with it; a hold is bracketed
  // by one ATR on either side.
  lemma DecisionRisk(ind: Indicators, hooks: Hooks)
    requires Decide(ind, hooks).Ok?
    ensures var d, atr := Decide(ind, hooks).value, Max(ind.atr, 0.0);
            && (d.action == Buy ==> ind.close - d.risk.sl == atr && d.risk.tp - ind.close == 2.0 * atr)
            && (d.action == Sell ==> d.risk.sl - ind.close == atr && ind.close - d.risk.tp == 2.0 * atr)
            && (d.action == Hold ==> ind.close - d.risk.sl == atr && d.risk.tp - ind.close == atr)
            && d.risk.maxHoldingBars == hooks.maxHoldingBars
  {
  }

  // The reason codes name the setup and the first filter that stopped it.
  lemma DecisionReasons(ind: Indicators, hooks: Hooks)
    requires Decide(ind, hooks).Ok?
    ensures var d, confidence := Decide(ind, hooks).value, Min(1.0, Abs(NormalizedGap(ind)));
            && (CooldownActive in d.reasons <==> hooks.cooldownBars > 0)
            && (EmaMomentumLong in d.reasons ==> NormalizedGap(ind) > 0.2)
            && (EmaMomentumShort in d.reasons ==> NormalizedGap(ind) < -0.2)
            && (BelowMinConfidence in d.reasons ==> confidence < hooks.minConfidence)
            && (RegimeVolatilitySpike in d.reasons ==> confidence >= hooks.minConfidence && TooVolatile(ind, ind.close, hooks))
            && (RegimeThinLiquidity in d.reasons ==>
                  confidence >= hooks.minConfidence && !TooVolatile(ind, ind.close, hooks) && TooThin(ind, hooks))
            && (d.action == Buy ==> d.reasons == [EmaMomentumLong])
            && (d.action == Sell ==> d.reasons == [EmaMomentumShort])
            && (d.action == Hold ==> d.reasons in {[CooldownActive], [NoTradeSetup]} || |d.reasons| == 2)
  {
  }

  // ---- Reflection of prices: p becomes C - p

  function Opposite(a: Action): Action {
    match a
    case Buy => Sell
    case Sell => Buy
    case Hold => Hold
  }

  function OppositeReason(r: ReasonCode): ReasonCode {
    match r
    case EmaMomentumLong => EmaMomentumShort
    case EmaMomentumShort => EmaMomentumLong
    case _ => r
  }

  // The decision for reflected prices. The levels of a hold trade places, being the lower and
  // the upper one.
  function Mirror(d: Decision, C: real): Decision {
    Decision(Opposite(d.action), d.confidence,
             seq(|d.reasons|, i requires 0 <= i < |d.reasons| => OppositeReason(d.reasons[i])),
             if d.action == Hold then Risk(C - d.risk.tp, C - d.risk.sl, d.risk.maxHoldingBars)
             else Risk(C - d.risk.sl, C - d.risk.tp, d.risk.maxHoldingBars))
  }

  function MirrorResult(r: Result<Decision, TypeError>, C: real): Result<Decision, TypeError> {
    match r
    case Err(e) => Err(e)
    case Ok(d) => Ok(Mirror(d, C))
  }

  // The momentum test comes to opposite setups, or raises on both sides.
  predicate SetupMirrored(ind: Indicators, ind': Indicators) {
    match Setup(ind)
    case Err(e) => Setup(ind') == Err(e)
    case Ok((action, confidence, reason)) => Setup(ind') == Ok((Opposite(action), confidence, OppositeReason(reason)))
  }

  predicate Reflected(ind: Indicators, ind': Indicators, C: real) {
    && ind'.close == C - ind.close && ind'.atr == ind.atr
    && ind'.emaFast - ind'.emaSlow == -(ind.emaFast - ind.emaSlow)
    && ind'.volume == ind.volume && ind'.volumeMa == ind.volumeMa
  }

  lemma GapReflected(ind: Indicators, ind': Indicators, C: real)
    requires Reflected(ind, ind', C)
    ensures Volatility(ind') == Volatility(ind) && NormalizedGap(ind') == -NormalizedGap(ind)
  {
    var g, v := ind.emaFast - ind.emaSlow, Volatility(ind);
    DivMul(g, v);
    DivUnique(-g, v, -(g / v));
  }

  // What the momentum test makes of an RSI, by the side of the gap: an exception, a trade or
  // neither.
  datatype Momentum = Ambiguous | Passed | Failed

  function LongMomentum(rsi: Reading): Momentum {
    if rsi.NA? then Ambiguous else if Below(rsi, 70.0) then Passed else Failed
  }

  function ShortMomentum(rsi: Reading): Momentum {
    if rsi.NA? then Ambiguous else if Above(rsi, 30.0) then Passed else Failed
  }

  // On reflected prices the momentum test comes to the opposite exactly when the gap is small
  // or the two RSI readings look the same from the two sides.
  lemma SetupReflected(ind: Indicators, ind': Indicators, C: real)
    requires Reflected(ind, ind', C)
    ensures SetupMirrored(ind, ind') <==>
            && (NormalizedGap(ind) > 0.2 ==> LongMomentum(ind.rsi) == ShortMomentum(ind'.rsi))
            && (NormalizedGap(ind) < -0.2 ==> ShortMomentum(ind.rsi) == LongMomentum(ind'.rsi))
  {
    GapReflected(ind, ind', C);
  }

  lemma RiskReflected(ind: Indicators, ind': Indicators, C: real, action: Action, bars: int)
    requires Reflected(ind, ind', C)
    ensures var r := BuildRisk(action, ind, bars);
            BuildRisk(Opposite(action), ind', bars) ==
            if action == Hold then Risk(C - r.tp, C - r.sl, bars) else Risk(C - r.sl, C - r.tp, bars)
  {
  }

  // Does the volatility filter get to look at the price?
  predicate Filtered(ind: Indicators, hooks: Hooks) {
    && Setup(ind).Ok? && Setup(ind).value.0 != Hold && Setup(ind).value.1 >= hooks.minConfidence
  }

  lemma ReasonsMirrored(d: Decision, C: real)
    ensures var reasons, mirrored := d.reasons, Mirror(d, C).reasons;
            && |mirrored| == |reasons|
            && (reasons != [] ==> mirrored[0] == OppositeReason(reasons[0]))
            && (|reasons| == 1 ==> mirrored == [OppositeReason(reasons[0])])
            && (|reasons| == 2 ==> mirrored == [OppositeReason(reasons[0]), OppositeReason(reasons[1])])
  {
  }

  lemma FilterReflected(ind: Indicators, ind': Indicators, C: real, hooks: Hooks, action: Action, confidence: real, reason: ReasonCode)
    requires Reflected(ind, ind', C)
    ensures Filter(ind', hooks, Opposite(action), confidence, OppositeReason(reason)) ==
            Mirror(Filter(ind, hooks, action, confidence, reason), C) <==>
            (action != Hold && confidence >= hooks.minConfidence ==>
               (TooVolatile(ind, ind.close, hooks) <==> TooVolatile(ind, C - ind.close, hooks)))
  {
    RiskReflected(ind, ind', C, Hold, hooks.maxHoldingBars);
    RiskReflected(ind, ind', C, action, hooks.maxHoldingBars);
    ReasonsMirrored(Filter(ind, hooks, action, confidence, reason), C);
    assert TooThin(ind, hooks) == TooThin(ind', hooks);
    assert TooVolatile(ind', ind'.close, hooks) == TooVolatile(ind, C - ind.close, hooks);
  }

  // Reflected prices give the opposite decision, with the same confidence and reflected levels,
  // exactly when a cooldown decides or the momentum test comes to the opposite and the
  // volatility filter, if it is reached, says the same of the close and of the reflected close.
  lemma DecideReflected(ind: Indicators, ind': Indicators, C: real, hooks: Hooks)
    requires Reflected(ind, ind', C)
    ensures Decide(ind', hooks) == MirrorResult(Decide(ind, hooks), C) <==>
            || hooks.cooldownBars > 0
            || (&& SetupMirrored(ind, ind')
                && (Filtered(ind, hooks) ==> (TooVolatile(ind, ind.close, hooks) <==> TooVolatile(ind, C - ind.close, hooks))))
  {
    RiskReflected(ind, ind', C, Hold, hooks.maxHoldingBars);
    if hooks.cooldownBars > 0 {
      ReasonsMirrored(Decide(ind, hooks).value, C);
    } else if Setup(ind).Ok? && Setup(ind').Ok? {
      var (action, confidence, reason) := Setup(ind).value;
      var (action', confidence', reason') := Setup(ind').value;
      var d, d' := Filter(ind, hooks, action, confidence, reason), Filter(ind', hooks, action', confidence', reason');
      assert d.reasons[0] == reason && d'.reasons[0] == reason';
      ReasonsMirrored(d, C);
      if SetupMirrored(ind, ind') {
        FilterReflected(ind, ind', C, hooks, action, confidence, reason);
      } else {
        assert reason' != OppositeReason(reason) by { GapReflected(ind, ind', C); }
      }
    }
  }
}
