/**
  From bars to a decision: the indicator row at t handed to the strategy, on monotone
  prices and under reflection of prices.
 */
module Signals {
  import opened Wrappers
  import opened Reals
  import opened Strategy
  import opened IndicatorSeries

  datatype Windows = Windows(fast: nat, slow: nat, rsi: nat, atr: nat) {
    predicate Valid() {
      fast >= 1 && slow >= 1 && rsi >= 1 && atr >= 1
    }
  }

  // Row t has its EMAs and its ATR. Its RSI may still be undefined.
  predicate Ready(bars: seq<Bar>, w: Windows, t: nat) {
    w.Valid() && t < |bars| && t + 1 >= w.fast && t + 1 >= w.slow && t + 1 >= w.atr
  }

  function SignalAt(bars: seq<Bar>, w: Windows, t: nat, volume: real, volumeMa: real): Indicators
    requires Ready(bars, w, t)
  {
    Indicators(bars[t].close, Ema(bars, w.fast)[t].value, Ema(bars, w.slow)[t].value,
               RsiSeries(bars, w.rsi)[t], AtrSeries(bars, w.atr)[t].value, volume, volumeMa)
  }

  // ---- Reflection of prices

  function Reflect(bars: seq<Bar>, C: real): (r: seq<Bar>)
    ensures |r| == |bars|
  {
    seq(|bars|, t requires 0 <= t < |bars| => Bar(C - bars[t].low, C - bars[t].high, C - bars[t].close))
  }

  lemma ClosesReflected(bars: seq<Bar>, C: real)
    ensures var c, d := ClosesOf(bars), ClosesOf(Reflect(bars, C));
            forall i | 0 <= i < |c| :: d[i] == C - c[i]
  {
  }

  // Gains and losses change places.
  lemma GainsReflected(bars: seq<Bar>, C: real)
    ensures GainsOf(ClosesOf(Reflect(bars, C))) == LossesOf(ClosesOf(bars))
    ensures LossesOf(ClosesOf(Reflect(bars, C))) == GainsOf(ClosesOf(bars))
  {
  }

  lemma EmaReflected(bars: seq<Bar>, C: real, window: nat, t: nat)
    requires window >= 1 && t < |bars| && t + 1 >= window
    ensures Ema(Reflect(bars, C), window)[t].value == C - Ema(bars, window)[t].value
  {
    ClosesReflected(bars, C);
    EwmReflected(ClosesOf(bars), ClosesOf(Reflect(bars, C)), C, SpanAlpha(window), t);
  }

  // The true range, hence the ATR, is the same.
  lemma AtrReflected(bars: seq<Bar>, C: real, period: nat)
    requires period >= 1
    ensures AtrSeries(Reflect(bars, C), period) == AtrSeries(bars, period)
  {
    forall t | 0 <= t < |bars|
      ensures TrueRange(Reflect(bars, C), t) == TrueRange(bars, t)
    {
    }
    assert TrueRanges(Reflect(bars, C)) == TrueRanges(bars);
  }

  lemma RsiOfSwapped(gain: real, loss: real)
    requires gain > 0.0 && loss > 0.0
    ensures RsiOf(loss, gain).value == 100.0 - RsiOf(gain, loss).value
  {
    var a, b := gain / loss, loss / gain;
    DivPositive(gain, loss);
    DivPositive(loss, gain);
    DivMul(gain, loss);
    DivMul(loss, gain);
    assert a * b * gain == a * loss == gain;
    MulCancel(a * b, 1.0, gain);
    var u, v := 100.0 / (1.0 + a), 100.0 / (1.0 + b);
    Complementary(a, b, u, v);
  }

  lemma Complementary(a: real, b: real, u: real, v: real)
    requires a > 0.0 && b > 0.0 && a * b == 1.0
    requires u == 100.0 / (1.0 + a) && v == 100.0 / (1.0 + b)
    ensures u + v == 100.0
  {
    DivMul(100.0, 1.0 + a);
    DivMul(100.0, 1.0 + b);
    assert v * (1.0 + b) * a == 100.0 * a;
    assert v * (1.0 + b) * a == v * (a + a * b) == v * (1.0 + a);
    assert (u + v) * (1.0 + a) == 100.0 * (1.0 + a);
    MulCancel(u + v, 100.0, 1.0 + a);
  }

  lemma RsiOfNoGain(loss: real)
    requires loss > 0.0
    ensures RsiOf(0.0, loss) == Number(0.0)
  {
    DivUnique(0.0, loss, 0.0);
    DivUnique(100.0, 1.0, 100.0);
  }

  ghost function AverageGain(bars: seq<Bar>, period: nat, t: nat): real
    requires period >= 1 && 1 <= t < |bars|
  {
    Ewm(GainsOf(ClosesOf(bars)), PeriodAlpha(period), t - 1)
  }

  ghost function AverageLoss(bars: seq<Bar>, period: nat, t: nat): real
    requires period >= 1 && 1 <= t < |bars|
  {
    Ewm(LossesOf(ClosesOf(bars)), PeriodAlpha(period), t - 1)
  }

  // RSI maps to 100 - RSI exactly where neither average is zero; elsewhere one of the two
  // readings is NA.
  lemma RsiReflected(bars: seq<Bar>, C: real, period: nat, t: nat)
    requires period >= 1 && 1 <= t < |bars| && t >= period
    ensures var x, y := RsiSeries(bars, period)[t], RsiSeries(Reflect(bars, C), period)[t];
            && (x.NA? <==> AverageLoss(bars, period, t) == 0.0)
            && (y.NA? <==> AverageGain(bars, period, t) == 0.0)
            && (x.Number? && y.Number? ==> y.value == 100.0 - x.value)
            && !x.NaN? && !y.NaN?
  {
    RsiRows(bars, C, period, t);
    var gain, loss := AverageGain(bars, period, t), AverageLoss(bars, period, t);
    if gain != 0.0 && loss != 0.0 {
      RsiOfSwapped(gain, loss);
    }
  }

  lemma RsiRows(bars: seq<Bar>, C: real, period: nat, t: nat)
    requires period >= 1 && 1 <= t < |bars| && t >= period
    ensures AverageGain(bars, period, t) >= 0.0 && AverageLoss(bars, period, t) >= 0.0
    ensures RsiSeries(bars, period)[t] == RsiOf(AverageGain(bars, period, t), AverageLoss(bars, period, t))
    ensures RsiSeries(Reflect(bars, C), period)[t] == RsiOf(AverageLoss(bars, period, t), AverageGain(bars, period, t))
  {
    AveragesNonNegative(ClosesOf(bars), PeriodAlpha(period), period, t);
    GainsReflected(bars, C);
  }

  // An RSI that is defined lies in [0, 100).
  lemma RsiRange(gain: real, loss: real)
    requires gain >= 0.0 && loss > 0.0
    ensures 0.0 <= RsiOf(gain, loss).value < 100.0
  {
    QuotientNonNegative(gain, loss);
    var rs := gain / loss;
    DivPositive(100.0, 1.0 + rs);
    DivDenominator(100.0, 1.0, 1.0 + rs);
    DivUnique(100.0, 1.0, 100.0);
  }

  // y is x with its sign changed, where x is there at all.
  predicate Negated(x: Reading, y: Reading) {
    if x.Number? then y == Number(-x.value) else y == x
  }

  lemma QuotientNegated(a: Reading, a': Reading, b: Reading)
    requires Negated(a, a')
    ensures QuotientOrZero(a', b).value == -QuotientOrZero(a, b).value
  {
    if a.Number? && b.Number? && b.value != 0.0 {
      DivMul(a.value, b.value);
      DivUnique(-a.value, b.value, -(a.value / b.value));
    }
  }

  lemma DifferenceReflected(bars: seq<Bar>, C: real, window: nat, t: nat)
    requires window >= 1 && 1 <= t < |bars|
    ensures var e, e' := Ema(bars, window), Ema(Reflect(bars, C), window);
            Negated(Difference(e[t], e[t - 1]), Difference(e'[t], e'[t - 1]))
  {
    if t >= window {
      EmaReflected(bars, C, window, t);
      EmaReflected(bars, C, window, t - 1);
    }
  }

  lemma SlopeNegated(e: Series, e': Series, atr: Series, t: nat)
    requires |e| == |e'| == |atr| && t < |atr|
    requires t > 0 ==> Negated(Difference(e[t], e[t - 1]), Difference(e'[t], e'[t - 1]))
    ensures SlopeAt(e', atr, t).value == -SlopeAt(e, atr, t).value
  {
    if t > 0 {
      QuotientNegated(Difference(e[t], e[t - 1]), Difference(e'[t], e'[t - 1]), atr[t]);
    }
  }

  function Slopes(bars: seq<Bar>, window: nat, period: nat): (s: Series)
    requires window >= 1 && period >= 1
    ensures |s| == |bars| && forall t | 0 <= t < |s| :: s[t].Number?
  {
    SlopeNorm(Ema(bars, window), AtrSeries(bars, period))
  }

  // The slope changes its sign.
  lemma SlopeReflected(bars: seq<Bar>, C: real, window: nat, period: nat, t: nat)
    requires window >= 1 && period >= 1 && t < |bars|
    ensures Slopes(Reflect(bars, C), window, period)[t].value == -Slopes(bars, window, period)[t].value
  {
    AtrReflected(bars, C, period);
    if t > 0 {
      DifferenceReflected(bars, C, window, t);
    }
    SlopeNegated(Ema(bars, window), Ema(Reflect(bars, C), window), AtrSeries(bars, period), t);
  }

  // ---- Monotone prices

  lemma EmaOrder(bars: seq<Bar>, w: Windows, t: nat)
    requires Ready(bars, w, t) && w.fast <= w.slow && Rising(ClosesOf(bars), t)
    ensures bars[0].close <= Ema(bars, w.slow)[t].value <= Ema(bars, w.fast)[t].value <= bars[t].close
  {
    var c := ClosesOf(bars);
    AlphaRange(w.fast);
    AlphaRange(w.slow);
    SpanAlphaOrder(w.fast, w.slow);
    EwmOfRising(c, SpanAlpha(w.fast), t);
    EwmOfRising(c, SpanAlpha(w.slow), t);
    FasterIsHigher(c, SpanAlpha(w.fast), SpanAlpha(w.slow), t);
  }

  lemma FallingReflected(bars: seq<Bar>, C: real, t: nat)
    requires t < |bars|
    ensures Falling(ClosesOf(bars), t) <==> Rising(ClosesOf(Reflect(bars, C)), t)
  {
    var c, d := ClosesOf(bars), ClosesOf(Reflect(bars, C));
    ClosesReflected(bars, C);
    assert forall i | 0 <= i < t :: Delta(c, i) == -Delta(d, i);
  }

  lemma GapSign(bars: seq<Bar>, w: Windows, t: nat, volume: real, volumeMa: real)
    requires Ready(bars, w, t) && w.fast <= w.slow
    ensures Rising(ClosesOf(bars), t) ==> NormalizedGap(SignalAt(bars, w, t, volume, volumeMa)) >= 0.0
    ensures Falling(ClosesOf(bars), t) ==> NormalizedGap(SignalAt(bars, w, t, volume, volumeMa)) <= 0.0
  {
    var ind := SignalAt(bars, w, t, volume, volumeMa);
    var gap := ind.emaFast - ind.emaSlow;
    if Rising(ClosesOf(bars), t) {
      EmaOrder(bars, w, t);
      QuotientNonNegative(gap, Volatility(ind));
    }
    if Falling(ClosesOf(bars), t) {
      FallingReflected(bars, 0.0, t);
      EmaOrder(Reflect(bars, 0.0), w, t);
      EmaReflected(bars, 0.0, w.fast, t);
      EmaReflected(bars, 0.0, w.slow, t);
      DivNumerator(gap, 0.0, Volatility(ind));
      DivUnique(0.0, Volatility(ind), 0.0);
    }
  }

  lemma NoLosses(c: seq<real>, t: nat)
    requires 1 <= t < |c|
    ensures Rising(c, t) <==> forall i | 0 <= i <= t - 1 :: LossesOf(c)[i] == 0.0
  {
    var losses := LossesOf(c);
    assert forall i | 0 <= i < t :: losses[i] == -Min(Delta(c, i), 0.0);
  }

  lemma NoGains(c: seq<real>, t: nat)
    requires 1 <= t < |c|
    ensures Falling(c, t) <==> forall i | 0 <= i <= t - 1 :: GainsOf(c)[i] == 0.0
  {
    var gains := GainsOf(c);
    assert forall i | 0 <= i < t :: gains[i] == Max(Delta(c, i), 0.0);
  }

  // Without a single fall the average loss is zero, without a single gain the average gain;
  // and the converse unless only the last row counts.
  lemma MonotoneAverages(bars: seq<Bar>, period: nat, t: nat)
    requires period >= 1 && 1 <= t < |bars|
    ensures Rising(ClosesOf(bars), t) ==> AverageLoss(bars, period, t) == 0.0
    ensures Falling(ClosesOf(bars), t) ==> AverageGain(bars, period, t) == 0.0
    ensures period >= 2 && AverageLoss(bars, period, t) == 0.0 ==> Rising(ClosesOf(bars), t)
    ensures period >= 2 && AverageGain(bars, period, t) == 0.0 ==> Falling(ClosesOf(bars), t)
  {
    var c := ClosesOf(bars);
    NoLosses(c, t);
    NoGains(c, t);
    ZeroMean(LossesOf(c), period, t - 1);
    ZeroMean(GainsOf(c), period, t - 1);
  }

  lemma ZeroMean(xs: seq<real>, period: nat, t: nat)
    requires period >= 1 && t < |xs| && forall i | 0 <= i <= t :: xs[i] >= 0.0
    ensures (forall i | 0 <= i <= t :: xs[i] == 0.0) ==> Ewm(xs, PeriodAlpha(period), t) == 0.0
    ensures period >= 2 && Ewm(xs, PeriodAlpha(period), t) == 0.0 ==> forall i | 0 <= i <= t :: xs[i] == 0.0
  {
    AlphaRange(period);
    if forall i | 0 <= i <= t :: xs[i] == 0.0 {
      EwmOfZeros(xs, PeriodAlpha(period), t);
    } else if period >= 2 && Ewm(xs, PeriodAlpha(period), t) == 0.0 {
      EwmZero(xs, PeriodAlpha(period), t);
    }
  }

  lemma {:induction false} EwmOfZeros(xs: seq<real>, alpha: real, t: nat)
    requires t < |xs| && forall i | 0 <= i <= t :: xs[i] == 0.0
    ensures Ewm(xs, alpha, t) == 0.0
  {
    if t > 0 {
      EwmOfZeros(xs, alpha, t - 1);
    }
  }

  // On closes that never fall: each EMA lies between the first close and the latest, the fast
  // one is not below the slow one, and the normalised gap is not negative.
  lemma RisingGap(bars: seq<Bar>, w: Windows, t: nat)
    requires Ready(bars, w, t) && w.fast <= w.slow && Rising(ClosesOf(bars), t) && bars[0].close > 0.0
    ensures bars[0].close <= Ema(bars, w.slow)[t].value <= Ema(bars, w.fast)[t].value <= bars[t].close
    ensures var gapNorm := GapNorm(Ema(bars, w.fast), Ema(bars, w.slow), ClosesOf(bars));
            gapNorm[t].Number? && gapNorm[t].value >= 0.0
  {
    EmaOrder(bars, w, t);
    QuotientNonNegative(Ema(bars, w.fast)[t].value - Ema(bars, w.slow)[t].value, bars[t].close);
  }

  // A decision on an indicator row raises exactly where the average loss is zero and the gap
  // makes the momentum test look at the RSI. With an RSI window of two bars or more and a fast
  // window no longer than the slow one, that is on closes that never fell.
  lemma RaisesExactlyWhen(bars: seq<Bar>, w: Windows, t: nat, volume: real, volumeMa: real, hooks: Hooks)
    requires Ready(bars, w, t)
    ensures var ind := SignalAt(bars, w, t, volume, volumeMa);
            Decide(ind, hooks).Err? <==>
            hooks.cooldownBars <= 0 && Abs(NormalizedGap(ind)) > 0.2 && t >= w.rsi && AverageLoss(bars, w.rsi, t) == 0.0
    ensures var ind := SignalAt(bars, w, t, volume, volumeMa);
            w.rsi >= 2 && w.fast <= w.slow ==>
              (Decide(ind, hooks).Err? <==>
               hooks.cooldownBars <= 0 && NormalizedGap(ind) > 0.2 && t >= w.rsi && Rising(ClosesOf(bars), t))
  {
    TradesExactlyWhen(SignalAt(bars, w, t, volume, volumeMa), hooks);
    if t >= w.rsi {
      RsiRows(bars, 0.0, w.rsi, t);
      MonotoneAverages(bars, w.rsi, t);
      if w.fast <= w.slow {
        GapSign(bars, w, t, volume, volumeMa);
      }
    }
  }

  // Nothing is traded on monotone prices. Rising prices leave the RSI at NA, so that the
  // decision is to hold while the gap is small and an exception once it is not; falling prices
  // leave it at zero, which fails the test a sell needs.
  lemma MonotoneHolds(bars: seq<Bar>, w: Windows, t: nat, volume: real, volumeMa: real, hooks: Hooks)
    requires Ready(bars, w, t) && w.fast <= w.slow && (Rising(ClosesOf(bars), t) || Falling(ClosesOf(bars), t))
    ensures var ind := SignalAt(bars, w, t, volume, volumeMa);
            && (Decide(ind, hooks).Ok? ==> Decides(ind, hooks, Hold))
            && (Rising(ClosesOf(bars), t) ==>
                  (Decide(ind, hooks).Err? <==> hooks.cooldownBars <= 0 && NormalizedGap(ind) > 0.2 && t >= w.rsi))
            && (Falling(ClosesOf(bars), t) && w.rsi >= 2 ==> Decide(ind, hooks).Ok?)
  {
    GapSign(bars, w, t, volume, volumeMa);
    RaisesExactlyWhen(bars, w, t, volume, volumeMa, hooks);
    TradesExactlyWhen(SignalAt(bars, w, t, volume, volumeMa), hooks);
    if t >= w.rsi {
      RsiRows(bars, 0.0, w.rsi, t);
      MonotoneAverages(bars, w.rsi, t);
      var loss := AverageLoss(bars, w.rsi, t);
      if Falling(ClosesOf(bars), t) && loss > 0.0 {
        RsiOfNoGain(loss);
      }
    }
  }

  // ---- The whole chain under reflection

  lemma SignalsReflected(bars: seq<Bar>, C: real, w: Windows, t: nat, volume: real, volumeMa: real)
    requires Ready(bars, w, t)
    ensures Reflected(SignalAt(bars, w, t, volume, volumeMa), SignalAt(Reflect(bars, C), w, t, volume, volumeMa), C)
  {
    AtrReflected(bars, C, w.atr);
    EmaReflected(bars, C, w.fast, t);
    EmaReflected(bars, C, w.slow, t);
  }

  // Where the momentum test treats rises and falls alike: before the RSI window is full, at a
  // small gap, and where both RSI averages are zero or neither is.
  ghost predicate MomentumSymmetric(bars: seq<Bar>, w: Windows, t: nat, gap: real)
    requires Ready(bars, w, t)
  {
    || t < w.rsi
    || Abs(gap) <= 0.2
    || (AverageGain(bars, w.rsi, t) == 0.0 <==> AverageLoss(bars, w.rsi, t) == 0.0)
  }

  // With an RSI window of two bars or more, that is everywhere but on closes that rose without
  // a fall or fell without a rise.
  lemma SymmetricUnlessMonotone(bars: seq<Bar>, w: Windows, t: nat, gap: real)
    requires Ready(bars, w, t) && w.rsi >= 2
    ensures MomentumSymmetric(bars, w, t, gap) <==>
            t < w.rsi || Abs(gap) <= 0.2 || (Rising(ClosesOf(bars), t) <==> Falling(ClosesOf(bars), t))
  {
    if t >= w.rsi {
      MonotoneAverages(bars, w.rsi, t);
    }
  }

  // The two RSI readings in the momentum test of a row and of the reflected row.
  lemma MomentumReflected(gain: real, loss: real)
    requires gain >= 0.0 && loss >= 0.0
    ensures LongMomentum(RsiOf(gain, loss)) == ShortMomentum(RsiOf(loss, gain)) <==> (gain == 0.0 <==> loss == 0.0)
    ensures ShortMomentum(RsiOf(gain, loss)) == LongMomentum(RsiOf(loss, gain)) <==> (gain == 0.0 <==> loss == 0.0)
  {
    if gain > 0.0 && loss > 0.0 {
      RsiOfSwapped(gain, loss);
    } else if loss > 0.0 {
      RsiOfNoGain(loss);
    } else if gain > 0.0 {
      RsiOfNoGain(gain);
    }
  }

  lemma SetupsMirrored(bars: seq<Bar>, C: real, w: Windows, t: nat, volume: real, volumeMa: real)
    requires Ready(bars, w, t)
    ensures var ind := SignalAt(bars, w, t, volume, volumeMa);
            SetupMirrored(ind, SignalAt(Reflect(bars, C), w, t, volume, volumeMa)) <==>
            MomentumSymmetric(bars, w, t, NormalizedGap(ind))
  {
    var ind, ind' := SignalAt(bars, w, t, volume, volumeMa), SignalAt(Reflect(bars, C), w, t, volume, volumeMa);
    SignalsReflected(bars, C, w, t, volume, volumeMa);
    SetupReflected(ind, ind', C);
    if t >= w.rsi {
      RsiRows(bars, C, w.rsi, t);
      MomentumReflected(AverageGain(bars, w.rsi, t), AverageLoss(bars, w.rsi, t));
    }
  }

  // Bars reflected to C - p give the opposite decision, with equal confidence and reflected
  // levels, exactly when a cooldown decides, or the momentum test treats rises and falls alike
  // on this row and the volatility filter, if it is reached, says the same of both closes.
  lemma ChainReflected(bars: seq<Bar>, C: real, w: Windows, t: nat, volume: real, volumeMa: real, hooks: Hooks)
    requires Ready(bars, w, t)
    ensures var ind := SignalAt(bars, w, t, volume, volumeMa);
            Decide(SignalAt(Reflect(bars, C), w, t, volume, volumeMa), hooks) == MirrorResult(Decide(ind, hooks), C) <==>
            || hooks.cooldownBars > 0
            || (&& MomentumSymmetric(bars, w, t, NormalizedGap(ind))
                && (Filtered(ind, hooks) ==> (TooVolatile(ind, ind.close, hooks) <==> TooVolatile(ind, C - ind.close, hooks))))
  {
    var ind, ind' := SignalAt(bars, w, t, volume, volumeMa), SignalAt(Reflect(bars, C), w, t, volume, volumeMa);
    SignalsReflected(bars, C, w, t, volume, volumeMa);
    SetupsMirrored(bars, C, w, t, volume, volumeMa);
    DecideReflected(ind, ind', C, hooks);
  }

  // Three rising closes that raise, while the reflected ones hold.
  lemma RisingRaises()
    ensures var bars := [Bar(100.0, 100.0, 100.0), Bar(101.0, 101.0, 101.0), Bar(201.0, 201.0, 201.0)];
            var w, hooks := Windows(1, 3, 2, 1), Hooks(0.55, 0, 12, 0.15, 0.3);
            && Ready(bars, w, 2)
            && Decide(SignalAt(bars, w, 2, 100.0, 100.0), hooks) == Err(AmbiguousTruth)
            && Decides(SignalAt(Reflect(bars, 301.0), w, 2, 100.0, 100.0), hooks, Hold)
  {
    var bars := [Bar(100.0, 100.0, 100.0), Bar(101.0, 101.0, 101.0), Bar(201.0, 201.0, 201.0)];
    var w, hooks := Windows(1, 3, 2, 1), Hooks(0.55, 0, 12, 0.15, 0.3);
    var c := ClosesOf(bars);
    assert c == [100.0, 101.0, 201.0];
    assert ClosesOf(Reflect(bars, 301.0)) == [201.0, 200.0, 100.0];
    RisingMeans(c, TrueRanges(bars));
    RaisesExactlyWhen(bars, w, 2, 100.0, 100.0, hooks);
    MonotoneHolds(Reflect(bars, 301.0), w, 2, 100.0, 100.0, hooks);
  }

  lemma RisingMeans(c: seq<real>, ranges: seq<real>)
    requires c == [100.0, 101.0, 201.0] && |ranges| == 3
    ensures SpanAlpha(1) == 1.0 && SpanAlpha(3) == 0.5 && PeriodAlpha(1) == 1.0
    ensures Ewm(c, 1.0, 2) == 201.0 && Ewm(c, 0.5, 2) == 150.75
    ensures Ewm(ranges, 1.0, 2) == ranges[2]
  {
    assert Ewm(c, 0.5, 0) == 100.0;
    assert Ewm(c, 0.5, 1) == 100.5;
  }

  // A one-bar RSI window breaks the symmetry far from monotone prices: its averages forget all
  // but the last difference. These closes raise, and the reflected ones buy.
  lemma OneBarRsi()
    ensures var bars := [Bar(100.0, 100.0, 100.0), Bar(10.0, 10.0, 10.0), Bar(11.0, 11.0, 11.0)];
            var w, hooks := Windows(1, 3, 1, 1), Hooks(0.55, 0, 12, 0.15, 0.3);
            && Ready(bars, w, 2)
            && Decide(SignalAt(bars, w, 2, 100.0, 100.0), hooks) == Err(AmbiguousTruth)
            && Decides(SignalAt(Reflect(bars, 200.0), w, 2, 100.0, 100.0), hooks, Buy)
  {
    var bars := [Bar(100.0, 100.0, 100.0), Bar(10.0, 10.0, 10.0), Bar(11.0, 11.0, 11.0)];
    var w, hooks := Windows(1, 3, 1, 1), Hooks(0.55, 0, 12, 0.15, 0.3);
    var c := ClosesOf(bars);
    assert c == [100.0, 10.0, 11.0];
    OneBarMeans(c, TrueRanges(bars));
    RsiRows(bars, 200.0, 1, 2);
    RsiOfNoGain(1.0);
    SignalsReflected(bars, 200.0, w, 2, 100.0, 100.0);
    OneBarDecisions(SignalAt(bars, w, 2, 100.0, 100.0), SignalAt(Reflect(bars, 200.0), w, 2, 100.0, 100.0), hooks);
  }

  lemma OneBarMeans(c: seq<real>, ranges: seq<real>)
    requires c == [100.0, 10.0, 11.0] && |ranges| == 3
    ensures SpanAlpha(1) == 1.0 && SpanAlpha(3) == 0.5 && PeriodAlpha(1) == 1.0
    ensures Ewm(c, 1.0, 2) == 11.0 && Ewm(c, 0.5, 2) == 33.0
    ensures Ewm(ranges, 1.0, 2) == ranges[2]
    ensures Ewm(GainsOf(c), 1.0, 1) == 1.0 && Ewm(LossesOf(c), 1.0, 1) == 0.0
  {
    assert Ewm(c, 0.5, 0) == 100.0;
    assert Ewm(c, 0.5, 1) == 55.0;
    assert GainsOf(c)[1] == 1.0 && LossesOf(c)[1] == 0.0;
  }

  lemma OneBarDecisions(ind: Indicators, ind': Indicators, hooks: Hooks)
    requires ind.close == 11.0 && ind'.close == 189.0 && ind.atr == ind'.atr == 1.0
    requires ind.emaFast - ind.emaSlow == -22.0 && ind'.emaFast - ind'.emaSlow == 22.0
    requires ind.rsi == NA && ind'.rsi == Number(0.0)
    requires ind'.volume == ind'.volumeMa == 100.0 && hooks == Hooks(0.55, 0, 12, 0.15, 0.3)
    ensures Decide(ind, hooks) == Err(AmbiguousTruth) && Decides(ind', hooks, Buy)
  {
    TradesExactlyWhen(ind, hooks);
    TradesExactlyWhen(ind', hooks);
  }
}
