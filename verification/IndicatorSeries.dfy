/**
  `generate_indicators`: EMA, RSI, ATR and the normalised slope and gap, on exact reals.
  `ewm(adjust=False).mean()` is written as its recursion; a row without enough observations
  is NaN.
 */
module IndicatorSeries {
  import opened Wrappers
  import opened Reals
  import opened Strategy

  type Series = seq<Reading>

  datatype Bar = Bar(high: real, low: real, close: real)

  // ---- Exponentially weighted means

  function Blend(mean: real, x: real, alpha: real): real {
    (1.0 - alpha) * mean + alpha * x
  }

  // Value of the mean after row t.
  function Ewm(xs: seq<real>, alpha: real, t: nat): real
    requires t < |xs|
  {
    if t == 0 then xs[0] else Blend(Ewm(xs, alpha, t - 1), xs[t], alpha)
  }

  // With fewer than minPeriods observations there is no value.
  function EwmSeries(xs: seq<real>, alpha: real, minPeriods: nat): (s: Series)
    ensures |s| == |xs|
  {
    seq(|xs|, t requires 0 <= t < |xs| => if t + 1 < minPeriods then NaN else Number(Ewm(xs, alpha, t)))
  }

  function SpanAlpha(span: nat): real
    requires span >= 1
  {
    2.0 / (span as real + 1.0)
  }

  function PeriodAlpha(period: nat): real
    requires period >= 1
  {
    1.0 / period as real
  }

  lemma AlphaRange(n: nat)
    requires n >= 1
    ensures 0.0 < SpanAlpha(n) <= 1.0 && 0.0 < PeriodAlpha(n) <= 1.0
    ensures n >= 2 ==> PeriodAlpha(n) < 1.0
  {
    var r := n as real;
    DivPositive(2.0, r + 1.0);
    DivPositive(1.0, r);
    QuotientWithinOne(2.0, r + 1.0);
    QuotientWithinOne(1.0, r);
    if n >= 2 {
      DivMul(1.0, r);
    }
  }

  lemma SpanAlphaOrder(fast: nat, slow: nat)
    requires 1 <= fast <= slow
    ensures SpanAlpha(slow) <= SpanAlpha(fast)
  {
    DivDenominator(2.0, fast as real + 1.0, slow as real + 1.0);
  }

  // ---- The indicators

  function ClosesOf(bars: seq<Bar>): (c: seq<real>)
    ensures |c| == |bars|
  {
    seq(|bars|, t requires 0 <= t < |bars| => bars[t].close)
  }

  function Ema(bars: seq<Bar>, window: nat): (s: Series)
    requires window >= 1
    ensures |s| == |bars|
  {
    EwmSeries(ClosesOf(bars), SpanAlpha(window), window)
  }

  // series.diff() at row i + 1
  function Delta(c: seq<real>, i: nat): real
    requires i + 1 < |c|
  {
    c[i + 1] - c[i]
  }

  predicate Rising(c: seq<real>, t: nat)
    requires t < |c|
  {
    forall i | 0 <= i < t :: Delta(c, i) >= 0.0
  }

  predicate Falling(c: seq<real>, t: nat)
    requires t < |c|
  {
    forall i | 0 <= i < t :: Delta(c, i) <= 0.0
  }

  // Positive and negative parts of the differences; the first row has none.
  function GainsOf(c: seq<real>): (g: seq<real>)
    ensures |g| == if c == [] then 0 else |c| - 1
  {
    if c == [] then [] else seq(|c| - 1, t requires 0 <= t < |c| - 1 => Max(Delta(c, t), 0.0))
  }

  function LossesOf(c: seq<real>): (g: seq<real>)
    ensures |g| == if c == [] then 0 else |c| - 1
  {
    if c == [] then [] else seq(|c| - 1, t requires 0 <= t < |c| - 1 => -Min(Delta(c, t), 0.0))
  }

  // 100 - 100 / (1 + gain / loss), where a zero loss counts as NA
  function RsiOf(gain: real, loss: real): Reading
    requires gain >= 0.0 && loss >= 0.0
  {
    if loss == 0.0 then NA else
    QuotientNonNegative(gain, loss);
    Number(100.0 - 100.0 / (1.0 + gain / loss))
  }

  function RsiAt(c: seq<real>, period: nat, t: nat): Reading
    requires period >= 1 && t < |c|
  {
    if t == 0 || t < period then NaN else
    AveragesNonNegative(c, PeriodAlpha(period), period, t);
    RsiOf(Ewm(GainsOf(c), PeriodAlpha(period), t - 1), Ewm(LossesOf(c), PeriodAlpha(period), t - 1))
  }

  function RsiSeries(bars: seq<Bar>, period: nat): (s: Series)
    requires period >= 1
    ensures |s| == |bars|
  {
    seq(|bars|, t requires 0 <= t < |bars| => RsiAt(ClosesOf(bars), period, t))
  }

  function TrueRange(bars: seq<Bar>, t: nat): real
    requires t < |bars|
  {
    var bar := bars[t];
    if t == 0 then bar.high - bar.low else
    var before := bars[t - 1].close;
    Max(Max(bar.high - bar.low, Abs(bar.high - before)), Abs(bar.low - before))
  }

  function TrueRanges(bars: seq<Bar>): (r: seq<real>)
    ensures |r| == |bars|
  {
    seq(|bars|, t requires 0 <= t < |bars| => TrueRange(bars, t))
  }

  function AtrSeries(bars: seq<Bar>, period: nat): (s: Series)
    requires period >= 1
    ensures |s| == |bars|
  {
    EwmSeries(TrueRanges(bars), PeriodAlpha(period), period)
  }

  // (a / b.replace(0, NA)).fillna(0)
  function QuotientOrZero(a: Reading, b: Reading): (q: Reading)
    ensures q.Number?
  {
    if a.Number? && b.Number? && b.value != 0.0 then Number(a.value / b.value) else Number(0.0)
  }

  function Difference(a: Reading, b: Reading): Reading {
    if a.Number? && b.Number? then Number(a.value - b.value) else NaN
  }

  // The normalised slope at row t, from the EMA's last two rows and the ATR.
  function SlopeAt(fast: Series, atr: Series, t: nat): (q: Reading)
    requires |fast| == |atr| && t < |fast|
    ensures q.Number?
  {
    QuotientOrZero(if t == 0 then NaN else Difference(fast[t], fast[t - 1]), atr[t])
  }

  function SlopeNorm(fast: Series, atr: Series): (s: Series)
    requires |fast| == |atr|
    ensures |s| == |fast| && forall t | 0 <= t < |s| :: s[t] == SlopeAt(fast, atr, t)
  {
    seq(|fast|, t requires 0 <= t < |fast| => SlopeAt(fast, atr, t))
  }

  function GapNorm(fast: Series, slow: Series, close: seq<real>): (s: Series)
    requires |fast| == |slow| == |close|
    ensures |s| == |fast|
  {
    seq(|fast|, t requires 0 <= t < |fast| => QuotientOrZero(Difference(fast[t], slow[t]), Number(close[t])))
  }

  // ---- What the columns are, row by row

  // m is the largest of the bar's height and its distances from the close before it.
  predicate IsTrueRange(bars: seq<Bar>, t: nat, m: real)
    requires t < |bars|
  {
    var high, low := bars[t].high, bars[t].low;
    if t == 0 then m == high - low else
    var before := bars[t - 1].close;
    && m >= high - low && m >= high - before && m >= before - high && m >= low - before && m >= before - low
    && (m == high - low || m == high - before || m == before - high || m == low - before || m == before - low)
  }

  predicate EmaRow(bars: seq<Bar>, span: nat, mean: seq<real>, t: nat)
    requires t < |bars| == |mean|
  {
    if t == 0 then mean[0] == bars[0].close
    else (span as real + 1.0) * mean[t] == (span as real - 1.0) * mean[t - 1] + 2.0 * bars[t].close
  }

  // A mean over `period` rows with weight 1 / period on the last, which is x in row t.
  predicate PeriodRow(period: nat, mean: seq<real>, first: nat, t: nat, x: real)
    requires first <= t < |mean|
  {
    if t == first then mean[t] == x else period as real * mean[t] == (period as real - 1.0) * mean[t - 1] + x
  }

  predicate AtrRow(bars: seq<Bar>, period: nat, mean: seq<real>, ranges: seq<real>, t: nat)
    requires t < |bars| == |mean| == |ranges|
  {
    IsTrueRange(bars, t, ranges[t]) && PeriodRow(period, mean, 0, t, ranges[t])
  }

  // The mean from its `least`-th observation on, and NaN before.
  predicate ShownFrom(mean: seq<real>, least: nat, column: Series) {
    |column| == |mean| && forall t | 0 <= t < |mean| :: column[t] == if t + 1 < least then NaN else Number(mean[t])
  }

  ghost predicate IsEma(bars: seq<Bar>, span: nat, column: Series) {
    exists mean: seq<real> ::
      |mean| == |bars| && ShownFrom(mean, span, column) && forall t | 0 <= t < |bars| :: EmaRow(bars, span, mean, t)
  }

  ghost predicate IsAtr(bars: seq<Bar>, period: nat, column: Series) {
    exists mean: seq<real>, ranges: seq<real> ::
      && |mean| == |ranges| == |bars| && ShownFrom(mean, period, column)
      && forall t | 0 <= t < |bars| :: AtrRow(bars, period, mean, ranges, t)
  }

  // The averages of rises and falls at row t, which count from the second row on.
  predicate RiseRow(bars: seq<Bar>, period: nat, gain: seq<real>, loss: seq<real>, t: nat)
    requires 1 <= t < |bars| == |gain| == |loss|
  {
    var rise := bars[t].close - bars[t - 1].close;
    && PeriodRow(period, gain, 1, t, if rise > 0.0 then rise else 0.0)
    && PeriodRow(period, loss, 1, t, if rise < 0.0 then -rise else 0.0)
  }

  // An RSI is the share of the average gain in both averages, in per cent.
  predicate ShareOfGain(gain: real, loss: real, reading: Reading) {
    if loss == 0.0 then reading == NA else reading.Number? && reading.value * (gain + loss) == 100.0 * gain
  }

  ghost predicate IsRsi(bars: seq<Bar>, period: nat, column: Series) {
    exists gain: seq<real>, loss: seq<real> ::
      && |gain| == |loss| == |column| == |bars|
      && (forall t | 1 <= t < |bars| :: RiseRow(bars, period, gain, loss, t))
      && forall t | 0 <= t < |bars| :: if t < period then column[t] == NaN else ShareOfGain(gain[t], loss[t], column[t])
  }

  // a divided by b, where there is something to divide by, and 0 elsewhere.
  predicate QuotientOf(q: Reading, a: Reading, b: Reading) {
    q.Number? && if a.Number? && b.Number? && b.value != 0.0 then q.value * b.value == a.value else q.value == 0.0
  }

  predicate IsSlope(fast: Series, atr: Series, column: Series) {
    && |fast| == |atr| == |column|
    && forall t | 0 <= t < |column| ::
         QuotientOf(column[t], if t == 0 then NaN else Difference(fast[t], fast[t - 1]), atr[t])
  }

  predicate IsGap(bars: seq<Bar>, fast: Series, slow: Series, column: Series) {
    && |fast| == |slow| == |column| == |bars|
    && forall t | 0 <= t < |column| :: QuotientOf(column[t], Difference(fast[t], slow[t]), Number(bars[t].close))
  }

  lemma BlendScaled(mean: real, x: real, alpha: real, n: real, k: real)
    requires alpha * n == k
    ensures n * Blend(mean, x, alpha) == (n - k) * mean + k * x
  {
    var p, q := alpha * mean, alpha * x;
    assert n * Blend(mean, x, alpha) == n * mean - n * p + n * q;
    assert n * p == k * mean && n * q == k * x;
  }

  function Means(xs: seq<real>, alpha: real): (m: seq<real>)
    ensures |m| == |xs|
  {
    seq(|xs|, t requires 0 <= t < |xs| => Ewm(xs, alpha, t))
  }

  lemma EmaIsEma(bars: seq<Bar>, span: nat)
    requires span >= 1
    ensures IsEma(bars, span, Ema(bars, span))
  {
    var c, alpha := ClosesOf(bars), SpanAlpha(span);
    var mean := Means(c, alpha);
    forall t | 0 <= t < |bars|
      ensures EmaRow(bars, span, mean, t)
    {
      if t > 0 {
        DivMul(2.0, span as real + 1.0);
        BlendScaled(mean[t - 1], c[t], alpha, span as real + 1.0, 2.0);
      }
    }
    assert ShownFrom(mean, span, Ema(bars, span));
  }

  lemma TrueRangeIs(bars: seq<Bar>, t: nat)
    requires t < |bars|
    ensures IsTrueRange(bars, t, TrueRange(bars, t))
  {
  }

  lemma PeriodStep(mean: real, x: real, period: nat)
    requires period >= 1
    ensures period as real * Blend(mean, x, PeriodAlpha(period)) == (period as real - 1.0) * mean + x
  {
    DivMul(1.0, period as real);
    BlendScaled(mean, x, PeriodAlpha(period), period as real, 1.0);
  }

  lemma MeansRow(xs: seq<real>, period: nat, t: nat)
    requires period >= 1 && t < |xs|
    ensures PeriodRow(period, Means(xs, PeriodAlpha(period)), 0, t, xs[t])
  {
    if t > 0 {
      PeriodStep(Ewm(xs, PeriodAlpha(period), t - 1), xs[t], period);
    }
  }

  lemma AtrIsAtr(bars: seq<Bar>, period: nat)
    requires period >= 1
    ensures IsAtr(bars, period, AtrSeries(bars, period))
  {
    var ranges := TrueRanges(bars);
    var mean := Means(ranges, PeriodAlpha(period));
    forall t | 0 <= t < |bars|
      ensures AtrRow(bars, period, mean, ranges, t)
    {
      TrueRangeIs(bars, t);
      MeansRow(ranges, period, t);
    }
    assert ShownFrom(mean, period, AtrSeries(bars, period));
  }

  lemma RsiOfShare(gain: real, loss: real)
    requires gain >= 0.0 && loss >= 0.0
    ensures ShareOfGain(gain, loss, RsiOf(gain, loss))
  {
    if loss != 0.0 {
      QuotientNonNegative(gain, loss);
      var rs := gain / loss;
      DivMul(gain, loss);
      DivMul(100.0, 1.0 + rs);
      ShareFrom(gain, loss, rs, 100.0 / (1.0 + rs));
    }
  }

  lemma ShareFrom(gain: real, loss: real, rs: real, u: real)
    requires rs * loss == gain && u * (1.0 + rs) == 100.0
    ensures (100.0 - u) * (gain + loss) == 100.0 * gain
  {
    assert gain + loss == (1.0 + rs) * loss;
    assert u * (gain + loss) == u * (1.0 + rs) * loss == 100.0 * loss;
  }

  // Averages over the differences, moved to the row of the later close.
  function FromSecondRow(xs: seq<real>, alpha: real, n: nat): (m: seq<real>)
    requires n == if xs == [] then n else |xs| + 1
    ensures |m| == n
  {
    seq(n, t requires 0 <= t < n => if 1 <= t <= |xs| then Ewm(xs, alpha, t - 1) else 0.0)
  }

  lemma PeriodRowOf(xs: seq<real>, period: nat, n: nat, t: nat)
    requires period >= 1 && 1 <= t < n == |xs| + 1
    ensures PeriodRow(period, FromSecondRow(xs, PeriodAlpha(period), n), 1, t, xs[t - 1])
  {
    if t > 1 {
      PeriodStep(Ewm(xs, PeriodAlpha(period), t - 2), xs[t - 1], period);
    }
  }

  lemma RiseRowOf(bars: seq<Bar>, period: nat, t: nat)
    requires period >= 1 && 1 <= t < |bars|
    ensures var c, alpha, n := ClosesOf(bars), PeriodAlpha(period), |bars|;
            RiseRow(bars, period, FromSecondRow(GainsOf(c), alpha, n), FromSecondRow(LossesOf(c), alpha, n), t)
  {
    var c := ClosesOf(bars);
    assert Delta(c, t - 1) == bars[t].close - bars[t - 1].close;
    PeriodRowOf(GainsOf(c), period, |bars|, t);
    PeriodRowOf(LossesOf(c), period, |bars|, t);
  }

  lemma RsiIsRsi(bars: seq<Bar>, period: nat)
    requires period >= 1
    ensures IsRsi(bars, period, RsiSeries(bars, period))
  {
    var c, column := ClosesOf(bars), RsiSeries(bars, period);
    var gain, loss := FromSecondRow(GainsOf(c), PeriodAlpha(period), |bars|), FromSecondRow(LossesOf(c), PeriodAlpha(period), |bars|);
    forall t | 1 <= t < |bars|
      ensures RiseRow(bars, period, gain, loss, t)
    {
      RiseRowOf(bars, period, t);
    }
    forall t | 0 <= t < |bars|
      ensures if t < period then column[t] == NaN else ShareOfGain(gain[t], loss[t], column[t])
    {
      if t >= period {
        AveragesNonNegative(c, PeriodAlpha(period), period, t);
        RsiOfShare(gain[t], loss[t]);
      }
    }
  }

  lemma QuotientIs(a: Reading, b: Reading)
    ensures QuotientOf(QuotientOrZero(a, b), a, b)
  {
    if a.Number? && b.Number? && b.value != 0.0 {
      DivMul(a.value, b.value);
    }
  }

  lemma SlopeIsSlope(fast: Series, atr: Series)
    requires |fast| == |atr|
    ensures IsSlope(fast, atr, SlopeNorm(fast, atr))
  {
    forall t | 0 <= t < |fast|
      ensures QuotientOf(SlopeNorm(fast, atr)[t], if t == 0 then NaN else Difference(fast[t], fast[t - 1]), atr[t])
    {
      QuotientIs(if t == 0 then NaN else Difference(fast[t], fast[t - 1]), atr[t]);
    }
  }

  lemma GapIsGap(bars: seq<Bar>, fast: Series, slow: Series)
    requires |fast| == |slow| == |bars|
    ensures IsGap(bars, fast, slow, GapNorm(fast, slow, ClosesOf(bars)))
  {
    forall t | 0 <= t < |bars|
      ensures QuotientOf(GapNorm(fast, slow, ClosesOf(bars))[t], Difference(fast[t], slow[t]), Number(bars[t].close))
    {
      QuotientIs(Difference(fast[t], slow[t]), Number(bars[t].close));
    }
  }

  // ---- The frame

  datatype Column = Given(name: string) | EmaColumn(window: nat) | RsiColumn(window: nat) | AtrColumn(window: nat) | SlopeColumn | GapColumn

  type Frame = map<Column, Series>

  function NewColumns(fast: nat, slow: nat, rsi: nat, atr: nat, slopeEnabled: bool, gapEnabled: bool): seq<Column> {
    [EmaColumn(fast), EmaColumn(slow), RsiColumn(rsi), AtrColumn(atr)]
    + (if slopeEnabled then [SlopeColumn] else []) + (if gapEnabled then [GapColumn] else [])
  }

  method FindConflicts(frame: Frame, columns: seq<Column>) returns (conflicts: seq<Column>)
    ensures forall column :: column in conflicts <==> column in columns && column in frame
    ensures conflicts == [] <==> forall column <- columns :: column !in frame
  {
    conflicts := [];
    for i := 0 to |columns|
      invariant forall column :: column in conflicts <==> column in columns[..i] && column in frame
    {
      if columns[i] in frame {
        conflicts := conflicts + [columns[i]];
      }
    }
    assert columns[..|columns|] == columns;
    assert conflicts != [] ==> conflicts[0] in conflicts;
  }

  // Every new column is what its rows say.
  ghost predicate RowByRow(bars: seq<Bar>, frame: Frame, fast: nat, slow: nat, rsi: nat, atr: nat, slopeEnabled: bool, gapEnabled: bool) {
    && EmaColumn(fast) in frame && EmaColumn(slow) in frame && RsiColumn(rsi) in frame && AtrColumn(atr) in frame
    && IsEma(bars, fast, frame[EmaColumn(fast)]) && IsEma(bars, slow, frame[EmaColumn(slow)])
    && IsRsi(bars, rsi, frame[RsiColumn(rsi)]) && IsAtr(bars, atr, frame[AtrColumn(atr)])
    && (slopeEnabled ==> SlopeColumn in frame && IsSlope(frame[EmaColumn(fast)], frame[AtrColumn(atr)], frame[SlopeColumn]))
    && (gapEnabled ==> GapColumn in frame && IsGap(bars, frame[EmaColumn(fast)], frame[EmaColumn(slow)], frame[GapColumn]))
  }

  // Every new column is the series of its name.
  predicate AsDefined(bars: seq<Bar>, frame: Frame, fast: nat, slow: nat, rsi: nat, atr: nat, slopeEnabled: bool, gapEnabled: bool)
    requires fast >= 1 && slow >= 1 && rsi >= 1 && atr >= 1
  {
    && EmaColumn(fast) in frame && frame[EmaColumn(fast)] == Ema(bars, fast)
    && EmaColumn(slow) in frame && frame[EmaColumn(slow)] == Ema(bars, slow)
    && RsiColumn(rsi) in frame && frame[RsiColumn(rsi)] == RsiSeries(bars, rsi)
    && AtrColumn(atr) in frame && frame[AtrColumn(atr)] == AtrSeries(bars, atr)
    && (slopeEnabled ==> SlopeColumn in frame && frame[SlopeColumn] == SlopeNorm(Ema(bars, fast), AtrSeries(bars, atr)))
    && (gapEnabled ==> GapColumn in frame && frame[GapColumn] == GapNorm(Ema(bars, fast), Ema(bars, slow), ClosesOf(bars)))
  }

  lemma ColumnsRowByRow(bars: seq<Bar>, frame: Frame, fast: nat, slow: nat, rsi: nat, atr: nat, slopeEnabled: bool, gapEnabled: bool)
    requires fast >= 1 && slow >= 1 && rsi >= 1 && atr >= 1
    requires AsDefined(bars, frame, fast, slow, rsi, atr, slopeEnabled, gapEnabled)
    ensures RowByRow(bars, frame, fast, slow, rsi, atr, slopeEnabled, gapEnabled)
  {
    EmaIsEma(bars, fast);
    EmaIsEma(bars, slow);
    RsiIsRsi(bars, rsi);
    AtrIsAtr(bars, atr);
    SlopeIsSlope(Ema(bars, fast), AtrSeries(bars, atr));
    GapIsGap(bars, Ema(bars, fast), Ema(bars, slow));
  }

  method AddColumns(bars: seq<Bar>, frame: Frame, fast: nat, slow: nat, rsi: nat, atr: nat, slopeEnabled: bool, gapEnabled: bool)
    returns (result: Frame)
    requires fast >= 1 && slow >= 1 && rsi >= 1 && atr >= 1
    requires forall column <- NewColumns(fast, slow, rsi, atr, slopeEnabled, gapEnabled) :: column !in frame
    ensures forall column :: column in result <==>
              column in frame || column in NewColumns(fast, slow, rsi, atr, slopeEnabled, gapEnabled)
    ensures forall column <- frame :: result[column] == frame[column]
    ensures AsDefined(bars, result, fast, slow, rsi, atr, slopeEnabled, gapEnabled)
  {
    ghost var columns := NewColumns(fast, slow, rsi, atr, slopeEnabled, gapEnabled);
    assert forall column :: column in columns <==>
             column in {EmaColumn(fast), EmaColumn(slow), RsiColumn(rsi), AtrColumn(atr)}
             || (slopeEnabled && column == SlopeColumn) || (gapEnabled && column == GapColumn);
    result := frame;
    result := result[EmaColumn(fast) := Ema(bars, fast)];
    result := result[EmaColumn(slow) := Ema(bars, slow)];
    result := result[RsiColumn(rsi) := RsiSeries(bars, rsi)];
    result := result[AtrColumn(atr) := AtrSeries(bars, atr)];
    if slopeEnabled {
      result := result[SlopeColumn := SlopeNorm(result[EmaColumn(fast)], result[AtrColumn(atr)])];
    }
    if gapEnabled {
      result := result[GapColumn := GapNorm(result[EmaColumn(fast)], result[EmaColumn(slow)], ClosesOf(bars))];
    }
  }

  // A column already in the frame is refused; otherwise the new columns are added, each what
  // its rows say, and no other column changes.
  method GenerateIndicators(bars: seq<Bar>, frame: Frame, fast: nat, slow: nat, rsi: nat, atr: nat,
                            slopeEnabled: bool, gapEnabled: bool)
    returns (r: Result<Frame, seq<Column>>)
    requires fast >= 1 && slow >= 1 && rsi >= 1 && atr >= 1
    ensures r.Ok? <==> forall column <- NewColumns(fast, slow, rsi, atr, slopeEnabled, gapEnabled) :: column !in frame
    ensures r.Err? ==> forall column :: column in r.error <==>
              column in NewColumns(fast, slow, rsi, atr, slopeEnabled, gapEnabled) && column in frame
    ensures r.Ok? ==> forall column :: column in r.value <==>
              column in frame || column in NewColumns(fast, slow, rsi, atr, slopeEnabled, gapEnabled)
    ensures r.Ok? ==> forall column <- frame :: r.value[column] == frame[column]
    ensures r.Ok? ==> AsDefined(bars, r.value, fast, slow, rsi, atr, slopeEnabled, gapEnabled)
    ensures r.Ok? ==> RowByRow(bars, r.value, fast, slow, rsi, atr, slopeEnabled, gapEnabled)
  {
    var columns := NewColumns(fast, slow, rsi, atr, slopeEnabled, gapEnabled);
    var conflicts := FindConflicts(frame, columns);
    if conflicts != [] {
      return Err(conflicts);
    }
    var result := AddColumns(bars, frame, fast, slow, rsi, atr, slopeEnabled, gapEnabled);
    ColumnsRowByRow(bars, result, fast, slow, rsi, atr, slopeEnabled, gapEnabled);
    r := Ok(result);
  }

  // ---- Properties of the means

  lemma BlendNonNegative(mean: real, x: real, alpha: real)
    requires mean >= 0.0 && x >= 0.0 && 0.0 <= alpha <= 1.0
    ensures Blend(mean, x, alpha) >= 0.0
    ensures 0.0 < alpha < 1.0 && Blend(mean, x, alpha) == 0.0 ==> mean == 0.0 && x == 0.0
  {
    var p, q := (1.0 - alpha) * mean, alpha * x;
    MulMono(0.0, mean, 1.0 - alpha);
    MulMono(0.0, x, alpha);
    assert p >= 0.0 && q >= 0.0;
    if 0.0 < alpha < 1.0 && mean > 0.0 {
      MulPositive(1.0 - alpha, mean);
    }
    if 0.0 < alpha < 1.0 && x > 0.0 {
      MulPositive(alpha, x);
    }
  }

  lemma BlendBetween(mean: real, x: real, alpha: real)
    requires mean <= x && 0.0 <= alpha <= 1.0
    ensures mean <= Blend(mean, x, alpha) <= x
  {
    var d := x - mean;
    MulMono(0.0, d, alpha);
    MulMono(0.0, d, 1.0 - alpha);
    assert Blend(mean, x, alpha) == mean + d * alpha;
    assert Blend(mean, x, alpha) == x - d * (1.0 - alpha);
  }

  lemma BlendFaster(f: real, s: real, x: real, fast: real, slow: real)
    requires s <= f && s <= x && 0.0 <= slow <= fast <= 1.0
    ensures Blend(s, x, slow) <= Blend(f, x, fast)
  {
    var d, e := x - s, f - s;
    MulMono(slow, fast, d);
    MulMono(0.0, e, 1.0 - fast);
    assert Blend(s, x, slow) == s + slow * d;
    assert Blend(f, x, fast) == s + fast * d + e * (1.0 - fast);
  }

  lemma BlendReflected(mean: real, x: real, C: real, alpha: real)
    ensures Blend(C - mean, C - x, alpha) == C - Blend(mean, x, alpha)
  {
  }

  lemma {:induction false} EwmNonNegative(xs: seq<real>, alpha: real, t: nat)
    requires t < |xs| && 0.0 <= alpha <= 1.0 && forall i | 0 <= i <= t :: xs[i] >= 0.0
    ensures Ewm(xs, alpha, t) >= 0.0
  {
    if t > 0 {
      EwmNonNegative(xs, alpha, t - 1);
      BlendNonNegative(Ewm(xs, alpha, t - 1), xs[t], alpha);
    }
  }

  lemma AveragesNonNegative(c: seq<real>, alpha: real, period: nat, t: nat)
    requires 1 <= t < |c| && period >= 1 && alpha == PeriodAlpha(period)
    ensures Ewm(GainsOf(c), alpha, t - 1) >= 0.0 && Ewm(LossesOf(c), alpha, t - 1) >= 0.0
  {
    AlphaRange(period);
    EwmNonNegative(GainsOf(c), alpha, t - 1);
    EwmNonNegative(LossesOf(c), alpha, t - 1);
  }

  // Unless only the last row counts, a zero mean of non-negative rows leaves no row but zeros.
  lemma {:induction false} EwmZero(xs: seq<real>, alpha: real, t: nat)
    requires t < |xs| && 0.0 < alpha < 1.0 && forall i | 0 <= i <= t :: xs[i] >= 0.0
    requires Ewm(xs, alpha, t) == 0.0
    ensures forall i | 0 <= i <= t :: xs[i] == 0.0
  {
    if t > 0 {
      EwmNonNegative(xs, alpha, t - 1);
      BlendNonNegative(Ewm(xs, alpha, t - 1), xs[t], alpha);
      EwmZero(xs, alpha, t - 1);
    }
  }

  // On rows that never fall, the mean lies between the first row and the last, and a larger
  // weight on the last row gives a larger mean.
  lemma {:induction false} EwmOfRising(xs: seq<real>, alpha: real, t: nat)
    requires t < |xs| && 0.0 <= alpha <= 1.0 && Rising(xs, t)
    ensures xs[0] <= Ewm(xs, alpha, t) <= xs[t]
  {
    if t > 0 {
      EwmOfRising(xs, alpha, t - 1);
      assert Delta(xs, t - 1) >= 0.0;
      BlendBetween(Ewm(xs, alpha, t - 1), xs[t], alpha);
    }
  }

  lemma {:induction false} FasterIsHigher(xs: seq<real>, fast: real, slow: real, t: nat)
    requires t < |xs| && 0.0 <= slow <= fast <= 1.0 && Rising(xs, t)
    ensures Ewm(xs, slow, t) <= Ewm(xs, fast, t)
  {
    if t > 0 {
      FasterIsHigher(xs, fast, slow, t - 1);
      EwmOfRising(xs, slow, t - 1);
      assert Delta(xs, t - 1) >= 0.0;
      BlendFaster(Ewm(xs, fast, t - 1), Ewm(xs, slow, t - 1), xs[t], fast, slow);
    }
  }

  lemma {:induction false} EwmReflected(xs: seq<real>, ys: seq<real>, C: real, alpha: real, t: nat)
    requires t < |xs| == |ys| && forall i | 0 <= i < |xs| :: ys[i] == C - xs[i]
    ensures Ewm(ys, alpha, t) == C - Ewm(xs, alpha, t)
  {
    if t > 0 {
      EwmReflected(xs, ys, C, alpha, t - 1);
      BlendReflected(Ewm(xs, alpha, t - 1), xs[t], C, alpha);
    }
  }
}
