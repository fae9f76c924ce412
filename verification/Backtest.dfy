/**
  The metrics of `run_backtest`, on closes as exact reals. The pandas steps are written out:
  `pct_change().dropna()`, `cumprod()`, `cummax()`, `min()` and the masked sums.
 */
module Backtest {
  import opened Seqs
  import opened Reals
  import opened Inequality

  // A close series as the loader hands it over: all prices positive.
  ghost predicate Closes(c: seq<real>) {
    |c| >= 1 && AllPositive(c)
  }

  // pct_change without its first, undefined entry
  function Returns(c: seq<real>): (r: seq<real>)
    requires AllPositive(c)
    ensures |r| == if c == [] then 0 else |c| - 1
  {
    if c == [] then [] else seq(|c| - 1, i requires 0 <= i < |c| - 1 => c[i + 1] / c[i] - 1.0)
  }

  function Growth(rs: seq<real>): (g: seq<real>) {
    seq(|rs|, i requires 0 <= i < |rs| => 1.0 + rs[i])
  }

  function CumProd(xs: seq<real>): (p: seq<real>)
    ensures |p| == |xs|
  {
    if xs == [] then [] else
    var before := CumProd(xs[..|xs| - 1]);
    before + [Compounded(before, xs[|xs| - 1])]
  }

  // The running product with one more factor.
  function Compounded(before: seq<real>, x: real): real {
    if before == [] then x else before[|before| - 1] * x
  }

  function CumMax(xs: seq<real>): (m: seq<real>)
    ensures |m| == |xs|
  {
    if xs == [] then [] else
    var before := CumMax(xs[..|xs| - 1]);
    before + [if before == [] then xs[0] else Max(before[|before| - 1], xs[|xs| - 1])]
  }

  function MinOf(xs: seq<real>): (m: real)
    requires xs != []
    ensures m in xs && forall i | 0 <= i < |xs| :: m <= xs[i]
  {
    if |xs| == 1 then xs[0] else Min(MinOf(xs[..|xs| - 1]), xs[|xs| - 1])
  }

  // ---- The equity curve and its drawdown

  function Equity(c: seq<real>): seq<real>
    requires AllPositive(c)
  {
    CumProd(Growth(Returns(c)))
  }

  lemma GrowthStep(c: seq<real>)
    requires Closes(c) && |c| >= 2
    ensures Growth(Returns(c)) == Growth(Returns(c[..|c| - 1])) + [c[|c| - 1] / c[|c| - 2]]
  {
  }

  lemma CumProdStep(g: seq<real>, x: real)
    ensures CumProd(g + [x]) == CumProd(g) + [Compounded(CumProd(g), x)]
  {
    var h := g + [x];
    assert h[..|h| - 1] == g && h[|h| - 1] == x;
  }

  lemma CompoundedClose(e: seq<real>, x: real, y: real, first: real)
    requires y != 0.0 && first != 0.0 && if e == [] then y == first else e[|e| - 1] == y / first
    ensures Compounded(e, x / y) == x / first
  {
    DivChain(x, y, first);
  }

  // One more close adds one point to the curve.
  lemma EquityStep(c: seq<real>)
    requires Closes(c) && |c| >= 2
    requires var e := Equity(c[..|c| - 1]);
             |e| == |c| - 2 && (e != [] ==> e[|e| - 1] == c[|c| - 2] / c[0])
    ensures Equity(c) == Equity(c[..|c| - 1]) + [c[|c| - 1] / c[0]]
  {
    GrowthStep(c);
    CumProdStep(Growth(Returns(c[..|c| - 1])), c[|c| - 1] / c[|c| - 2]);
    CompoundedClose(Equity(c[..|c| - 1]), c[|c| - 1], c[|c| - 2], c[0]);
  }

  // The product telescopes: the curve is the closes from the second on, in units of the first.
  lemma {:induction false} EquityTelescopes(c: seq<real>)
    requires Closes(c)
    ensures |Equity(c)| == |c| - 1
    ensures forall i | 0 <= i < |c| - 1 :: Equity(c)[i] == c[i + 1] / c[0]
    decreases |c|
  {
    if |c| > 1 {
      EquityTelescopes(c[..|c| - 1]);
      EquityStep(c);
    }
  }

  function Drawdowns(equity: seq<real>): (d: seq<real>)
    requires AllPositive(equity)
    ensures |d| == |equity|
  {
    CumMaxDominates(equity);
    var peaks := CumMax(equity);
    seq(|equity|, i requires 0 <= i < |equity| => equity[i] / peaks[i] - 1.0)
  }

  lemma {:induction false} CumMaxDominates(xs: seq<real>)
    ensures forall i, j | 0 <= i <= j < |xs| :: xs[i] <= CumMax(xs)[j]
  {
    if xs != [] {
      var init := xs[..|xs| - 1];
      CumMaxDominates(init);
      forall i, j | 0 <= i <= j < |xs|
        ensures xs[i] <= CumMax(xs)[j]
      {
        if j < |init| {
          assert init[i] <= CumMax(init)[j];
        } else if i < |init| {
          assert init[i] <= CumMax(init)[|init| - 1];
        }
      }
    }
  }

  lemma {:induction false} CumMaxAttained(xs: seq<real>, j: nat) returns (i: nat)
    requires j < |xs|
    ensures i <= j && CumMax(xs)[j] == xs[i]
    decreases |xs|
  {
    var init := xs[..|xs| - 1];
    if j < |init| {
      i := CumMaxAttained(init, j);
    } else if init == [] || CumMax(xs)[j] == xs[j] {
      i := j;
    } else {
      i := CumMaxAttained(init, j - 1);
    }
  }

  // abs(drawdown_series.min())
  function MaxDrawdown(c: seq<real>): real
    requires Closes(c) && |c| >= 2
  {
    EquityPositive(c);
    Abs(MinOf(Drawdowns(Equity(c))))
  }

  lemma EquityPositive(c: seq<real>)
    requires Closes(c)
    ensures |Equity(c)| == |c| - 1 && AllPositive(Equity(c))
  {
    EquityTelescopes(c);
    forall i | 0 <= i < |c| - 1
      ensures Equity(c)[i] > 0.0
    {
      DivPositive(c[i + 1], c[0]);
    }
  }

  // The fall from one close to a later one, as a fraction of the former.
  function Fall(c: seq<real>, i: nat, j: nat): real
    requires AllPositive(c) && i < |c| && j < |c|
  {
    1.0 - c[j] / c[i]
  }

  // On any positive curve: each drawdown is measured from the highest point so far.
  lemma DrawdownFromPeak(e: seq<real>, j: nat) returns (p: nat)
    requires AllPositive(e) && j < |e|
    ensures p <= j && Drawdowns(e)[j] == e[j] / e[p] - 1.0
    ensures forall i | 0 <= i <= j :: e[i] <= e[p]
  {
    CumMaxDominates(e);
    p := CumMaxAttained(e, j);
  }

  lemma FallOrder(c: seq<real>, i: nat, p: nat, j: nat)
    requires AllPositive(c) && i < |c| && p < |c| && j < |c|
    requires c[i] / c[0] <= c[p] / c[0]
    ensures Fall(c, i, j) <= Fall(c, p, j)
  {
    DivNumerator(c[i], c[p], c[0]);
    DivDenominator(c[j], c[i], c[p]);
  }

  lemma DrawdownAt(c: seq<real>, j: nat) returns (peak: nat)
    requires Closes(c) && 1 <= j < |c|
    ensures 1 <= peak <= j
    ensures |Equity(c)| == |c| - 1 && AllPositive(Equity(c))
    ensures Drawdowns(Equity(c))[j - 1] == -Fall(c, peak, j)
    ensures forall i | 1 <= i <= j :: Fall(c, i, j) <= Fall(c, peak, j)
  {
    EquityPositive(c);
    EquityTelescopes(c);
    var e := Equity(c);
    var p := DrawdownFromPeak(e, j - 1);
    peak := p + 1;
    assert e[j - 1] == c[j] / c[0] && e[p] == c[peak] / c[0];
    DivCommon(c[j], c[peak], c[0]);
    forall i | 1 <= i <= j
      ensures Fall(c, i, j) <= Fall(c, peak, j)
    {
      assert e[i - 1] == c[i] / c[0];
      FallOrder(c, i, peak, j);
    }
  }

  lemma NoFall(c: seq<real>, i: nat, j: nat)
    requires AllPositive(c) && i < |c| && j < |c|
    ensures Fall(c, j, j) == 0.0 && Fall(c, i, j) < 1.0
  {
    DivUnique(c[j], c[j], 1.0);
    DivPositive(c[j], c[i]);
  }

  // The one-pass drawdown is the worst fall between any two closes from the second on, and a
  // number in [0, 1), so that clamping it changes nothing.
  lemma MaxDrawdownIsWorstFall(c: seq<real>)
    requires Closes(c) && |c| >= 2
    ensures forall i, j | 1 <= i <= j < |c| :: Fall(c, i, j) <= MaxDrawdown(c)
    ensures exists i, j | 1 <= i <= j < |c| :: Fall(c, i, j) == MaxDrawdown(c)
    ensures 0.0 <= MaxDrawdown(c) < 1.0
  {
    var i, j := WorstFall(c);
    forall i', j' | 1 <= i' <= j' < |c|
      ensures Fall(c, i', j') <= MaxDrawdown(c)
    {
      FallWithin(c, i', j');
    }
  }

  lemma WorstFall(c: seq<real>) returns (i: nat, j: nat)
    requires Closes(c) && |c| >= 2
    ensures 1 <= i <= j < |c| && Fall(c, i, j) == MaxDrawdown(c)
    ensures 0.0 <= MaxDrawdown(c) < 1.0
  {
    EquityPositive(c);
    var d := Drawdowns(Equity(c));
    var k :| 0 <= k < |d| && d[k] == MinOf(d);
    j := k + 1;
    i := DrawdownAt(c, j);
    NoFall(c, i, j);
    assert Fall(c, j, j) <= Fall(c, i, j);
  }

  lemma FallWithin(c: seq<real>, i: nat, j: nat)
    requires Closes(c) && 1 <= i <= j < |c|
    ensures Fall(c, i, j) <= MaxDrawdown(c)
  {
    var peak := DrawdownAt(c, j);
    var d := Drawdowns(Equity(c));
    assert MinOf(d) <= d[j - 1];
  }

  // The first close never counts as a peak: a series that only falls from its first close
  // reports no drawdown at all.
  lemma FirstFallUncounted()
    ensures MaxDrawdown([2.0, 1.0]) == 0.0 && Fall([2.0, 1.0], 0, 1) == 0.5
  {
    MaxDrawdownIsWorstFall([2.0, 1.0]);
    var i, j :| 1 <= i <= j < 2 && Fall([2.0, 1.0], i, j) == MaxDrawdown([2.0, 1.0]);
  }

  // The fall from the first close to the lowest.
  function FirstFall(c: seq<real>): real
    requires Closes(c)
  {
    1.0 - MinOf(c) / c[0]
  }

  lemma LowestFall(c: seq<real>, j: nat)
    requires Closes(c) && j < |c|
    ensures Fall(c, 0, j) <= FirstFall(c)
    ensures c[j] == MinOf(c) ==> Fall(c, 0, j) == FirstFall(c)
  {
    DivNumerator(MinOf(c), c[j], c[0]);
  }

  // a/b <= d/e without quotients
  predicate Crosswise(a: real, b: real, d: real, e: real) {
    a * e <= d * b
  }

  // The close falls by at least as large a fraction from i to j as from the first close to the
  // lowest.
  predicate FallsAsFar(c: seq<real>, i: nat, j: nat)
    requires c != [] && i < |c| && j < |c|
  {
    Crosswise(c[j], c[i], MinOf(c), c[0])
  }

  lemma FallFurther(a: real, b: real, low: real, first: real)
    requires b > 0.0 && first > 0.0
    ensures Crosswise(a, b, low, first) <==> 1.0 - low / first <= 1.0 - a / b
  {
    CrossMultiplied(a, b, low, first);
  }

  lemma FallsAsFarMeans(c: seq<real>, i: nat, j: nat)
    requires Closes(c) && i < |c| && j < |c|
    ensures FallsAsFar(c, i, j) <==> FirstFall(c) <= Fall(c, i, j)
  {
    FallFurther(c[j], c[i], MinOf(c), c[0]);
  }

  lemma WholeSeries(c: seq<real>)
    requires Closes(c) && |c| >= 2
    ensures (forall i, j | 0 <= i <= j < |c| :: Fall(c, i, j) <= MaxDrawdown(c)) <==> FirstFall(c) <= MaxDrawdown(c)
  {
    var j :| 0 <= j < |c| && c[j] == MinOf(c);
    LowestFall(c, j);
    forall i, j | 0 <= i <= j < |c| && FirstFall(c) <= MaxDrawdown(c)
      ensures Fall(c, i, j) <= MaxDrawdown(c)
    {
      if i > 0 {
        FallWithin(c, i, j);
      } else {
        LowestFall(c, j);
      }
    }
  }

  // The reported number covers the whole series exactly when some fall between two closes from
  // the second on is as far as the one from the first close to the lowest.
  lemma FirstCloseMatters(c: seq<real>)
    requires Closes(c) && |c| >= 2
    ensures (forall i, j | 0 <= i <= j < |c| :: Fall(c, i, j) <= MaxDrawdown(c)) <==>
            (exists i, j | 1 <= i <= j < |c| :: FallsAsFar(c, i, j))
  {
    WholeSeries(c);
    var i, j := WorstFall(c);
    FallsAsFarMeans(c, i, j);
    if i', j' :| 1 <= i' <= j' < |c| && FallsAsFar(c, i', j') {
      FallsAsFarMeans(c, i', j');
      FallWithin(c, i', j');
    }
  }

  // ---- Profit and loss

  function Gains(rs: seq<real>): seq<real> {
    if rs == [] then [] else (if rs[0] > 0.0 then [rs[0]] else []) + Gains(rs[1..])
  }

  function Losses(rs: seq<real>): seq<real> {
    if rs == [] then [] else (if rs[0] < 0.0 then [rs[0]] else []) + Losses(rs[1..])
  }

  function Trades(rs: seq<real>): (n: nat)
    ensures n <= |rs|
  {
    if rs == [] then 0 else (if Abs(rs[0]) > 0.0 then 1 else 0) + Trades(rs[1..])
  }

  function GrossProfit(c: seq<real>): real
    requires AllPositive(c)
  {
    Sum(Gains(Returns(c)))
  }

  function GrossLoss(c: seq<real>): real
    requires AllPositive(c)
  {
    Abs(Sum(Losses(Returns(c))))
  }

  datatype Metrics = Metrics(totalReturn: real, maxDrawdown: real, winRate: real, profitFactor: real, tradeCount: real)

  function Clamp(x: real): real {
    Min(Max(x, 0.0), 1.0)
  }

  function TotalReturn(c: seq<real>): real
    requires Closes(c)
  {
    c[|c| - 1] / c[0] - 1.0
  }

  function ProfitFactor(c: seq<real>): real
    requires AllPositive(c)
  {
    if GrossLoss(c) > 1e-12 then GrossProfit(c) / GrossLoss(c) else GrossProfit(c)
  }

  // The share of periods that gained.
  function WinRate(rs: seq<real>): real
    requires rs != []
  {
    |Gains(rs)| as real / |rs| as real
  }

  function RunBacktest(c: seq<real>): Metrics
    requires AllPositive(c)
  {
    var rs := Returns(c);
    if rs == [] then Metrics(0.0, 0.0, 0.0, 0.0, 0.0)
    else Metrics(TotalReturn(c), Clamp(MaxDrawdown(c)), Clamp(WinRate(rs)), Max(ProfitFactor(c), 0.0), Max(Trades(rs) as real, 0.0))
  }

  lemma {:induction false} GainsAndLosses(rs: seq<real>)
    ensures Sum(rs) == Sum(Gains(rs)) + Sum(Losses(rs))
    ensures Sum(Gains(rs)) >= 0.0 >= Sum(Losses(rs))
    ensures |Gains(rs)| + |Losses(rs)| == Trades(rs)
    ensures Trades(rs) > 0 <==> exists i :: 0 <= i < |rs| && rs[i] != 0.0
  {
    if rs != [] {
      var rest := rs[1..];
      GainsAndLosses(rest);
      if rs[0] > 0.0 {
        ConsSumProduct(rs[0], Gains(rest));
      } else if rs[0] < 0.0 {
        ConsSumProduct(rs[0], Losses(rest));
      }
      assert [] + Gains(rest) == Gains(rest) && [] + Losses(rest) == Losses(rest);
      if Trades(rest) > 0 {
        var i :| 0 <= i < |rest| && rest[i] != 0.0;
        assert rs[i + 1] != 0.0;
      }
      if exists i :: 0 <= i < |rs| && rs[i] != 0.0 {
        var i :| 0 <= i < |rs| && rs[i] != 0.0;
        assert i > 0 ==> rest[i - 1] != 0.0;
      }
    }
  }

  // A period gains when its close is above the one before, and loses when it is below.
  lemma ReturnSign(c: seq<real>, i: nat)
    requires AllPositive(c) && i + 1 < |c|
    ensures Returns(c)[i] > 0.0 <==> c[i + 1] > c[i]
    ensures Returns(c)[i] < 0.0 <==> c[i + 1] < c[i]
  {
    DivNumerator(c[i], c[i + 1], c[i]);
    DivNumerator(c[i + 1], c[i], c[i]);
    DivUnique(c[i], c[i], 1.0);
  }

  lemma ChainFactored(whole: real, rest: real, a: real, b: real, c: real)
    requires b != 0.0 && c != 0.0 && rest == a / b && Factored(whole, b / c, rest)
    ensures whole == a / c
  {
    DivChain(a, b, c);
  }

  lemma {:induction false} GrowthProduct(c: seq<real>)
    requires Closes(c)
    ensures Product(Growth(Returns(c))) == c[|c| - 1] / c[0]
  {
    if |c| == 1 {
      DivUnique(c[0], c[0], 1.0);
    } else {
      var d := c[1..];
      GrowthProduct(d);
      var g, later := Growth(Returns(c)), Growth(Returns(d));
      assert g == [c[1] / c[0]] + later;
      FactorIn(c[1] / c[0], later, g);
      ChainFactored(Product(g), Product(later), d[|d| - 1], c[1], c[0]);
    }
  }

  lemma {:induction false} GrowthSum(rs: seq<real>)
    ensures Sum(Growth(rs)) == |rs| as real + Sum(rs)
  {
    if rs != [] {
      GrowthSum(rs[1..]);
      assert Growth(rs)[1..] == Growth(rs[1..]);
    }
  }

  lemma GrowthPositive(c: seq<real>)
    requires AllPositive(c)
    ensures AllPositive(Growth(Returns(c)))
  {
    var g := Growth(Returns(c));
    forall i | 0 <= i < |g|
      ensures g[i] > 0.0
    {
      DivPositive(c[i + 1], c[i]);
    }
  }

  // Any trading that does not end below its start made more than it lost, period by period;
  // ending above the start implies that there was trading.
  lemma ReturnImpliesProfit(c: seq<real>)
    requires Closes(c)
    ensures TotalReturn(c) > 0.0 ==> Trades(Returns(c)) > 0
    ensures TotalReturn(c) >= 0.0 && Trades(Returns(c)) > 0 ==> GrossProfit(c) > GrossLoss(c)
  {
    var rs := Returns(c);
    var g := Growth(rs);
    GainsAndLosses(rs);
    if Sum(rs) <= 0.0 {
      assert Product(g) <= 1.0 && (Trades(rs) > 0 ==> Product(g) < 1.0) by {
        GrowthPositive(c);
        GrowthSum(rs);
        ProductAtMostOne(g);
        if Trades(rs) > 0 {
          var i :| 0 <= i < |rs| && rs[i] != 0.0;
          assert g[i] != 1.0;
        }
      }
      GrowthProduct(c);
    } else {
      assert Trades(rs) > 0 by {
        NoTradesNoSum(rs);
      }
    }
  }

  lemma {:induction false} NoTradesNoSum(rs: seq<real>)
    ensures Trades(rs) == 0 ==> Sum(rs) == 0.0
  {
    if rs != [] {
      NoTradesNoSum(rs[1..]);
    }
  }

  // Hence the reported profit factor is above 1 whenever it is a quotient at all, and above
  // the loss (below 1e-12) when the code reports the profit itself instead.
  lemma ReturnImpliesProfitFactor(c: seq<real>)
    requires Closes(c) && |c| >= 2
    ensures var m := RunBacktest(c);
            m.totalReturn >= 0.0 && m.tradeCount > 0.0 ==>
              if GrossLoss(c) > 1e-12 then m.profitFactor > 1.0 else m.profitFactor == GrossProfit(c) > GrossLoss(c)
  {
    ReturnImpliesProfit(c);
    if GrossProfit(c) > GrossLoss(c) {
      ProfitFactorAboveOne(c);
    }
  }

  lemma ProfitFactorAboveOne(c: seq<real>)
    requires AllPositive(c) && GrossProfit(c) > GrossLoss(c)
    ensures ProfitFactor(c) >= 0.0
    ensures GrossLoss(c) > 1e-12 ==> ProfitFactor(c) > 1.0
  {
    var profit, loss := GrossProfit(c), GrossLoss(c);
    if loss > 1e-12 {
      QuotientAboveOne(profit, loss);
    }
  }

  // The converse fails: a profit factor above 1 goes with a loss over the whole period.
  lemma ProfitFactorWithoutReturn()
    ensures var c := [4.0, 8.0, 3.6];
            RunBacktest(c).profitFactor > 1.0 && RunBacktest(c).totalReturn < 0.0
  {
    var c := [4.0, 8.0, 3.6];
    assert Returns(c) == [1.0, -0.55];
    GainThenLoss(1.0, -0.55);
    ProfitFactorAboveOne(c);
  }

  lemma GainThenLoss(gain: real, loss: real)
    requires gain > 0.0 > loss
    ensures Sum(Gains([gain, loss])) == gain && Sum(Losses([gain, loss])) == loss
  {
    var rs := [gain, loss];
    assert rs[1..] == [loss] && rs[1..][1..] == [];
    assert Gains(rs[1..]) == [] && Losses(rs[1..]) == [loss];
    assert Gains(rs) == [gain] && Losses(rs) == [loss];
  }

  // ---- Units

  function Scaled(c: seq<real>, k: real): (d: seq<real>)
    ensures |d| == |c|
  {
    seq(|c|, i requires 0 <= i < |c| => k * c[i])
  }

  lemma ScaledPositive(c: seq<real>, k: real)
    requires AllPositive(c) && k > 0.0
    ensures AllPositive(Scaled(c, k))
  {
    forall i | 0 <= i < |c|
      ensures Scaled(c, k)[i] > 0.0
    {
      MulPositive(k, c[i]);
    }
  }

  lemma ScaledReturn(c: seq<real>, k: real, i: nat)
    requires AllPositive(c) && AllPositive(Scaled(c, k)) && k > 0.0 && i + 1 < |c|
    ensures Returns(Scaled(c, k))[i] == Returns(c)[i]
  {
    DivScaled(c[i + 1], c[i], k);
  }

  lemma ScaledReturns(c: seq<real>, k: real)
    requires AllPositive(c) && AllPositive(Scaled(c, k)) && k > 0.0
    ensures Returns(Scaled(c, k)) == Returns(c)
  {
    forall i | 0 <= i < |c| - 1
      ensures Returns(Scaled(c, k))[i] == Returns(c)[i]
    {
      ScaledReturn(c, k, i);
    }
  }

  lemma ScaledTotal(c: seq<real>, k: real)
    requires Closes(c) && Closes(Scaled(c, k)) && k > 0.0
    ensures TotalReturn(Scaled(c, k)) == TotalReturn(c)
  {
    DivScaled(c[|c| - 1], c[0], k);
  }

  // No metric depends on the unit the prices are quoted in.
  lemma MetricsScaleFree(c: seq<real>, k: real)
    requires AllPositive(c) && k > 0.0
    ensures AllPositive(Scaled(c, k))
    ensures RunBacktest(Scaled(c, k)) == RunBacktest(c)
  {
    ScaledPositive(c, k);
    ScaledReturns(c, k);
    if |c| >= 2 {
      ScaledTotal(c, k);
      assert MaxDrawdown(Scaled(c, k)) == MaxDrawdown(c);
    }
  }

  // Every clamp in the reported metrics is inactive.
  lemma ClampsInactive(c: seq<real>)
    requires Closes(c) && |c| >= 2
    ensures RunBacktest(c) == Metrics(TotalReturn(c), MaxDrawdown(c), WinRate(Returns(c)), ProfitFactor(c), Trades(Returns(c)) as real)
  {
    var i, j := WorstFall(c);
    WinRateWithin(Returns(c));
    ProfitFactorNonNegative(c);
  }

  lemma WinRateWithin(rs: seq<real>)
    requires rs != []
    ensures 0.0 <= WinRate(rs) <= 1.0
  {
    GainsAndLosses(rs);
    QuotientWithinOne(|Gains(rs)| as real, |rs| as real);
  }

  lemma ProfitFactorNonNegative(c: seq<real>)
    requires AllPositive(c)
    ensures ProfitFactor(c) >= 0.0
  {
    GainsAndLosses(Returns(c));
    if GrossLoss(c) > 1e-12 {
      QuotientNonNegative(GrossProfit(c), GrossLoss(c));
    }
  }

  // ---- The metrics in terms of the closes

  predicate RisesAt(c: seq<real>, i: int)
    requires 0 <= i < |c| - 1
  {
    c[i + 1] > c[i]
  }

  predicate MovesAt(c: seq<real>, i: int)
    requires 0 <= i < |c| - 1
  {
    c[i + 1] != c[i]
  }

  // The periods in which the close rose, and those in which it moved at all.
  function Rises(c: seq<real>): set<int> {
    set i | 0 <= i < |c| - 1 && RisesAt(c, i)
  }

  function Moves(c: seq<real>): set<int> {
    set i | 0 <= i < |c| - 1 && MovesAt(c, i)
  }

  // What the first n periods gained, and what they lost, as fractions of their first closes.
  function GainUpTo(c: seq<real>, n: nat): real
    requires AllPositive(c) && n < |c|
  {
    if n == 0 then 0.0 else GainUpTo(c, n - 1) + if c[n] > c[n - 1] then c[n] / c[n - 1] - 1.0 else 0.0
  }

  function LossUpTo(c: seq<real>, n: nat): real
    requires AllPositive(c) && n < |c|
  {
    if n == 0 then 0.0 else LossUpTo(c, n - 1) + if c[n] < c[n - 1] then 1.0 - c[n] / c[n - 1] else 0.0
  }

  lemma {:induction false} SumSnoc(xs: seq<real>, x: real)
    ensures Sum(xs + [x]) == Sum(xs) + x
  {
    if xs == [] {
      assert (xs + [x])[1..] == [];
    } else {
      assert (xs + [x])[1..] == xs[1..] + [x];
      SumSnoc(xs[1..], x);
    }
  }

  lemma {:induction false} GainsSnoc(rs: seq<real>, x: real)
    ensures Gains(rs + [x]) == Gains(rs) + if x > 0.0 then [x] else []
  {
    if rs == [] {
      assert (rs + [x])[1..] == [];
    } else {
      assert (rs + [x])[1..] == rs[1..] + [x];
      GainsSnoc(rs[1..], x);
      Assoc(if rs[0] > 0.0 then [rs[0]] else [], Gains(rs[1..]), if x > 0.0 then [x] else []);
    }
  }

  lemma {:induction false} LossesSnoc(rs: seq<real>, x: real)
    ensures Losses(rs + [x]) == Losses(rs) + if x < 0.0 then [x] else []
  {
    if rs == [] {
      assert (rs + [x])[1..] == [];
    } else {
      assert (rs + [x])[1..] == rs[1..] + [x];
      LossesSnoc(rs[1..], x);
      Assoc(if rs[0] < 0.0 then [rs[0]] else [], Losses(rs[1..]), if x < 0.0 then [x] else []);
    }
  }

  lemma {:induction false} TradesSnoc(rs: seq<real>, x: real)
    ensures Trades(rs + [x]) == Trades(rs) + if x != 0.0 then 1 else 0
  {
    if rs == [] {
      assert (rs + [x])[1..] == [];
    } else {
      assert (rs + [x])[1..] == rs[1..] + [x];
      TradesSnoc(rs[1..], x);
    }
  }

  lemma ReturnsSnoc(c: seq<real>)
    requires AllPositive(c) && |c| >= 2
    ensures Returns(c) == Returns(c[..|c| - 1]) + [c[|c| - 1] / c[|c| - 2] - 1.0]
  {
  }

  lemma LastRise(c: seq<real>)
    requires |c| >= 2
    ensures Rises(c) == Rises(c[..|c| - 1]) + if c[|c| - 1] > c[|c| - 2] then {|c| - 2} else {}
    ensures Moves(c) == Moves(c[..|c| - 1]) + if c[|c| - 1] != c[|c| - 2] then {|c| - 2} else {}
    ensures |c| - 2 !in Rises(c[..|c| - 1]) && |c| - 2 !in Moves(c[..|c| - 1])
  {
  }

  lemma LastReturn(c: seq<real>)
    requires AllPositive(c) && |c| >= 2
    ensures var x := c[|c| - 1] / c[|c| - 2] - 1.0;
            && (x > 0.0 <==> c[|c| - 1] > c[|c| - 2])
            && (x < 0.0 <==> c[|c| - 1] < c[|c| - 2])
  {
    ReturnSign(c, |c| - 2);
  }

  lemma {:induction false} CountsOfCloses(c: seq<real>)
    requires Closes(c)
    ensures |Gains(Returns(c))| == |Rises(c)| && Trades(Returns(c)) == |Moves(c)|
    decreases |c|
  {
    if |c| == 1 {
      assert Rises(c) == {} && Moves(c) == {};
    } else {
      CountsOfCloses(c[..|c| - 1]);
      ReturnsSnoc(c);
      LastRise(c);
      LastReturn(c);
      GainsSnoc(Returns(c[..|c| - 1]), c[|c| - 1] / c[|c| - 2] - 1.0);
      TradesSnoc(Returns(c[..|c| - 1]), c[|c| - 1] / c[|c| - 2] - 1.0);
    }
  }

  lemma {:induction false} UpToPrefix(c: seq<real>, n: nat)
    requires AllPositive(c) && n < |c| - 1
    ensures GainUpTo(c[..|c| - 1], n) == GainUpTo(c, n) && LossUpTo(c[..|c| - 1], n) == LossUpTo(c, n)
  {
    if n > 0 {
      UpToPrefix(c, n - 1);
    }
  }

  lemma {:induction false} SumsOfCloses(c: seq<real>)
    requires Closes(c)
    ensures Sum(Gains(Returns(c))) == GainUpTo(c, |c| - 1)
    ensures Sum(Losses(Returns(c))) == -LossUpTo(c, |c| - 1)
    decreases |c|
  {
    if |c| > 1 {
      var x := c[|c| - 1] / c[|c| - 2] - 1.0;
      SumsOfCloses(c[..|c| - 1]);
      UpToPrefix(c, |c| - 2);
      ReturnsSnoc(c);
      LastReturn(c);
      GainsSnoc(Returns(c[..|c| - 1]), x);
      LossesSnoc(Returns(c[..|c| - 1]), x);
      SumSnoc(Gains(Returns(c[..|c| - 1])), x);
      SumSnoc(Losses(Returns(c[..|c| - 1])), x);
      assert Gains(Returns(c[..|c| - 1])) + [] == Gains(Returns(c[..|c| - 1]));
      assert Losses(Returns(c[..|c| - 1])) + [] == Losses(Returns(c[..|c| - 1]));
    }
  }

  lemma QuotientFactored(a: real, b: real)
    requires b != 0.0
    ensures Factored(a, a / b, b)
  {
    DivMul(a, b);
  }

  lemma ReturnOfCloses(c: seq<real>)
    requires Closes(c)
    ensures Factored(c[|c| - 1], 1.0 + TotalReturn(c), c[0])
    ensures Product(Growth(Returns(c))) == 1.0 + TotalReturn(c)
  {
    QuotientFactored(c[|c| - 1], c[0]);
    GrowthProduct(c);
  }

  lemma WinsOfCloses(c: seq<real>)
    requires Closes(c) && |c| >= 2
    ensures Factored(|Rises(c)| as real, WinRate(Returns(c)), (|c| - 1) as real)
  {
    CountsOfCloses(c);
    QuotientFactored(|Gains(Returns(c))| as real, |Returns(c)| as real);
  }

  lemma FactorOf(c: seq<real>)
    requires AllPositive(c)
    ensures if GrossLoss(c) > 1e-12 then Factored(GrossProfit(c), ProfitFactor(c), GrossLoss(c))
            else ProfitFactor(c) == GrossProfit(c)
  {
    if GrossLoss(c) > 1e-12 {
      QuotientFactored(GrossProfit(c), GrossLoss(c));
    }
  }

  lemma GrossOfCloses(c: seq<real>)
    requires Closes(c)
    ensures GrossProfit(c) == GainUpTo(c, |c| - 1) && GrossLoss(c) == LossUpTo(c, |c| - 1)
  {
    SumsOfCloses(c);
    GainsAndLosses(Returns(c));
  }

  // What each reported number means: the return multiplies the first close into the last, and
  // is the product of the periods' growth; the win rate and the trade count count closes; and
  // the profit factor multiplies what was lost into what was gained.
  lemma MetricsOfCloses(c: seq<real>)
    requires Closes(c) && |c| >= 2
    ensures var m, n := RunBacktest(c), |c| - 1;
            && Factored(c[n], 1.0 + m.totalReturn, c[0])
            && Product(Growth(Returns(c))) == 1.0 + m.totalReturn
            && Factored(|Rises(c)| as real, m.winRate, n as real)
            && m.tradeCount == |Moves(c)| as real
            && (if LossUpTo(c, n) > 1e-12 then Factored(GainUpTo(c, n), m.profitFactor, LossUpTo(c, n))
                else m.profitFactor == GainUpTo(c, n))
  {
    ClampsInactive(c);
    ReturnOfCloses(c);
    WinsOfCloses(c);
    CountsOfCloses(c);
    FactorOf(c);
    GrossOfCloses(c);
  }
}
