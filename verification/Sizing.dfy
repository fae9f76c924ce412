/** `_compute_order_qty`: the order size from balance, price and volatility, on exact reals. */
module Sizing {
  import opened Reals

  datatype Input = Input(balance: real, closePrice: real, atrValue: real, maxPositionSize: real,
                         riskFraction: real, minOrderQty: real, qtyStep: real)
  {
    function Close(): (r: real)
      ensures r >= 1e-9
    {
      Max(closePrice, 1e-9)
    }

    function Atr(): (r: real)
      ensures r >= 1e-9
    {
      Max(atrValue, 1e-9)
    }

    function Step(): (r: real)
      ensures r >= 1e-9
    {
      Max(qtyStep, 1e-9)
    }

    function RiskBudget(): real {
      balance * Max(riskFraction, 0.0)
    }

    function MaxNotional(): real {
      balance * Max(maxPositionSize, 0.0)
    }

    function RawQty(): real {
      Min(RiskBudget() / Atr(), MaxNotional() / Close())
    }

    function Floored(): real {
      FloorTo(RawQty(), Step())
    }

    function Rounded(): real {
      Settle(Floored())
    }

    function Qty(): real {
      if Rounded() >= minOrderQty then Rounded() else 0.0
    }
  }

  // Nearest integer, halves to the even one
  function RoundHalfEven(x: real): int {
    var below := x.Floor;
    var rest := x - below as real;
    if rest < 0.5 then below
    else if rest > 0.5 then below + 1
    else if below % 2 == 0 then below
    else below + 1
  }

  const SCALE := 100000000.0

  // round(x, 8)
  function Round8(x: real): real {
    RoundHalfEven(x * SCALE) as real / SCALE
  }

  // math.floor(raw / step) * step
  function FloorTo(raw: real, step: real): real
    requires step > 0.0
  {
    (raw / step).Floor as real * step
  }

  // round(max(x, 0.0), 8)
  function Settle(x: real): real {
    Round8(Max(x, 0.0))
  }

  // ---- Rounding

  lemma RoundNearest(x: real)
    ensures -0.5 <= RoundHalfEven(x) as real - x <= 0.5
    ensures x >= 0.0 ==> RoundHalfEven(x) >= 0
  {
  }

  // Nearest, and even on a tie, leaves one integer.
  lemma RoundUnique(x: real, r: int)
    requires -0.5 <= r as real - x <= 0.5
    requires (r as real - x == 0.5 || r as real - x == -0.5) ==> r % 2 == 0
    ensures r == RoundHalfEven(x)
  {
    var below := x.Floor;
    assert r == below || r == below + 1;
  }

  lemma RoundMonotone(x: real, y: real)
    requires x <= y
    ensures RoundHalfEven(x) <= RoundHalfEven(y)
  {
    assert x.Floor <= y.Floor;
  }

  lemma RoundInteger(n: int)
    ensures RoundHalfEven(n as real) == n
  {
  }

  lemma Round8Nearest(x: real)
    ensures x - 0.000000005 <= Round8(x) <= x + 0.000000005
    ensures x >= 0.0 ==> Round8(x) >= 0.0
  {
    RoundNearest(x * SCALE);
  }

  lemma Round8Monotone(x: real, y: real)
    requires x <= y
    ensures Round8(x) <= Round8(y)
  {
    RoundMonotone(x * SCALE, y * SCALE);
  }

  // A whole number of units of the eighth decimal.
  predicate OnGrid(x: real) {
    (x * SCALE).Floor as real == x * SCALE
  }

  lemma Round8OnGrid(x: real)
    requires OnGrid(x)
    ensures Round8(x) == x
  {
    RoundInteger((x * SCALE).Floor);
  }

  lemma GridMultiple(step: real, n: int)
    requires OnGrid(step)
    ensures OnGrid(n as real * step)
  {
    var k := (step * SCALE).Floor;
    var x := n as real * step;
    assert x * SCALE == n as real * (step * SCALE) == (n * k) as real;
  }

  lemma SettleBounds(x: real)
    ensures Settle(x) >= 0.0
    ensures Settle(x) > 0.0 ==> x > 0.0 && Settle(x) <= x + 0.000000005
    ensures OnGrid(x) ==> Settle(x) == Max(x, 0.0)
  {
    Round8Nearest(Max(x, 0.0));
    RoundInteger(0);
    assert Round8(0.0) == 0.0;
    if OnGrid(x) && x > 0.0 {
      Round8OnGrid(x);
    }
  }

  lemma SettleMonotone(x: real, y: real)
    requires x <= y
    ensures Settle(x) <= Settle(y)
  {
    Round8Monotone(Max(x, 0.0), Max(y, 0.0));
  }

  // Flooring stays within one step below the raw size.
  lemma FloorToBounds(raw: real, step: real)
    requires step > 0.0
    ensures raw - step < FloorTo(raw, step) <= raw
  {
    DivMul(raw, step);
    var q := raw / step;
    BelowProduct(q.Floor as real, q, step, raw);
    AboveProduct(q.Floor as real + 1.0, q, step, raw);
    OneMore(q.Floor as real, step);
  }

  lemma BelowProduct(k: real, q: real, c: real, p: real)
    requires k <= q && c > 0.0 && q * c == p
    ensures k * c <= p
  {
    MulMono(k, q, c);
  }

  lemma AboveProduct(k: real, q: real, c: real, p: real)
    requires q < k && c > 0.0 && q * c == p
    ensures p < k * c
  {
    MulMonoStrict(q, k, c);
  }

  lemma OneMore(k: real, c: real)
    ensures (k + 1.0) * c == k * c + c
  {
  }

  lemma FloorTimes(p: real, q: real, step: real)
    requires p <= q && step > 0.0
    ensures p.Floor as real * step <= q.Floor as real * step <= q * step
  {
    assert p.Floor <= q.Floor;
    MulMono(p.Floor as real, q.Floor as real, step);
    MulMono(q.Floor as real, q, step);
  }

  lemma FloorToMonotone(x: real, y: real, step: real)
    requires x <= y && step > 0.0
    ensures FloorTo(x, step) <= FloorTo(y, step)
  {
    DivNumerator(x, y, step);
    FloorTimes(x / step, y / step, step);
  }

  lemma FloorToOnGrid(raw: real, step: real)
    requires step > 0.0 && OnGrid(step)
    ensures OnGrid(FloorTo(raw, step))
  {
    var k := (raw / step).Floor;
    GridMultiple(step, k);
    assert FloorTo(raw, step) == k as real * step;
  }

  // ---- The limits

  lemma RawWithinLimits(a: Input)
    ensures a.RawQty() * a.Close() <= a.MaxNotional()
    ensures a.RawQty() * a.Atr() <= a.RiskBudget()
  {
    QuotientLimit(a.RawQty(), a.MaxNotional(), a.Close());
    QuotientLimit(a.RawQty(), a.RiskBudget(), a.Atr());
  }

  lemma QuotientLimit(qty: real, limit: real, price: real)
    requires price > 0.0 && qty <= limit / price
    ensures qty * price <= limit
  {
    DivMul(limit, price);
    MulMono(qty, limit / price, price);
  }

  lemma ScaledLimit(qty: real, raw: real, over: real, price: real, limit: real)
    requires price > 0.0 && qty <= raw + over && raw * price <= limit
    ensures qty * price <= limit + over * price
  {
    MulMono(qty, raw + over, price);
  }

  // ---- The size, declared

  // The most that keeps within both limits.
  predicate MostWithin(raw: real, budget: real, atr: real, notional: real, close: real) {
    raw * atr <= budget && raw * close <= notional && (raw * atr == budget || raw * close == notional)
  }

  predicate WholeSteps(steps: int, raw: real, step: real) {
    steps as real * step <= raw < (steps as real + 1.0) * step
  }

  // The nearest integer, the even one of two.
  predicate Nearest(n: int, x: real) {
    && -0.5 <= n as real - x <= 0.5
    && (n as real - x == 0.5 || n as real - x == -0.5 ==> n % 2 == 0)
  }

  // n units of the eighth decimal, nearest to so many steps.
  predicate NearestUnits(n: int, steps: int, step: real) {
    Nearest(n, (if steps > 0 then steps as real * step else 0.0) * 100000000.0)
  }

  predicate Reaches(qty: real, units: int, minimum: real) {
    qty == if units as real / 100000000.0 >= minimum then units as real / 100000000.0 else 0.0
  }

  // The most within both limits, down to whole steps, to the nearest unit of the eighth decimal,
  // and zero only below the minimum.
  ghost predicate SizeFor(qty: real, budget: real, atr: real, notional: real, close: real, minimum: real, step: real) {
    exists raw, steps, units ::
      && MostWithin(raw, budget, atr, notional, close)
      && WholeSteps(steps, raw, step) && NearestUnits(units, steps, step) && Reaches(qty, units, minimum)
  }

  // The order size for these figures.
  ghost predicate IsSize(qty: real, balance: real, closePrice: real, atrValue: real, maxPositionSize: real, riskFraction: real,
                         minimum: real, qtyStep: real)
  {
    SizeFor(qty, balance * Max(riskFraction, 0.0), Max(atrValue, 1e-9), balance * Max(maxPositionSize, 0.0), Max(closePrice, 1e-9),
            minimum, Max(qtyStep, 1e-9))
  }

  lemma MinWithin(budget: real, atr: real, notional: real, close: real)
    requires atr > 0.0 && close > 0.0
    ensures MostWithin(Min(budget / atr, notional / close), budget, atr, notional, close)
  {
    DivMul(budget, atr);
    DivMul(notional, close);
    QuotientLimit(Min(budget / atr, notional / close), budget, atr);
    QuotientLimit(Min(budget / atr, notional / close), notional, close);
  }

  lemma StepsOf(raw: real, step: real)
    requires step > 0.0
    ensures WholeSteps((raw / step).Floor, raw, step)
  {
    FloorToBounds(raw, step);
    OneMore((raw / step).Floor as real, step);
  }

  lemma PositiveSteps(steps: int, step: real)
    requires step > 0.0
    ensures Max(steps as real * step, 0.0) == if steps > 0 then steps as real * step else 0.0
  {
    if steps > 0 {
      MulPositive(steps as real, step);
    } else {
      MulMono(steps as real, 0.0, step);
    }
  }

  lemma NearestIsRounded(x: real)
    ensures Nearest(RoundHalfEven(x), x)
  {
  }

  lemma UnitsOf(raw: real, step: real)
    requires step > 0.0
    ensures NearestUnits(RoundHalfEven(Max(FloorTo(raw, step), 0.0) * SCALE), (raw / step).Floor, step)
  {
    PositiveSteps((raw / step).Floor, step);
    NearestIsRounded(Max(FloorTo(raw, step), 0.0) * SCALE);
  }

  lemma UnitsReach(floored: real, minimum: real)
    ensures Reaches(if Settle(floored) >= minimum then Settle(floored) else 0.0, RoundHalfEven(Max(floored, 0.0) * SCALE), minimum)
  {
  }

  lemma SizeComputed(budget: real, atr: real, notional: real, close: real, minimum: real, step: real, raw: real, qty: real)
    requires atr > 0.0 && close > 0.0 && step > 0.0
    requires raw == Min(budget / atr, notional / close)
    requires qty == if Settle(FloorTo(raw, step)) >= minimum then Settle(FloorTo(raw, step)) else 0.0
    ensures SizeFor(qty, budget, atr, notional, close, minimum, step)
  {
    MinWithin(budget, atr, notional, close);
    StepsOf(raw, step);
    UnitsOf(raw, step);
    UnitsReach(FloorTo(raw, step), minimum);
  }

  lemma SizeIsSize(a: Input)
    ensures IsSize(a.Qty(), a.balance, a.closePrice, a.atrValue, a.maxPositionSize, a.riskFraction, a.minOrderQty, a.qtyStep)
  {
    SizeComputed(a.RiskBudget(), a.Atr(), a.MaxNotional(), a.Close(), a.minOrderQty, a.Step(), a.RawQty(), a.Qty());
  }

  lemma MostWithinUnique(a: real, b: real, budget: real, atr: real, notional: real, close: real)
    requires atr > 0.0 && close > 0.0
    requires MostWithin(a, budget, atr, notional, close) && MostWithin(b, budget, atr, notional, close)
    ensures a == b
  {
    if a < b {
      MulMonoStrict(a, b, atr);
      MulMonoStrict(a, b, close);
    } else if b < a {
      MulMonoStrict(b, a, atr);
      MulMonoStrict(b, a, close);
    }
  }

  lemma StepsApart(x: real, y: real, raw: real, step: real)
    requires step > 0.0 && raw < (x + 1.0) * step && y * step <= raw
    ensures y < x + 1.0
  {
    if x + 1.0 <= y {
      MulMono(x + 1.0, y, step);
    }
  }

  lemma WholeStepsOrder(m: int, n: int, raw: real, step: real)
    requires step > 0.0 && WholeSteps(m, raw, step) && WholeSteps(n, raw, step)
    ensures n <= m
  {
    StepsApart(m as real, n as real, raw, step);
  }

  lemma UnitsUnique(units: int, steps: int, raw: real, step: real)
    requires step > 0.0 && WholeSteps(steps, raw, step) && NearestUnits(units, steps, step)
    ensures units == RoundHalfEven(Max(FloorTo(raw, step), 0.0) * SCALE)
  {
    StepsOf(raw, step);
    WholeStepsOrder(steps, (raw / step).Floor, raw, step);
    WholeStepsOrder((raw / step).Floor, steps, raw, step);
    PositiveSteps(steps, step);
    RoundUnique(Max(FloorTo(raw, step), 0.0) * SCALE, units);
  }

  lemma SizeForUnique(p: real, q: real, budget: real, atr: real, notional: real, close: real, minimum: real, step: real)
    requires atr > 0.0 && close > 0.0 && step > 0.0
    requires SizeFor(p, budget, atr, notional, close, minimum, step)
    requires SizeFor(q, budget, atr, notional, close, minimum, step)
    ensures p == q
  {
    var raw, steps, units :|
      && MostWithin(raw, budget, atr, notional, close)
      && WholeSteps(steps, raw, step) && NearestUnits(units, steps, step) && Reaches(p, units, minimum);
    var raw', steps', units' :|
      && MostWithin(raw', budget, atr, notional, close)
      && WholeSteps(steps', raw', step) && NearestUnits(units', steps', step) && Reaches(q, units', minimum);
    MostWithinUnique(raw, raw', budget, atr, notional, close);
    UnitsUnique(units, steps, raw, step);
    UnitsUnique(units', steps', raw', step);
  }

  // There is one such size.
  lemma SizeUnique(p: real, q: real, balance: real, closePrice: real, atrValue: real, maxPositionSize: real, riskFraction: real,
                   minimum: real, qtyStep: real)
    requires IsSize(p, balance, closePrice, atrValue, maxPositionSize, riskFraction, minimum, qtyStep)
    requires IsSize(q, balance, closePrice, atrValue, maxPositionSize, riskFraction, minimum, qtyStep)
    ensures p == q
  {
    SizeForUnique(p, q, balance * Max(riskFraction, 0.0), Max(atrValue, 1e-9), balance * Max(maxPositionSize, 0.0), Max(closePrice, 1e-9),
                  minimum, Max(qtyStep, 1e-9));
  }

  // The size is zero or at least the minimum; and before rounding to eight decimals it is at
  // most one step below the raw size.
  lemma QtyShape(a: Input)
    ensures a.Qty() >= 0.0 && (a.Qty() == 0.0 || a.Qty() >= a.minOrderQty)
    ensures a.RawQty() - a.Step() < a.Floored() <= a.RawQty()
    ensures a.Qty() > 0.0 ==> a.Qty() <= a.RawQty() + 0.000000005
  {
    FloorToBounds(a.RawQty(), a.Step());
    SettleBounds(a.Floored());
  }

  // The size goes beyond the position cap and the risk budget by at most half a unit of the
  // eighth decimal, priced at the close and the ATR.
  predicate NearLimits(a: Input) {
    NearLimit(a.Qty(), a.Close(), a.MaxNotional()) && NearLimit(a.Qty(), a.Atr(), a.RiskBudget())
  }

  // So many units at this price cost no more than the limit, but for half a unit of the eighth
  // decimal.
  predicate NearLimit(qty: real, price: real, limit: real) {
    qty * price <= limit + 0.000000005 * price
  }

  lemma QtyWithinLimits(a: Input)
    requires a.Qty() > 0.0
    ensures NearLimits(a)
  {
    QtyShape(a);
    LimitsOver(a, a.Qty(), 0.000000005);
  }

  lemma LimitsOver(a: Input, qty: real, over: real)
    requires qty <= a.RawQty() + over
    ensures qty * a.Close() <= a.MaxNotional() + over * a.Close()
    ensures qty * a.Atr() <= a.RiskBudget() + over * a.Atr()
  {
    RawWithinLimits(a);
    ScaledLimit(qty, a.RawQty(), over, a.Close(), a.MaxNotional());
    ScaledLimit(qty, a.RawQty(), over, a.Atr(), a.RiskBudget());
  }

  ghost predicate NoOvershoot(a: Input) {
    a.Qty() * a.Close() <= a.MaxNotional() && a.Qty() * a.Atr() <= a.RiskBudget()
  }

  lemma OnGridNoOvershoot(a: Input)
    requires OnGrid(a.Step()) && a.balance >= 0.0
    ensures NoOvershoot(a)
  {
    FloorToBounds(a.RawQty(), a.Step());
    FloorToOnGrid(a.RawQty(), a.Step());
    SettleBounds(a.Floored());
    BudgetsNonNegative(a);
    if a.Qty() > 0.0 {
      LimitsOver(a, a.Qty(), 0.0);
    }
  }

  lemma BudgetsNonNegative(a: Input)
    requires a.balance >= 0.0
    ensures a.RiskBudget() >= 0.0 && a.MaxNotional() >= 0.0
  {
    MulMono(0.0, a.balance, Max(a.riskFraction, 0.0));
    MulMono(0.0, a.balance, Max(a.maxPositionSize, 0.0));
  }

  // ---- Steps finer than, or off, the grid of the eighth decimal

  lemma RoundsUp(x: real, below: int, rest: real)
    requires x == below as real + rest
    requires 0.5 < rest < 1.0 || (rest == 0.5 && below % 2 == 1)
    ensures RoundHalfEven(x) == below + 1 && RoundHalfEven(x) as real > x
  {
    assert x.Floor == below;
  }

  // Some multiple of any number that is not whole is rounded up.
  lemma MultipleRoundsUp(q: real) returns (n: nat, x: real)
    requires q > 0.0 && q.Floor as real != q
    ensures x == n as real * q && RoundHalfEven(x) as real > x
  {
    var m, f := q.Floor, q - q.Floor as real;
    var rest;
    n, rest := HalfReached(f);
    var below := n * m;
    x := n as real * q;
    WholePlusRest(n, m, f, q, x);
    if rest > 0.5 || below % 2 == 1 {
      RoundsUp(x, below, rest);
    } else {
      TripleHalf(3.0 * x, below);
      Triple(n, q);
      n, x := 3 * n, 3.0 * x;
    }
  }

  lemma WholePlusRest(n: nat, m: int, f: real, q: real, x: real)
    requires q == m as real + f && x == n as real * q
    ensures x == (n * m) as real + n as real * f
  {
  }

  lemma Triple(n: nat, q: real)
    ensures (3 * n) as real * q == 3.0 * (n as real * q)
  {
  }

  lemma TripleHalf(x: real, below: int)
    requires below % 2 == 0 && x == 3.0 * (below as real + 0.5)
    ensures RoundHalfEven(x) as real > x
  {
    OddTriple(below);
    RoundsUp(x, 3 * below + 1, 0.5);
  }

  lemma OddTriple(n: int)
    requires n % 2 == 0
    ensures (3 * n + 1) % 2 == 1
  {
  }

  // Some multiple of f lies in the upper half of the unit interval.
  lemma HalfReached(f: real) returns (k: nat, p: real)
    requires 0.0 < f < 1.0
    ensures p == k as real * f && 0.5 <= p < 1.0
  {
    if f >= 0.5 {
      return 1, f;
    }
    DivMul(0.5, f);
    DivPositive(0.5, f);
    k, p := HalfReachedFrom(f, 0.5 / f);
  }

  lemma HalfReachedFrom(f: real, h: real) returns (k: nat, p: real)
    requires 0.0 < f < 0.5 && h > 0.0 && h * f == 0.5
    ensures p == k as real * f && 0.5 <= p < 1.0
  {
    p := OverHalf(h, h.Floor as real, f);
    k := h.Floor + 1;
    MulEqual(k as real, h.Floor as real + 1.0, f);
  }

  lemma MulEqual(a: real, b: real, c: real)
    requires a == b
    ensures a * c == b * c
  {
  }

  lemma OverHalf(h: real, below: real, f: real) returns (p: real)
    requires 0.0 < f < 0.5 && h * f == 0.5 && below <= h < below + 1.0
    ensures p == (below + 1.0) * f && 0.5 <= p < 1.0
  {
    BelowProduct(below, h, f, 0.5);
    AboveProduct(below + 1.0, h, f, 0.5);
    OneMore(below, f);
    p := (below + 1.0) * f;
  }

  // An input whose raw size is n steps.
  function Exactly(n: nat, step: real): Input {
    Input(n as real * Max(step, 1e-9), 1.0, 1.0, 1.0, 1.0, 0.0, step)
  }

  lemma FloorToMultiple(n: nat, step: real, raw: real)
    requires step > 0.0 && raw == n as real * step
    ensures FloorTo(raw, step) == raw
  {
    DivUnique(raw, step, n as real);
  }

  lemma ExactlyQty(n: nat, step: real)
    ensures var a := Exactly(n, step);
            a.balance >= 0.0 && a.MaxNotional() == a.balance && a.Close() == 1.0 && a.Qty() == Settle(a.balance)
  {
    var a := Exactly(n, step);
    MulMono(0.0, n as real, Max(step, 1e-9));
    UnitPrices(a);
    FloorToMultiple(n, a.Step(), a.RawQty());
    SettleBounds(a.balance);
  }

  lemma UnitPrices(a: Input)
    requires a.closePrice == a.atrValue == a.maxPositionSize == a.riskFraction == 1.0
    ensures a.RawQty() == a.MaxNotional() == a.balance && a.Close() == 1.0
  {
    DivUnique(a.balance, 1.0, a.balance);
  }

  lemma Round8Up(y: real, x: real)
    requires x == y * SCALE && RoundHalfEven(x) as real > x
    ensures Round8(y) > y
  {
    DivNumerator(x, RoundHalfEven(x) as real, SCALE);
    DivUnique(x, SCALE, y);
  }

  lemma ScaleLast(a: real, b: real, c: real)
    ensures a * (b * c) == (a * b) * c
  {
  }

  // Off the grid some input goes over its cap.
  lemma OffGridOvershoots(step: real) returns (a: Input)
    requires !OnGrid(Max(step, 1e-9))
    ensures a.qtyStep == step && a.balance >= 0.0 && !NoOvershoot(a)
  {
    var s := Max(step, 1e-9);
    var n, x := MultipleRoundsUp(s * SCALE);
    a := Exactly(n, step);
    ScaleLast(n as real, s, SCALE);
    Round8Up(a.balance, x);
    ExactlyQty(n, step);
  }

  // Rounding to eight decimals never takes the size over a limit, whatever the other inputs,
  // exactly when the step is a whole number of units of the eighth decimal.
  lemma NoOvershootExactlyOnGrid(step: real)
    ensures (forall a: Input | a.qtyStep == step && a.balance >= 0.0 :: NoOvershoot(a)) <==> OnGrid(Max(step, 1e-9))
  {
    if OnGrid(Max(step, 1e-9)) {
      forall a: Input | a.qtyStep == step && a.balance >= 0.0
        ensures NoOvershoot(a)
      {
        OnGridNoOvershoot(a);
      }
    } else {
      var a := OffGridOvershoots(step);
    }
  }

  // ---- Monotonicity

  predicate Looser(a: Input, b: Input) {
    && a.balance <= b.balance && a.riskFraction <= b.riskFraction && a.maxPositionSize <= b.maxPositionSize
    && a.closePrice >= b.closePrice && a.atrValue >= b.atrValue
    && a.minOrderQty >= b.minOrderQty && a.qtyStep == b.qtyStep
  }

  lemma BudgetMonotone(balance: real, fraction: real, price: real, balance': real, fraction': real, price': real)
    requires 0.0 <= balance <= balance' && 0.0 <= fraction <= fraction' && 0.0 < price' <= price
    ensures 0.0 <= (balance * fraction) / price <= (balance' * fraction') / price'
  {
    MulMono(0.0, balance, fraction);
    MulMono(balance, balance', fraction);
    MulMono(fraction, fraction', balance');
    var x, y := balance * fraction, balance' * fraction';
    QuotientNonNegative(x, price);
    DivDenominator(x, price', price);
    DivNumerator(x, y, price');
  }

  lemma NegativeBalance(a: Input)
    requires a.balance <= 0.0
    ensures a.Qty() == 0.0
  {
    FloorToBounds(a.RawQty(), a.Step());
    MulMono(a.balance, 0.0, Max(a.maxPositionSize, 0.0));
    DivNumerator(a.MaxNotional(), 0.0, a.Close());
    DivUnique(0.0, a.Close(), 0.0);
    SettleBounds(a.Floored());
  }

  lemma RiskSideMonotone(a: Input, b: Input)
    requires Looser(a, b) && a.balance >= 0.0
    ensures a.RiskBudget() / a.Atr() <= b.RiskBudget() / b.Atr()
  {
    BudgetMonotone(a.balance, Max(a.riskFraction, 0.0), a.Atr(), b.balance, Max(b.riskFraction, 0.0), b.Atr());
  }

  lemma CapSideMonotone(a: Input, b: Input)
    requires Looser(a, b) && a.balance >= 0.0
    ensures a.MaxNotional() / a.Close() <= b.MaxNotional() / b.Close()
  {
    BudgetMonotone(a.balance, Max(a.maxPositionSize, 0.0), a.Close(), b.balance, Max(b.maxPositionSize, 0.0), b.Close());
  }

  lemma RawMonotone(a: Input, b: Input)
    requires Looser(a, b) && a.balance >= 0.0
    ensures a.RawQty() <= b.RawQty()
  {
    RiskSideMonotone(a, b);
    CapSideMonotone(a, b);
  }

  // The size never shrinks when the balance, the risk fraction or the position limit grows, or
  // the close, the ATR or the minimum falls.
  lemma QtyMonotone(a: Input, b: Input)
    requires Looser(a, b)
    ensures a.Qty() <= b.Qty()
  {
    SettleBounds(b.Floored());
    if a.balance <= 0.0 {
      NegativeBalance(a);
    } else {
      RawMonotone(a, b);
      FloorToMonotone(a.RawQty(), b.RawQty(), a.Step());
      SettleMonotone(a.Floored(), b.Floored());
    }
  }
}
