/** Order facts about products and quotients of reals. */
module Reals {
  function Abs(x: real): real {
    if x < 0.0 then -x else x
  }

  function Max(x: real, y: real): real {
    if x < y then y else x
  }

  function Min(x: real, y: real): real {
    if y < x then y else x
  }

  lemma MulMono(a: real, b: real, c: real)
    requires a <= b && c >= 0.0
    ensures a * c <= b * c
  {
    assert (b - a) * c >= 0.0;
  }

  lemma MulPositive(a: real, b: real)
    requires a > 0.0 && b > 0.0
    ensures a * b > 0.0
  {
  }

  lemma MulMonoStrict(a: real, b: real, c: real)
    requires a < b && c > 0.0
    ensures a * c < b * c
  {
    MulPositive(b - a, c);
    assert (b - a) * c == b * c - a * c;
  }

  lemma DivMul(a: real, b: real)
    requires b != 0.0
    ensures a / b * b == a
  {
  }

  lemma DivUnique(a: real, b: real, q: real)
    requires b != 0.0 && q * b == a
    ensures a / b == q
  {
  }

  lemma DivPositive(a: real, b: real)
    requires a > 0.0 && b > 0.0
    ensures a / b > 0.0
  {
    DivMul(a, b);
    if a / b <= 0.0 {
      MulMono(a / b, 0.0, b);
    }
  }

  // Numerators and denominators order quotients.
  lemma DivNumerator(a: real, b: real, d: real)
    requires d > 0.0
    ensures a <= b <==> a / d <= b / d
    ensures a < b <==> a / d < b / d
  {
    DivMul(a, d);
    DivMul(b, d);
    var p, q := a / d, b / d;
    if p < q {
      MulMonoStrict(p, q, d);
    } else if q < p {
      MulMonoStrict(q, p, d);
    }
  }

  lemma DivDenominator(a: real, d: real, e: real)
    requires a >= 0.0 && 0.0 < d <= e
    ensures a / e <= a / d
  {
    DivMul(a, e);
    var q := a / e;
    DivNumerator(0.0, a, e);
    DivUnique(0.0, e, 0.0);
    assert q >= 0.0;
    MulMono(d, e, q);
    assert q * d <= a;
    DivNumerator(q * d, a, d);
    DivUnique(q * d, d, q);
  }

  // Quotients of quotients over one denominator.
  lemma DivCommon(a: real, b: real, d: real)
    requires b != 0.0 && d != 0.0
    ensures b / d != 0.0 && (a / d) / (b / d) == a / b
  {
    DivMul(a, d);
    DivMul(b, d);
    DivMul(a, b);
    var q := a / b;
    assert q * (b / d) * d == q * b == a == (a / d) * d;
    MulCancel(q * (b / d), a / d, d);
    DivUnique(a / d, b / d, q);
  }

  lemma MulCancel(a: real, b: real, c: real)
    requires c != 0.0 && a * c == b * c
    ensures a == b
  {
    assert (a - b) * c == 0.0;
  }

  lemma DivScaled(a: real, b: real, k: real)
    requires b != 0.0 && k != 0.0
    ensures k * b != 0.0 && (k * a) / (k * b) == a / b
  {
    DivMul(a, b);
    var q := a / b;
    assert k * b != 0.0;
    assert q * (k * b) == k * (q * b) == k * a;
    DivUnique(k * a, k * b, q);
  }

  lemma DivChain(a: real, b: real, c: real)
    requires b != 0.0 && c != 0.0
    ensures (b / c) * (a / b) == a / c
  {
    DivMul(a, b);
    DivMul(b, c);
    var p, q := b / c, a / b;
    assert p * q * c == q * (p * c) == q * b == a;
    DivUnique(a, c, p * q);
  }

  lemma CrossMultiplied(a: real, b: real, c: real, d: real)
    requires b > 0.0 && d > 0.0
    ensures a / b <= c / d <==> a * d <= c * b
  {
    var p, q := a / b, c / d;
    DivMul(a, b);
    DivMul(c, d);
    MulPositive(b, d);
    assert a * d == p * (b * d) && c * b == q * (b * d);
    if p < q {
      MulMonoStrict(p, q, b * d);
    } else if q < p {
      MulMonoStrict(q, p, b * d);
    }
  }

  // A quotient against a number, without the quotient.
  lemma QuotientAgainst(a: real, b: real, k: real)
    requires b > 0.0
    ensures a / b < k <==> a < k * b
    ensures a / b > k <==> a > k * b
  {
    DivMul(a, b);
    var q := a / b;
    if q < k {
      MulMonoStrict(q, k, b);
    } else if q > k {
      MulMonoStrict(k, q, b);
    }
  }

  lemma QuotientAboveOne(a: real, b: real)
    requires a > b > 0.0
    ensures a / b > 1.0
  {
    DivNumerator(b, a, b);
    DivUnique(b, b, 1.0);
  }

  lemma QuotientWithinOne(a: real, b: real)
    requires 0.0 <= a <= b && b > 0.0
    ensures 0.0 <= a / b <= 1.0
  {
    QuotientNonNegative(a, b);
    DivNumerator(a, b, b);
    DivUnique(b, b, 1.0);
  }

  lemma QuotientNonNegative(a: real, b: real)
    requires a >= 0.0 && b > 0.0
    ensures a / b >= 0.0
  {
    DivNumerator(0.0, a, b);
    DivUnique(0.0, b, 0.0);
  }
}
