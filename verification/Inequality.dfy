/**
  The inequality of arithmetic and geometric means in the form the backtest needs:
  positive factors that add up to at most their number have a product of at most one.
 */
module Inequality {
  import opened Reals

  function Sum(xs: seq<real>): real {
    if xs == [] then 0.0 else xs[0] + Sum(xs[1..])
  }

  function Product(xs: seq<real>): real {
    if xs == [] then 1.0 else xs[0] * Product(xs[1..])
  }

  ghost predicate AllPositive(xs: seq<real>) {
    forall i | 0 <= i < |xs| :: xs[i] > 0.0
  }

  function Without(xs: seq<real>, i: nat): seq<real>
    requires i < |xs|
  {
    xs[..i] + xs[i + 1..]
  }

  lemma {:induction false} ProductPositive(xs: seq<real>)
    requires AllPositive(xs)
    ensures Product(xs) > 0.0
  {
    if xs != [] {
      ProductPositive(xs[1..]);
    }
  }

  lemma {:induction false} TakeOut(xs: seq<real>, i: nat)
    requires i < |xs|
    ensures Sum(xs) == xs[i] + Sum(Without(xs, i))
    ensures Product(xs) == xs[i] * Product(Without(xs, i))
  {
    if i == 0 {
      assert Without(xs, 0) == xs[1..];
    } else {
      var rest := Without(xs[1..], i - 1);
      TakeOut(xs[1..], i - 1);
      assert Without(xs, i) == [xs[0]] + rest;
      assert Without(xs, i)[1..] == rest;
      assert xs[0] * (xs[i] * Product(rest)) == xs[i] * (xs[0] * Product(rest));
    }
  }

  lemma {:induction false} FactorsAtMostOne(xs: seq<real>)
    requires forall i | 0 <= i < |xs| :: 0.0 < xs[i] <= 1.0
    ensures 0.0 < Product(xs) <= 1.0
    ensures (exists i :: 0 <= i < |xs| && xs[i] < 1.0) ==> Product(xs) < 1.0
  {
    if xs != [] {
      FactorsAtMostOne(xs[1..]);
      var p := Product(xs[1..]);
      MulMono(xs[0], 1.0, p);
      if xs[0] < 1.0 {
        MulMonoStrict(xs[0], 1.0, p);
      } else if exists i :: 0 <= i < |xs| && xs[i] < 1.0 {
        var i :| 0 <= i < |xs| && xs[i] < 1.0;
        assert xs[1..][i - 1] < 1.0;
      }
    }
  }

  lemma {:induction false} TermsAtLeastOne(xs: seq<real>)
    requires forall i | 0 <= i < |xs| :: xs[i] >= 1.0
    ensures Sum(xs) >= |xs| as real
    ensures (exists i :: 0 <= i < |xs| && xs[i] > 1.0) ==> Sum(xs) > |xs| as real
  {
    if xs != [] {
      TermsAtLeastOne(xs[1..]);
      if exists i :: 0 <= i < |xs| && xs[i] > 1.0 {
        var i :| 0 <= i < |xs| && xs[i] > 1.0;
        assert i > 0 ==> xs[1..][i - 1] > 1.0;
      }
    }
  }

  predicate Factored(whole: real, x: real, rest: real) {
    whole == x * rest
  }

  lemma FactorOut(xs: seq<real>, i: nat)
    requires i < |xs|
    ensures Factored(Product(xs), xs[i], Product(Without(xs, i)))
  {
    TakeOut(xs, i);
  }

  lemma FactorIn(x: real, xs: seq<real>, ys: seq<real>)
    requires ys == [x] + xs
    ensures Factored(Product(ys), x, Product(xs))
  {
    ConsSumProduct(x, xs);
  }

  lemma MergedFactor(x: real, y: real, z: real, p: real, q: real, before: real, after: real)
    requires p > 0.0 && (x < 1.0 < y || y < 1.0 < x) && z == x + y - 1.0
    requires Factored(q, x, p) && Factored(before, y, q) && Factored(after, z, p)
    ensures before < after
  {
    if x < 1.0 {
      MulPositive(1.0 - x, y - 1.0);
    } else {
      MulPositive(x - 1.0, 1.0 - y);
    }
    assert (1.0 - x) * (y - 1.0) == (x + y - 1.0) - y * x;
    MulMonoStrict(y * x, x + y - 1.0, p);
    assert y * (x * p) == (y * x) * p;
  }

  lemma WithoutPositive(xs: seq<real>, i: nat)
    requires AllPositive(xs) && i < |xs|
    ensures AllPositive(Without(xs, i))
  {
  }

  lemma ConsSumProduct(x: real, xs: seq<real>)
    ensures Sum([x] + xs) == x + Sum(xs) && Product([x] + xs) == x * Product(xs)
  {
    assert ([x] + xs)[1..] == xs;
  }

  // Factors lo and hi taken out, and one put in their place.
  function Merged(xs: seq<real>, lo: nat, hi: nat): (ys: seq<real>)
    requires lo < hi < |xs|
    ensures |ys| == |xs| - 1
  {
    var once := Without(xs, hi);
    [once[lo] + xs[hi] - 1.0] + Without(once, lo)
  }

  lemma MergedSum(xs: seq<real>, lo: nat, hi: nat)
    requires lo < hi < |xs|
    ensures Sum(Merged(xs, lo, hi)) == Sum(xs) - 1.0
  {
    var once := Without(xs, hi);
    TakeOut(xs, hi);
    TakeOut(once, lo);
    ConsSumProduct(once[lo] + xs[hi] - 1.0, Without(once, lo));
  }

  lemma MergedProduct(xs: seq<real>, lo: nat, hi: nat, ys: seq<real>)
    requires AllPositive(xs) && lo < hi < |xs| && ys == Merged(xs, lo, hi)
    requires xs[lo] < 1.0 < xs[hi] || xs[hi] < 1.0 < xs[lo]
    ensures Product(xs) < Product(ys)
  {
    var once := Without(xs, hi);
    var rest := Without(once, lo);
    var x, y, z := once[lo], xs[hi], once[lo] + xs[hi] - 1.0;
    assert x == xs[lo];
    WithoutPositive(xs, hi);
    WithoutPositive(once, lo);
    ProductPositive(rest);
    FactorOut(xs, hi);
    FactorOut(once, lo);
    FactorIn(z, rest, ys);
    MergedFactor(x, y, z, Product(rest), Product(once), Product(xs), Product(ys));
  }

  // Replacing x < 1 < y by the single factor x + y - 1 takes one off the sum and makes the
  // product larger.
  lemma Merge(xs: seq<real>, lo: nat, hi: nat) returns (ys: seq<real>)
    requires AllPositive(xs) && lo < hi < |xs|
    requires xs[lo] < 1.0 < xs[hi] || xs[hi] < 1.0 < xs[lo]
    ensures AllPositive(ys) && |ys| == |xs| - 1
    ensures Sum(ys) == Sum(xs) - 1.0
    ensures Product(xs) < Product(ys)
  {
    ys := Merged(xs, lo, hi);
    MergedSum(xs, lo, hi);
    MergedProduct(xs, lo, hi, ys);
    WithoutPositive(xs, hi);
    WithoutPositive(Without(xs, hi), lo);
  }

  lemma {:induction false} ProductAtMostOne(xs: seq<real>)
    requires AllPositive(xs) && Sum(xs) <= |xs| as real
    ensures Product(xs) <= 1.0
    ensures (exists i :: 0 <= i < |xs| && xs[i] != 1.0) ==> Product(xs) < 1.0
    decreases |xs|
  {
    if forall i | 0 <= i < |xs| :: xs[i] <= 1.0 {
      FactorsAtMostOne(xs);
    } else {
      var j :| 0 <= j < |xs| && xs[j] > 1.0;
      if forall i | 0 <= i < |xs| :: xs[i] >= 1.0 {
        TermsAtLeastOne(xs);
        assert false;
      } else {
        var i :| 0 <= i < |xs| && xs[i] < 1.0;
        var ys := Merge(xs, if i < j then i else j, if i < j then j else i);
        ProductAtMostOne(ys);
      }
    }
  }
}
