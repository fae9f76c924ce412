/** Facts about sequences that the solver finds easily only in isolation. */
module Seqs {
  lemma Assoc<T>(a: seq<T>, b: seq<T>, c: seq<T>)
    ensures (a + b) + c == a + (b + c)
  {
  }

  // Where the parts of a concatenation lie.
  lemma Parts<T>(a: seq<T>, b: seq<T>, c: seq<T>, d: seq<T>)
    ensures var s := a + b + c + d;
            && s[..|a|] == a
            && s[|a|..|a| + |b|] == b
            && s[|a| + |b|..|a| + |b| + |c|] == c
            && s[|a| + |b| + |c|..] == d
  {
  }

  lemma NothingBefore<T>(a: seq<T>)
    ensures [] + a == a && [] + [] + a == a
  {
  }

  lemma HeadTail<T>(a: seq<T>, z: seq<T>)
    requires a != []
    ensures [a[0]] + (a[1..] + z) == a + z
  {
  }

  lemma DropPrefix<T>(a: seq<T>, b: seq<T>)
    ensures (a + b)[|a|..] == b
  {
  }

  lemma PrefixAndRest<T>(a: seq<T>, s: seq<T>)
    requires a <= s
    ensures s == a + s[|a|..]
  {
  }

  // The two parts of a slice.
  lemma Halves<T>(s: seq<T>, lo: nat, mid: nat, hi: nat, a: seq<T>, b: seq<T>)
    requires lo <= mid <= hi <= |s| && s[lo..hi] == a + b && |a| == mid - lo
    ensures s[lo..mid] == a && s[mid..hi] == b
  {
    var body := s[lo..hi];
    assert body[..|a|] == a && body[|a|..] == b;
    assert body[..|a|] == s[lo..mid] && body[|a|..] == s[mid..hi];
  }

  // Two ways to cut the same sequence in two.
  lemma TwoCuts<T>(a: seq<T>, b: seq<T>, c: seq<T>, d: seq<T>)
    requires a + b == c + d
    ensures |a| < |c| ==> b != [] && c[..|a|] == a && c[|a|] == b[0]
    ensures |a| == |c| ==> a == c && b == d
  {
    assert (a + b)[..|a|] == a && (c + d)[..|c|] == c;
    if |a| < |c| {
      assert c[..|a|] == (c + d)[..|a|];
      assert c[|a|] == (c + d)[|a|] == (a + b)[|a|];
    } else if |a| == |c| {
      assert (a + b)[|a|..] == b && (c + d)[|c|..] == d;
    }
  }

  // a is what is left of b after some of its elements are struck out.
  predicate Subsequence<T(==)>(a: seq<T>, b: seq<T>)
    decreases |b|
  {
    a == [] ||
    (b != [] &&
     var b' := b[..|b| - 1];
     || (a[|a| - 1] == b[|b| - 1] && Subsequence(a[..|a| - 1], b'))
     || Subsequence(a, b'))
  }

  predicate Suffix<T(==)>(a: seq<T>, b: seq<T>) {
    |a| <= |b| && a == b[|b| - |a|..]
  }

  lemma SubsequenceSnoc<T>(a: seq<T>, b: seq<T>, x: T)
    requires Subsequence(a, b)
    ensures Subsequence(a + [x], b + [x])
  {
    assert (a + [x])[..|a|] == a && (b + [x])[..|b|] == b;
  }

  // Striking out a middle part leaves a subsequence.
  lemma {:induction false} SubsequenceCut<T>(x: seq<T>, y: seq<T>, z: seq<T>, b: seq<T>)
    requires Subsequence(x + y + z, b)
    ensures Subsequence(x + z, b)
    decreases |b|
  {
    var a := x + y + z;
    if a != [] && x + z != [] {
      var b' := b[..|b| - 1];
      if Subsequence(a, b') {
        SubsequenceCut(x, y, z, b');
      } else if z != [] {
        var z' := z[..|z| - 1];
        assert a[..|a| - 1] == x + y + z' && (x + z)[..|x + z| - 1] == x + z';
        SubsequenceCut(x, y, z', b');
      } else if y != [] {
        var y' := y[..|y| - 1];
        assert a[..|a| - 1] == x + y' + z;
        SubsequenceCut(x, y', z, b');
      } else {
        assert a == x + z;
      }
    }
  }

  lemma {:induction false} SubsequenceMembers<T>(a: seq<T>, b: seq<T>, x: T)
    requires Subsequence(a, b) && x in a
    ensures x in b
    decreases |b|
  {
    var b' := b[..|b| - 1];
    if Subsequence(a, b') {
      SubsequenceMembers(a, b', x);
    } else if x != a[|a| - 1] {
      SubsequenceMembers(a[..|a| - 1], b', x);
    }
  }

  lemma SuffixSnoc<T>(a: seq<T>, b: seq<T>, x: T)
    ensures Suffix(a + [x], b + [x]) <==> Suffix(a, b)
  {
    if |a| <= |b| {
      var k := |b| - |a|;
      assert (b + [x])[k..] == b[k..] + [x];
      assert (a + [x])[..|a|] == a && (b[k..] + [x])[..|a|] == b[k..];
    }
  }

  lemma SuffixOfSuffix<T>(x: seq<T>, y: seq<T>, b: seq<T>)
    requires Suffix(x + y, b)
    ensures Suffix(y, b)
  {
    assert y == (x + y)[|x|..];
  }

  // Where no element occurs twice, a non-empty part struck out behind a non-empty part leaves
  // no suffix.
  lemma CutIsNoSuffix<T>(x: seq<T>, y: seq<T>, z: seq<T>, b: seq<T>)
    requires forall i, j | 0 <= i < j < |b| :: b[i] != b[j]
    requires x != [] && y != [] && Suffix(x + y + z, b)
    ensures !Suffix(x + z, b)
  {
    var k := |b| - |x + z|;
    assert b[k - |y|] == (x + y + z)[0] == x[0];
    assert b[k] != b[k - |y|];
    assert b[k..][0] == b[k] && (x + z)[0] == x[0];
  }

  // What an append does to a log: a middle part goes, one element comes.
  lemma SubsequenceStep<T>(x: seq<T>, y: seq<T>, z: seq<T>, b: seq<T>, e: T)
    requires Subsequence(x + y + z, b)
    ensures Subsequence(x + z + [e], b + [e])
  {
    SubsequenceCut(x, y, z, b);
    SubsequenceSnoc(x + z, b, e);
  }

  lemma SuffixStep<T>(x: seq<T>, y: seq<T>, z: seq<T>, b: seq<T>, e: T)
    requires x == [] && Suffix(x + y + z, b)
    ensures Suffix(x + z + [e], b + [e])
  {
    SuffixOfSuffix(x + y, z, b);
    SuffixSnoc(z, b, e);
    assert x + z == z;
  }
}
