/** Sums of real sequences, folded from the left as Swift's
    `reduce(0) { $0 + $1 }` folds them. */
module RealSeq {

  /** `xs.reduce(0, +)`: the last element is added last. */
  function Sum(xs: seq<real>): real
  {
    if xs == [] then 0.0 else Sum(xs[..|xs| - 1]) + xs[|xs| - 1]
  }

  lemma {:induction false} SumAppend(a: seq<real>, b: seq<real>)
    ensures Sum(a + b) == Sum(a) + Sum(b)
  {
    if b != [] {
      assert (a + b)[..|a + b| - 1] == a + b[..|b| - 1];
      SumAppend(a, b[..|b| - 1]);
    } else {
      assert a + b == a;
    }
  }

  lemma SumSingleton(x: real)
    ensures Sum([x]) == x
  {
    assert [x][..0] == [];
  }

  /** Summing is linear: if every `ys[i]` is `c * xs[i]`, the sums differ by the factor `c`. */
  lemma {:induction false} SumScaled(xs: seq<real>, ys: seq<real>, c: real)
    requires |xs| == |ys|
    requires forall i :: 0 <= i < |xs| ==> ys[i] == c * xs[i]
    ensures Sum(ys) == c * Sum(xs)
  {
    if xs != [] {
      var n := |xs| - 1;
      SumScaled(xs[..n], ys[..n], c);
    }
  }

  /** With no negative element, every prefix sum is at most the next one and
      at most the whole sum, and none is negative. */
  lemma {:induction false} PrefixSumsBounded(xs: seq<real>, i: nat, j: nat)
    requires i <= j <= |xs|
    requires forall k :: 0 <= k < |xs| ==> 0.0 <= xs[k]
    ensures 0.0 <= Sum(xs[..i]) <= Sum(xs[..j]) <= Sum(xs)
  {
    if j < |xs| {
      PrefixSumsBounded(xs[..|xs| - 1], i, j);
      assert xs[..|xs| - 1][..i] == xs[..i];
      assert xs[..|xs| - 1][..j] == xs[..j];
      assert xs[..|xs|] == xs;
    } else if i < j {
      PrefixSumsBounded(xs, i, j - 1);
      assert xs[..j][..j - 1] == xs[..j - 1];
      assert xs[..j] == xs;
    } else {
      assert xs[..j] == xs;
      if i > 0 {
        PrefixSumsBounded(xs, i - 1, i - 1);
        assert xs[..i][..i - 1] == xs[..i - 1];
      } else {
        assert xs[..0] == [];
      }
    }
  }

  /** With only positive elements, a non-empty sequence has a positive sum. */
  lemma {:induction false} SumPositive(xs: seq<real>)
    requires xs != []
    requires forall k :: 0 <= k < |xs| ==> 0.0 < xs[k]
    ensures 0.0 < Sum(xs)
  {
    if |xs| > 1 {
      SumPositive(xs[..|xs| - 1]);
    } else {
      assert xs[..0] == [];
    }
  }
}
