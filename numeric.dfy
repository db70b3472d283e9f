/**
 * Sums and means over the `real` numbers that stand for JavaScript's
 * numbers (rounding of IEEE doubles is not modelled).
 */
module Numeric {

  /** `xs.reduce((sum, x) => sum + x, 0)`. */
  function Sum(xs: seq<real>): real {
    if xs == [] then 0.0 else xs[0] + Sum(xs[1..])
  }

  /** Arithmetic mean of a non-empty sequence. */
  function Mean(xs: seq<real>): real
    requires |xs| > 0
  {
    Sum(xs) / (|xs| as real)
  }

  predicate AllWithin(xs: seq<real>, lo: real, hi: real) {
    forall i :: 0 <= i < |xs| ==> lo <= xs[i] <= hi
  }

  /** A sum of `n` values, each in `[lo, hi]`, lies in `[n * lo, n * hi]`. */
  lemma {:induction false} SumWithin(xs: seq<real>, lo: real, hi: real)
    requires AllWithin(xs, lo, hi)
    ensures (|xs| as real) * lo <= Sum(xs) <= (|xs| as real) * hi
  {
    if xs != [] {
      assert AllWithin(xs[1..], lo, hi) by {
        forall i | 0 <= i < |xs| - 1 ensures lo <= xs[1..][i] <= hi {
          assert xs[1..][i] == xs[i + 1];
        }
      }
      SumWithin(xs[1..], lo, hi);
      var n := (|xs| - 1) as real;
      assert (|xs| as real) * lo == n * lo + lo;
      assert (|xs| as real) * hi == n * hi + hi;
    }
  }

  /** The mean of values in `[lo, hi]` lies in `[lo, hi]`. */
  lemma MeanWithin(xs: seq<real>, lo: real, hi: real)
    requires |xs| > 0 && AllWithin(xs, lo, hi)
    ensures lo <= Mean(xs) <= hi
  {
    SumWithin(xs, lo, hi);
    var n := |xs| as real;
    DivBounds(Sum(xs), n, lo, hi);
  }

  lemma DivBounds(s: real, n: real, lo: real, hi: real)
    requires n > 0.0 && n * lo <= s <= n * hi
    ensures lo <= s / n <= hi
  {
    assert s / n - lo == (s - n * lo) / n;
    assert hi - s / n == (n * hi - s) / n;
  }

  /** Appending one value adds it to the sum. */
  lemma {:induction false} SumAppend(xs: seq<real>, x: real)
    ensures Sum(xs + [x]) == Sum(xs) + x
  {
    if xs != [] {
      assert (xs + [x])[1..] == xs[1..] + [x];
      SumAppend(xs[1..], x);
    }
  }

  /** Replacing one value changes the sum by the difference. */
  lemma {:induction false} SumUpdate(xs: seq<real>, j: nat, x: real)
    requires j < |xs|
    ensures Sum(xs[j := x]) == Sum(xs) - xs[j] + x
  {
    if j > 0 {
      assert xs[j := x][1..] == xs[1..][j - 1 := x];
      SumUpdate(xs[1..], j - 1, x);
    } else {
      assert xs[j := x][1..] == xs[1..];
    }
  }
}
