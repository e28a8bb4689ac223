/** Sums and means of lists of numbers, shared by the modules that average heights. */
module Averages {
  import opened Support

  function Sum(s: seq<real>): real {
    if s == [] then 0.0 else Sum(s[..|s| - 1]) + s[|s| - 1]
  }

  lemma SumOfOne(x: real)
    ensures Sum([x]) == x && Sum([]) == 0.0
  {
    assert [x][..0] == [];
    assert Sum([x]) == Sum([]) + x;
  }

  // With the sums of no number and of one number this fixes every sum.
  lemma {:induction false} SumJoin(a: seq<real>, b: seq<real>)
    ensures Sum(a + b) == Sum(a) + Sum(b)
  {
    if b == [] {
      assert a + b == a;
    } else {
      var n := |b| - 1;
      SumJoin(a, b[..n]);
      assert (a + b)[..|a + b| - 1] == a + b[..n];
    }
  }

  // The mean, and 0 of no number.
  function Mean(s: seq<real>): real {
    if s == [] then 0.0 else Sum(s) / |s| as real
  }

  ghost function Deviations(s: seq<real>, v: real): (d: seq<real>)
    ensures |d| == |s|
  {
    seq(|s|, i requires 0 <= i < |s| => s[i] - v)
  }

  // The mean is the one value from which the deviations balance.
  lemma MeanBalances(s: seq<real>, v: real)
    requires s != []
    ensures v == Mean(s) <==> Sum(Deviations(s, v)) == 0.0
  {
    hide Sum;
    SumOfDeviations(s, v);
    Share(Sum(s), |s| as real, v);
  }

  lemma {:induction false} SumOfDeviations(s: seq<real>, v: real)
    ensures Sum(Deviations(s, v)) == Sum(s) - v * |s| as real
  {
    if s != [] {
      var n := |s| - 1;
      SumOfDeviations(s[..n], v);
      assert Deviations(s, v)[..n] == Deviations(s[..n], v);
      OneMore(v, n);
    }
  }

  lemma Share(sum: real, n: real, v: real)
    requires n > 0.0
    ensures v == sum / n <==> sum - v * n == 0.0
  {
    var m := sum / n;
    assert m * n == sum;
    Sign(v - m, n);
    assert (v - m) * n == v * n - sum;
  }

  lemma OneMore(x: real, n: nat)
    ensures x * (n + 1) as real == x * n as real + x
  {
  }

  lemma {:induction false} SumBetween(s: seq<real>, lo: real, hi: real)
    requires forall i :: 0 <= i < |s| ==> lo <= s[i] <= hi
    ensures lo * |s| as real <= Sum(s) <= hi * |s| as real
  {
    if s != [] {
      SumBetween(s[..|s| - 1], lo, hi);
      OneMore(lo, |s| - 1);
      OneMore(hi, |s| - 1);
    }
  }

  lemma MeanBetween(s: seq<real>, lo: real, hi: real)
    requires s != [] && forall i :: 0 <= i < |s| ==> lo <= s[i] <= hi
    ensures lo <= Mean(s) <= hi
  {
    hide Sum;
    SumBetween(s, lo, hi);
    ShareBetween(Sum(s), |s| as real, lo, hi);
  }

  lemma ShareBetween(sum: real, n: real, lo: real, hi: real)
    requires n > 0.0 && lo * n <= sum <= hi * n
    ensures lo <= sum / n <= hi
  {
    var m := sum / n;
    assert m * n == sum;
    var a, b := m - lo, hi - m;
    assert a * n == sum - lo * n && b * n == hi * n - sum;
    Sign(a, n);
    Sign(b, n);
  }
}
