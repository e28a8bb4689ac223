/** The largest acceleration of an input shaper (software/klipper/extras/shaper_calibrate.py).

    The smoothing of a shaper is a sum over its impulses; the acceleration is found by
    bisection.  Arithmetic is exact, and the square root of two is a parameter. */
module ShaperCalibrate {
  import opened Support

  datatype Impulses = Impulses(a: seq<real>, t: seq<real>)

  // Sum of the first n weights.
  function Weight(s: Impulses, n: nat): real
    requires n <= |s.a|
  {
    if n == 0 then 0.0 else Weight(s, n - 1) + s.a[n - 1]
  }

  predicate Valid(s: Impulses) {
    && |s.a| == |s.t| > 0
    && (forall i :: 0 <= i < |s.a| ==> s.a[i] >= 0.0)
    && Weight(s, |s.a|) > 0.0
  }

  // A shaper: an impulse time for every weight, no weight negative, some weight positive.
  type Shaper = s: Impulses | Valid(s) witness Impulses([1.0], [0.0])

  // ---------- smoothing ----------

  function WeightedTime(s: Shaper, n: nat): real
    requires n <= |s.a|
  {
    if n == 0 then 0.0 else WeightedTime(s, n - 1) + s.a[n - 1] * s.t[n - 1]
  }

  // The shift of the shaper: its weighted mean time.
  function Shift(s: Shaper): real {
    WeightedTime(s, |s.a|) * (1.0 / Weight(s, |s.a|))
  }

  function Term90(a: real, halfAccel: real, scv: real, d: real): real {
    a * (scv + halfAccel * d) * d
  }

  function Term180(a: real, halfAccel: real, d: real): real {
    a * halfAccel * (d * d)
  }

  function Offset90(s: Shaper, halfAccel: real, scv: real, n: nat): real
    requires n <= |s.a|
  {
    if n == 0 then 0.0
    else Offset90(s, halfAccel, scv, n - 1) +
         (if s.t[n - 1] >= Shift(s) then Term90(s.a[n - 1], halfAccel, scv, s.t[n - 1] - Shift(s)) else 0.0)
  }

  function Offset180(s: Shaper, halfAccel: real, n: nat): real
    requires n <= |s.a|
  {
    if n == 0 then 0.0
    else Offset180(s, halfAccel, n - 1) + Term180(s.a[n - 1], halfAccel, s.t[n - 1] - Shift(s))
  }

  function Scaled(x: real, factor: real): real {
    x * factor
  }

  // root2 stands for the square root of two.
  function Smoothing(s: Shaper, root2: real, accel: real, scv: real): real {
    var invD := 1.0 / Weight(s, |s.a|);
    Max(Scaled(Offset90(s, Scaled(accel, 0.5), scv, |s.a|), Scaled(invD, root2)),
        Scaled(Offset180(s, Scaled(accel, 0.5), |s.a|), invD))
  }

  method GetShaperSmoothing(s: Shaper, root2: real, accel: real, scv: real) returns (r: real)
    ensures r == Smoothing(s, root2, accel, scv)
  {
    var halfAccel := Scaled(accel, 0.5);
    var n := |s.a|;
    var sumA, ts := 0.0, 0.0;
    for i := 0 to n
      invariant sumA == Weight(s, i) && ts == WeightedTime(s, i)
    {
      sumA := sumA + s.a[i];
      ts := ts + s.a[i] * s.t[i];
    }
    var invD := 1.0 / sumA;
    ts := ts * invD;
    var offset90, offset180 := 0.0, 0.0;
    for i := 0 to n
      invariant ts == Shift(s)
      invariant offset90 == Offset90(s, halfAccel, scv, i) && offset180 == Offset180(s, halfAccel, i)
    {
      if s.t[i] >= ts {
        offset90 := offset90 + Term90(s.a[i], halfAccel, scv, s.t[i] - ts);
      }
      offset180 := offset180 + Term180(s.a[i], halfAccel, s.t[i] - ts);
    }
    offset90 := Scaled(offset90, Scaled(invD, root2));
    offset180 := Scaled(offset180, invD);
    r := Max(offset90, offset180);
  }

  // ---------- smoothing grows with the acceleration ----------

  lemma ScaledMonotone(x: real, y: real, f: real)
    requires x <= y && f >= 0.0
    ensures Scaled(x, f) <= Scaled(y, f)
  {
    ProductSign(y - x, f);
    assert y * f - x * f == (y - x) * f;
  }

  lemma Term90Monotone(a: real, h1: real, h2: real, scv: real, d: real)
    requires a >= 0.0 && h1 <= h2 && d >= 0.0
    ensures Term90(a, h1, scv, d) <= Term90(a, h2, scv, d)
  {
    var g := h2 - h1;
    ProductSign(a, d);
    var ad := a * d;
    ProductSign(ad, d);
    var add := ad * d;
    ProductSign(add, g);
    assert Term90(a, h2, scv, d) - Term90(a, h1, scv, d) == add * g;
  }

  lemma Term180Sign(a: real, d: real)
    requires a >= 0.0
    ensures Term180(a, 1.0, d) >= 0.0 && (Term180(a, 1.0, d) == 0.0 <==> a == 0.0 || d == 0.0)
  {
    SquareSign(d);
    ProductSign(a, d * d);
  }

  lemma Term180Linear(a: real, h: real, d: real)
    ensures Term180(a, h, d) == Scaled(h, Term180(a, 1.0, d))
  {
    var q := d * d;
    assert a * h * q == h * (a * 1.0 * q);
  }

  lemma {:induction false} Offset180Linear(s: Shaper, h: real, n: nat)
    requires n <= |s.a|
    ensures Offset180(s, h, n) == Scaled(h, Offset180(s, 1.0, n))
    ensures Offset180(s, 1.0, n) >= 0.0
  {
    hide Shift, Term180;
    if n > 0 {
      Offset180Linear(s, h, n - 1);
      var d := s.t[n - 1] - Shift(s);
      Term180Linear(s.a[n - 1], h, d);
      Term180Sign(s.a[n - 1], d);
      ScaledAdd(h, Offset180(s, 1.0, n - 1), Term180(s.a[n - 1], 1.0, d));
    }
  }

  lemma ScaledAdd(h: real, x: real, y: real)
    ensures Scaled(h, x + y) == Scaled(h, x) + Scaled(h, y)
  {
  }

  lemma {:induction false} Offset90Monotone(s: Shaper, h1: real, h2: real, scv: real, n: nat)
    requires n <= |s.a| && h1 <= h2
    ensures Offset90(s, h1, scv, n) <= Offset90(s, h2, scv, n)
  {
    hide Shift, Term90;
    if n > 0 {
      Offset90Monotone(s, h1, h2, scv, n - 1);
      if s.t[n - 1] >= Shift(s) {
        Term90Monotone(s.a[n - 1], h1, h2, scv, s.t[n - 1] - Shift(s));
      }
    }
  }

  lemma InverseSign(x: real)
    requires x > 0.0
    ensures 1.0 / x > 0.0
  {
    var y := 1.0 / x;
    assert y * x == 1.0;
    Sign(y, x);
  }

  lemma SmoothingMonotone(s: Shaper, root2: real, accel1: real, accel2: real, scv: real)
    requires root2 > 0.0 && accel1 <= accel2
    ensures Smoothing(s, root2, accel1, scv) <= Smoothing(s, root2, accel2, scv)
  {
    hide Scaled, Weight, Offset90, Offset180;
    var n := |s.a|;
    var h1, h2 := Scaled(accel1, 0.5), Scaled(accel2, 0.5);
    ScaledMonotone(accel1, accel2, 0.5);
    var invD := 1.0 / Weight(s, n);
    InverseSign(Weight(s, n));
    ScaledSign(invD, root2);
    Offset90Monotone(s, h1, h2, scv, n);
    ScaledMonotone(Offset90(s, h1, scv, n), Offset90(s, h2, scv, n), Scaled(invD, root2));
    Offset180Linear(s, h1, n);
    Offset180Linear(s, h2, n);
    ScaledMonotone(h1, h2, Offset180(s, 1.0, n));
    ScaledMonotone(Offset180(s, h1, n), Offset180(s, h2, n), invD);
  }

  lemma ScaledSign(x: real, y: real)
    requires x >= 0.0 && y >= 0.0
    ensures Scaled(x, y) >= 0.0 && (Scaled(x, y) == 0.0 <==> x == 0.0 || y == 0.0)
  {
    ProductSign(x, y);
  }

  // ---------- when smoothing is unbounded ----------

  // Two impulses that count, at different times.
  predicate Spread(s: Shaper) {
    exists i, j :: 0 <= i < j < |s.a| && s.a[i] > 0.0 && s.a[j] > 0.0 && s.t[i] != s.t[j]
  }

  lemma {:induction false} Offset180Positive(s: Shaper, k: nat, n: nat)
    requires k < n <= |s.a| && s.a[k] > 0.0 && s.t[k] != Shift(s)
    ensures Offset180(s, 1.0, n) > 0.0
  {
    hide Shift, Term180;
    Offset180Linear(s, 1.0, n - 1);
    Term180Sign(s.a[n - 1], s.t[n - 1] - Shift(s));
    if k < n - 1 {
      Offset180Positive(s, k, n - 1);
    }
  }

  // A spread shaper's smoothing passes every target at a large enough acceleration.
  lemma SmoothingUnbounded(s: Shaper, root2: real, scv: real, target: real) returns (accel: real)
    requires Spread(s)
    ensures accel > 1.0 && Smoothing(s, root2, accel, scv) > target
  {
    hide Scaled, Weight, Offset90, Offset180, Shift;
    var i, j :| 0 <= i < j < |s.a| && s.a[i] > 0.0 && s.a[j] > 0.0 && s.t[i] != s.t[j];
    var n := |s.a|;
    Offset180Positive(s, if s.t[i] != Shift(s) then i else j, n);
    var invD := 1.0 / Weight(s, n);
    InverseSign(Weight(s, n));
    var r := Offset180(s, 1.0, n);
    ScaledSign(r, invD);
    var k := Scaled(r, invD);
    accel := LargeEnough(k, target);
    var h := Scaled(accel, 0.5);
    Offset180Linear(s, h, n);
    Regroup(h, r, invD);
    HalfOf(accel, k);
  }

  lemma Regroup(h: real, r: real, f: real)
    ensures Scaled(Scaled(h, r), f) == Scaled(h, Scaled(r, f))
  {
    assert h * r * f == h * (r * f);
  }

  lemma HalfOf(x: real, k: real)
    ensures Scaled(Scaled(x, 0.5), k) == Scaled(x, k) / 2.0
  {
    assert x * 0.5 * k == x * k / 2.0;
  }

  lemma LargeEnough(k: real, target: real) returns (x: real)
    requires k > 0.0
    ensures x > 1.0 && Scaled(x, k) / 2.0 > target
  {
    var goal := if target < 0.0 then 1.0 else 2.0 * target + 1.0;
    var q := goal / k;
    assert q * k == goal;
    x := if q > 1.0 then q else 2.0;
    if q <= 1.0 {
      assert 2.0 * k > goal by {
        ProductSign(1.0 - q, k);
        assert (1.0 - q) * k == k - goal;
      }
    }
  }

  // If all impulses that count share one time, there is no smoothing at any acceleration, so
  // the search for one that is too large cannot end.
  lemma NoSpreadNoSmoothing(s: Shaper, root2: real, accel: real, scv: real)
    requires !Spread(s)
    ensures Smoothing(s, root2, accel, scv) == 0.0
  {
    hide Scaled, Offset90, Offset180, Shift, Spread;
    var n := |s.a|;
    var k := SomeWeight(s, n);
    CommonTime(s, k, n);
    var h := Scaled(accel, 0.5);
    NoOffsets(s, s.t[k], h, scv, n);
    NothingScaled(Scaled(1.0 / Weight(s, n), root2));
    NothingScaled(1.0 / Weight(s, n));
  }

  lemma NothingScaled(f: real)
    ensures Scaled(0.0, f) == 0.0
  {
  }

  lemma {:induction false} SomeWeight(s: Impulses, n: nat) returns (k: nat)
    requires n <= |s.a| && Weight(s, n) > 0.0
    ensures k < n && s.a[k] > 0.0
  {
    if s.a[n - 1] > 0.0 {
      k := n - 1;
    } else {
      k := SomeWeight(s, n - 1);
    }
  }

  ghost predicate AllAt(s: Shaper, time: real) {
    forall i :: 0 <= i < |s.a| ==> s.a[i] == 0.0 || s.t[i] == time
  }

  lemma NotSpread(s: Shaper, i: nat, k: nat)
    requires !Spread(s) && i < |s.a| && k < |s.a|
    ensures s.a[i] == 0.0 || s.a[k] == 0.0 || s.t[i] == s.t[k]
  {
  }

  lemma CommonTime(s: Shaper, k: nat, n: nat)
    requires !Spread(s) && k < |s.a| == n && s.a[k] > 0.0
    ensures AllAt(s, s.t[k]) && Shift(s) == s.t[k]
  {
    forall i | 0 <= i < |s.a| ensures s.a[i] == 0.0 || s.t[i] == s.t[k] {
      NotSpread(s, i, k);
    }
    TimeAt(s, s.t[k], n);
    var w, t := Weight(s, n), s.t[k];
    var inv := 1.0 / w;
    assert w * inv == 1.0;
    assert (w * t) * inv == t * (w * inv);
  }

  lemma {:induction false} TimeAt(s: Shaper, time: real, n: nat)
    requires AllAt(s, time) && n <= |s.a|
    ensures WeightedTime(s, n) == Weight(s, n) * time
  {
    if n > 0 {
      TimeAt(s, time, n - 1);
      var a, w := s.a[n - 1], Weight(s, n - 1);
      assert a * s.t[n - 1] == a * time;
      assert (w + a) * time == w * time + a * time;
    }
  }

  lemma {:induction false} NoOffsets(s: Shaper, time: real, h: real, scv: real, n: nat)
    requires AllAt(s, time) && Shift(s) == time && n <= |s.a|
    ensures Offset90(s, h, scv, n) == 0.0 && Offset180(s, h, n) == 0.0
  {
    hide Shift, Term90, Term180;
    if n > 0 {
      NoOffsets(s, time, h, scv, n - 1);
      NoTerm(s.a[n - 1], h, scv, s.t[n - 1] - time);
    }
  }

  lemma NoTerm(a: real, h: real, scv: real, d: real)
    requires a == 0.0 || d == 0.0
    ensures Term90(a, h, scv, d) == 0.0 && Term180(a, h, d) == 0.0
  {
  }

  // ---------- what smoothing is ----------

  function SquaredTime(s: Shaper, n: nat): real
    requires n <= |s.a|
  {
    if n == 0 then 0.0 else SquaredTime(s, n - 1) + s.a[n - 1] * (s.t[n - 1] * s.t[n - 1])
  }

  // The 180 degree offset, over the total weight W, is half the acceleration times the variance
  // of the impulse times: W times their second moment less the square of the first.
  lemma Offset180IsVariance(s: Shaper, h: real)
    ensures var n := |s.a|;
            Scaled(Offset180(s, h, n), Weight(s, n)) ==
            Scaled(h, Scaled(SquaredTime(s, n), Weight(s, n)) - Scaled(WeightedTime(s, n), WeightedTime(s, n)))
  {
    hide Weight, WeightedTime, SquaredTime, Offset180, Scaled, About, Shift;
    var n := |s.a|;
    Offset180Linear(s, h, n);
    SquaresAbout(s, Shift(s), n);
    MeanTime(s);
    var q, w, m := SquaredTime(s, n), Weight(s, n), WeightedTime(s, n);
    Variance(h, Offset180(s, 1.0, n), w, m, q, Shift(s));
  }

  lemma MeanTime(s: Shaper)
    ensures Scaled(Shift(s), Weight(s, |s.a|)) == WeightedTime(s, |s.a|)
  {
    hide Weight, WeightedTime;
    var w, m := Weight(s, |s.a|), WeightedTime(s, |s.a|);
    var inv := 1.0 / w;
    assert inv * w == 1.0;
    assert m * inv * w == m * (inv * w);
  }

  // The second moment about c, from the moments about 0.
  function About(q: real, m: real, w: real, c: real): real {
    q - 2.0 * (c * m) + c * c * w
  }

  lemma {:induction false} SquaresAbout(s: Shaper, c: real, n: nat)
    requires n <= |s.a| && c == Shift(s)
    ensures Offset180(s, 1.0, n) == About(SquaredTime(s, n), WeightedTime(s, n), Weight(s, n), c)
  {
    hide Shift, Term180, About;
    if n == 0 {
      AboutAdd(0.0, 0.0, 0.0, 0.0, 0.0, 0.0, c);
    } else {
      SquaresAbout(s, c, n - 1);
      AboutNext(SquaredTime(s, n - 1), WeightedTime(s, n - 1), Weight(s, n - 1),
                SquaredTime(s, n), WeightedTime(s, n), Weight(s, n), s.a[n - 1], s.t[n - 1], c);
    }
  }

  lemma AboutAdd(q: real, m: real, w: real, dq: real, dm: real, dw: real, c: real)
    ensures About(q + dq, m + dm, w + dw, c) == About(q, m, w, c) + About(dq, dm, dw, c)
  {
    var cc := c * c;
    assert cc * (w + dw) == cc * w + cc * dw;
    assert c * (m + dm) == c * m + c * dm;
  }

  lemma AboutNext(q0: real, m0: real, w0: real, q: real, m: real, w: real, a: real, t: real, c: real)
    requires q == q0 + a * (t * t) && m == m0 + a * t && w == w0 + a
    ensures About(q, m, w, c) == About(q0, m0, w0, c) + Term180(a, 1.0, t - c)
  {
    hide Term180, About;
    SquareAbout(a, t, c);
    AboutAdd(q0, m0, w0, a * (t * t), a * t, a, c);
  }

  lemma SquareAbout(a: real, t: real, c: real)
    ensures Term180(a, 1.0, t - c) == About(a * (t * t), a * t, a, c)
  {
    var d := t - c;
    assert d * d == t * t - 2.0 * (c * t) + c * c;
    assert a * (d * d) == a * (t * t) - 2.0 * (a * (c * t)) + a * (c * c);
    assert a * (c * t) == c * (a * t);
  }

  lemma Variance(h: real, offset: real, w: real, m: real, q: real, c: real)
    requires offset == About(q, m, w, c) && Scaled(c, w) == m
    ensures Scaled(Scaled(h, offset), w) == Scaled(h, Scaled(q, w) - Scaled(m, m))
  {
    assert c * c * w == c * m;
    assert offset == q - c * m;
    assert offset * w == q * w - c * m * w;
    assert c * m * w == m * m;
    assert h * offset * w == h * (offset * w);
  }

  // The weighted distances of the impulses from the shift.
  function Distances(s: Shaper, n: nat): real
    requires n <= |s.a|
  {
    if n == 0 then 0.0 else Distances(s, n - 1) + Scaled(s.a[n - 1], Abs(s.t[n - 1] - Shift(s)))
  }

  function Backwards(s: Shaper): (r: Shaper)
    ensures r.a == s.a && |r.t| == |s.t| && forall i :: 0 <= i < |s.t| ==> r.t[i] == -s.t[i]
  {
    var r := Impulses(s.a, seq(|s.t|, i requires 0 <= i < |s.t| => -s.t[i]));
    SameWeight(s, r, |s.a|);
    r
  }

  lemma {:induction false} SameWeight(s: Impulses, r: Impulses, n: nat)
    requires s.a == r.a && n <= |s.a|
    ensures Weight(s, n) == Weight(r, n)
  {
    if n > 0 {
      SameWeight(s, r, n - 1);
    }
  }

  lemma {:induction false} BackwardsTime(s: Shaper, n: nat)
    requires n <= |s.a|
    ensures WeightedTime(Backwards(s), n) == -WeightedTime(s, n)
  {
    hide Backwards;
    if n > 0 {
      BackwardsTime(s, n - 1);
    }
  }

  lemma BackwardsShift(s: Shaper)
    ensures Shift(Backwards(s)) == -Shift(s)
  {
    hide Backwards, Weight, WeightedTime;
    var n := |s.a|;
    SameWeight(s, Backwards(s), n);
    BackwardsTime(s, n);
    NegativeProduct(WeightedTime(s, n), 1.0 / Weight(s, n));
  }

  lemma NegativeProduct(x: real, y: real)
    ensures -x * y == -(x * y)
  {
  }

  // The 90 degree offset counts the impulses from the shift on, and run backwards those up to
  // it: both together are the 180 degree offset, and the corner velocity times the distances.
  lemma {:induction false} Offset90BothWays(s: Shaper, h: real, scv: real, n: nat)
    requires n <= |s.a|
    ensures Offset90(s, h, scv, n) + Offset90(Backwards(s), h, scv, n) ==
            Offset180(s, h, n) + Scaled(scv, Distances(s, n))
  {
    hide Backwards, Shift, Term90, Term180, Scaled;
    BackwardsShift(s);
    if n == 0 {
      NothingOf(scv);
    } else {
      Offset90BothWays(s, h, scv, n - 1);
      var a, d := s.a[n - 1], s.t[n - 1] - Shift(s);
      TermBothWays(a, h, scv, d);
      TermBothWays(a, h, scv, -d);
      if d == 0.0 {
        NoTerm(a, h, scv, d);
      }
      ScaledAdd(scv, Distances(s, n - 1), Scaled(a, Abs(d)));
    }
  }

  lemma NothingOf(x: real)
    ensures Scaled(x, 0.0) == 0.0
  {
  }

  lemma TermBothWays(a: real, h: real, scv: real, d: real)
    ensures Term90(a, h, scv, d) == Term180(a, h, d) + Scaled(scv, Scaled(a, d))
    ensures Term180(a, h, -d) == Term180(a, h, d)
  {
    assert a * (scv + h * d) * d == a * scv * d + a * h * (d * d);
    assert scv * (a * d) == a * scv * d;
    assert -d * -d == d * d;
  }

  // Two impulses in order: with u their distance over their total weight, the later one is
  // a0 * u behind the shift, the earlier one a1 * u ahead of it.
  lemma TwoImpulses(s: Shaper, root2: real, accel: real, scv: real, u: real)
    requires |s.a| == 2 && s.t[0] <= s.t[1] && Scaled(u, s.a[0] + s.a[1]) == s.t[1] - s.t[0]
    ensures s.a[0] + s.a[1] > 0.0
    ensures var a0, a1, h := s.a[0], s.a[1], Scaled(accel, 0.5);
            Smoothing(s, root2, accel, scv) ==
            Max(Scaled(Term90(a1, h, scv, Scaled(a0, u)), Scaled(1.0 / (a0 + a1), root2)),
                Scaled(h, Scaled(Scaled(a0, a1), Scaled(u, u))))
  {
    hide Shift, Term90, Term180, Scaled, Weight, WeightedTime, Offset90, Offset180;
    var a0, a1, h := s.a[0], s.a[1], Scaled(accel, 0.5);
    TwoWeights(s);
    MeanTime(s);
    TwoDistances(a0, a1, s.t[0], s.t[1], Shift(s), u);
    var late, early := s.t[1] - Shift(s), s.t[0] - Shift(s);
    TwoOffsets(s, h, scv);
    NonNegativeDistance(a0, a1, s.t[1] - s.t[0], u);
    if early == 0.0 {
      NoTerm(a0, h, scv, early);
    }
    TwoSquares(a0, a1, h, u, early, late);
  }

  lemma TwoWeights(s: Shaper)
    requires |s.a| == 2
    ensures Weight(s, 2) == s.a[0] + s.a[1] && WeightedTime(s, 2) == Scaled(s.a[0], s.t[0]) + Scaled(s.a[1], s.t[1])
  {
    assert Weight(s, 0) == 0.0 && WeightedTime(s, 0) == 0.0;
    assert Weight(s, 1) == Weight(s, 0) + s.a[0] && Weight(s, 2) == Weight(s, 1) + s.a[1];
    assert WeightedTime(s, 1) == WeightedTime(s, 0) + Scaled(s.a[0], s.t[0]);
    assert WeightedTime(s, 2) == WeightedTime(s, 1) + Scaled(s.a[1], s.t[1]);
  }

  lemma TwoOffsets(s: Shaper, h: real, scv: real)
    requires |s.a| == 2
    ensures var early, late := s.t[0] - Shift(s), s.t[1] - Shift(s);
            && Offset180(s, h, 2) == Term180(s.a[0], h, early) + Term180(s.a[1], h, late)
            && Offset90(s, h, scv, 2) == (if early >= 0.0 then Term90(s.a[0], h, scv, early) else 0.0) +
                                         (if late >= 0.0 then Term90(s.a[1], h, scv, late) else 0.0)
  {
    hide Shift, Term90, Term180;
    assert Offset180(s, h, 1) == Term180(s.a[0], h, s.t[0] - Shift(s));
    assert Offset90(s, h, scv, 1) == if s.t[0] >= Shift(s) then Term90(s.a[0], h, scv, s.t[0] - Shift(s)) else 0.0;
  }

  lemma TwoDistances(a0: real, a1: real, t0: real, t1: real, c: real, u: real)
    requires a0 + a1 > 0.0 && Scaled(c, a0 + a1) == Scaled(a0, t0) + Scaled(a1, t1) && Scaled(u, a0 + a1) == t1 - t0
    ensures t1 - c == Scaled(a0, u) && t0 - c == -Scaled(a1, u)
  {
    var w := a0 + a1;
    assert (t1 - c) * w == t1 * a0 + t1 * a1 - (a0 * t0 + a1 * t1);
    assert a0 * (t1 - t0) == a0 * t1 - a0 * t0 && a1 * (t1 - t0) == a1 * t1 - a1 * t0;
    assert a0 * u * w == a0 * (u * w) && a1 * u * w == a1 * (u * w);
    assert (t0 - c) * w == t0 * a0 + t0 * a1 - (a0 * t0 + a1 * t1);
    Cancel(t1 - c, a0 * u, w);
    Cancel(t0 - c, -(a1 * u), w);
    assert -(a1 * u) * w == -(a1 * u * w);
  }

  lemma Cancel(x: real, y: real, w: real)
    requires w > 0.0
    ensures x * w == y * w <==> x == y
  {
    var d := x - y;
    assert d * w == x * w - y * w;
    Sign(d, w);
  }

  lemma NonNegativeDistance(a0: real, a1: real, gap: real, u: real)
    requires a0 >= 0.0 && a1 >= 0.0 && a0 + a1 > 0.0 && gap >= 0.0 && Scaled(u, a0 + a1) == gap
    ensures Scaled(a0, u) >= 0.0 && Scaled(a1, u) >= 0.0
  {
    Sign(u, a0 + a1);
    ProductSign(a0, u);
    ProductSign(a1, u);
  }

  lemma TwoSquares(a0: real, a1: real, h: real, u: real, early: real, late: real)
    requires a0 + a1 > 0.0 && early == -Scaled(a1, u) && late == Scaled(a0, u)
    ensures Scaled(Term180(a0, h, early) + Term180(a1, h, late), 1.0 / (a0 + a1)) ==
            Scaled(h, Scaled(Scaled(a0, a1), Scaled(u, u)))
  {
    var w := a0 + a1;
    var x := h * (a0 * a1 * (u * u));
    TwoSquaresSum(a0, a1, h, u);
    var inv := 1.0 / w;
    assert w * inv == 1.0;
    assert x * w * inv == x * (w * inv);
  }

  lemma TwoSquaresSum(a0: real, a1: real, h: real, u: real)
    ensures Term180(a0, h, -(a1 * u)) + Term180(a1, h, a0 * u) == h * (a0 * a1 * (u * u)) * (a0 + a1)
  {
    var q := u * u;
    assert (a1 * u) * (a1 * u) == a1 * a1 * q && (a0 * u) * (a0 * u) == a0 * a0 * q;
    assert -(a1 * u) * -(a1 * u) == (a1 * u) * (a1 * u);
    var p := a0 * a1;
    assert a0 * h * (a1 * a1 * q) == h * (p * q) * a1;
    assert a1 * h * (a0 * a0 * q) == h * (p * q) * a0;
  }

  // ---------- bisection ----------

  ghost predicate Downward(f: real -> bool) {
    forall x, y :: x <= y && f(y) ==> f(x)
  }

  lemma HalvingFloor(y: real)
    requires y >= 1.0
    ensures (y / 2.0).Floor < y.Floor
  {
  }

  // y / 2 by way of a product
  lemma HalfProduct(x: real, k: real)
    ensures (x * 0.5) * k == (x * k) / 2.0
  {
  }

  // The search; `beyond` witnesses that the property fails somewhere, without which the source
  // does not stop.
  method Bisect(f: real -> bool, ghost beyond: real) returns (r: real)
    requires Downward(f) && !f(beyond)
    ensures !f(0.000000001) ==> r == 0.0
    ensures f(0.000000001) ==> r > 0.0 && f(r) && !f(r + 0.00000001)
  {
    if !f(0.000000001) {
      return 0.0;
    }
    var left, right := ShrinkLeft(f);
    if right == left {
      right := GrowRight(f, right, beyond);
    }
    r := Narrow(f, left, right);
  }

  // The first loop: halve until the property holds.
  method ShrinkLeft(f: real -> bool) returns (left: real, right: real)
    requires Downward(f) && f(0.000000001)
    ensures 0.0 < left <= right && f(left) && (right == left || !f(right))
    ensures right == left ==> left == 1.0
  {
    left, right := 1.0, 1.0;
    while !f(left)
      invariant 0.0 < left <= right && (right == left || !f(right)) && (right == left ==> left == 1.0)
      decreases (left * 1000000000.0).Floor
    {
      assert left > 0.000000001;
      HalvingFloor(left * 1000000000.0);
      HalfProduct(left, 1000000000.0);
      right := left;
      left := left * 0.5;
    }
  }

  // What n passes of the second loop make of its start.
  function Doubled(start: real, n: nat): real {
    if n == 0 then start else Doubled(start, n - 1) * 2.0
  }

  // The second loop: double until the property fails.
  method GrowRight(f: real -> bool, start: real, ghost beyond: real) returns (right: real)
    requires Downward(f) && !f(beyond) && start > 0.0 && f(start)
    ensures right > start && !f(right)
    ensures exists n: nat :: right == Doubled(start, n) && forall m: nat :: m < n ==> f(Doubled(start, m))
  {
    right := start;
    ghost var n := 0;
    while f(right)
      invariant right >= start && (right == start || right > start)
      invariant right == Doubled(start, n) && forall m: nat :: m < n ==> f(Doubled(start, m))
      decreases (beyond / right).Floor
    {
      assert beyond > right;
      QuotientHalves(beyond, right);
      right := right * 2.0;
      n := n + 1;
    }
  }

  lemma QuotientHalves(b: real, x: real)
    requires b > x > 0.0
    ensures (b / (x * 2.0)).Floor < (b / x).Floor
  {
    var q := b / x;
    assert q * x == b;
    var u := q - 1.0;
    assert u * x == b - x;
    Sign(u, x);
    var x2 := x * 2.0;
    var p := b / x2;
    assert p * x2 == b;
    assert p * x2 == 2.0 * p * x;
    SameFactor(2.0 * p, q, x);
    HalvingFloor(q);
  }

  lemma SameFactor(p: real, q: real, x: real)
    requires x != 0.0 && p * x == q * x
    ensures p == q
  {
    assert (p - q) * x == 0.0;
  }

  // The third loop: narrow the interval.
  method Narrow(f: real -> bool, lo: real, hi: real) returns (left: real)
    requires Downward(f) && lo <= hi && f(lo) && !f(hi)
    ensures left >= lo && f(left) && !f(left + 0.00000001)
  {
    left := lo;
    var right := hi;
    while right - left > 0.00000001
      invariant lo <= left <= right && f(left) && !f(right)
      decreases ((right - left) * 100000000.0).Floor
    {
      var middle := (left + right) * 0.5;
      var d := right - left;
      HalvingFloor(d * 100000000.0);
      HalfProduct(d, 100000000.0);
      assert middle - left == d * 0.5 && right - middle == d * 0.5;
      if f(middle) {
        left := middle;
      } else {
        right := middle;
      }
    }
  }

  const TARGET_SMOOTHING: real := 0.12

  ghost predicate Acceptable(s: Shaper, root2: real, scv: real, accel: real) {
    Smoothing(s, root2, accel, scv) <= TARGET_SMOOTHING
  }

  // For every spread shaper the search ends; when the smallest acceleration is acceptable, the
  // result is acceptable and anything 1e-8 larger or more is not.
  method FindShaperMaxAccel(s: Shaper, root2: real, scv: real) returns (maxAccel: real)
    requires root2 > 0.0 && Spread(s)
    ensures !Acceptable(s, root2, scv, 0.000000001) ==> maxAccel == 0.0
    ensures Acceptable(s, root2, scv, 0.000000001) ==>
              && maxAccel > 0.0 && Acceptable(s, root2, scv, maxAccel)
              && forall accel :: accel >= maxAccel + 0.00000001 ==> !Acceptable(s, root2, scv, accel)
  {
    hide Smoothing;
    var f := accel => Smoothing(s, root2, accel, scv) <= TARGET_SMOOTHING;
    ghost var beyond := SmoothingUnbounded(s, root2, scv, TARGET_SMOOTHING);
    forall x: real, y: real | x <= y && f(y) ensures f(x) {
      SmoothingMonotone(s, root2, x, y, scv);
    }
    maxAccel := Bisect(f, beyond);
    forall accel | accel >= maxAccel + 0.00000001 && Acceptable(s, root2, scv, 0.000000001)
      ensures !Acceptable(s, root2, scv, accel)
    {
      SmoothingMonotone(s, root2, maxAccel + 0.00000001, accel, scv);
    }
  }

  lemma {:induction false} DoubledGrows(n: nat)
    ensures Doubled(1.0, n) >= (n + 1) as real
  {
    if n > 0 {
      DoubledGrows(n - 1);
    }
  }

  // The doubling loop, which starts at 1, meets an unacceptable value after some number of
  // passes exactly when the shaper is spread; otherwise it goes on for ever.
  lemma SearchEndsIff(s: Shaper, root2: real, scv: real)
    requires root2 > 0.0
    ensures Spread(s) <==> exists n: nat :: !Acceptable(s, root2, scv, Doubled(1.0, n))
  {
    hide Smoothing, Spread;
    if Spread(s) {
      var accel := SmoothingUnbounded(s, root2, scv, TARGET_SMOOTHING);
      var n := accel.Floor;
      DoubledGrows(n);
      SmoothingMonotone(s, root2, accel, Doubled(1.0, n), scv);
      assert !Acceptable(s, root2, scv, Doubled(1.0, n));
    } else {
      forall n: nat ensures Acceptable(s, root2, scv, Doubled(1.0, n)) {
        NoSpreadNoSmoothing(s, root2, Doubled(1.0, n), scv);
      }
    }
  }
}
