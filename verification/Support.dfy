/** Shared by the other modules: an optional value, a few real-valued helpers with the sign of
    a product, and binary search in a sorted list. */
module Support {

  datatype Option<T> = None | Some(value: T)

  function Min(x: real, y: real): real {
    if x <= y then x else y
  }

  function Max(x: real, y: real): real {
    if x >= y then x else y
  }

  function Abs(x: real): real {
    if x < 0.0 then -x else x
  }

  function AbsInt(x: int): nat {
    if x < 0 then -x else x
  }

  // abs(a - b) <= max(rel_tol * max(abs(a), abs(b)), abs_tol)
  predicate IsClose(a: real, b: real, relTol: real, absTol: real) {
    Abs(a - b) <= Max(relTol * Max(Abs(a), Abs(b)), absTol)
  }

  function Times(x: real, y: real): real {
    x * y
  }

  lemma Sign(a: real, d: real)
    requires d > 0.0
    ensures (a * d > 0.0 <==> a > 0.0) && (a * d < 0.0 <==> a < 0.0)
  {
  }

  lemma ProductSign(x: real, y: real)
    requires x >= 0.0 && y >= 0.0
    ensures x * y >= 0.0 && (x * y == 0.0 <==> x == 0.0 || y == 0.0)
  {
  }

  lemma SquareSign(x: real)
    ensures x * x >= 0.0 && (x * x == 0.0 <==> x == 0.0)
  {
    var y := if x < 0.0 then -x else x;
    ProductSign(y, y);
    assert x * x == y * y;
  }

  // bisect.bisect: the insertion point after equal elements
  function Bisect(xs: seq<real>, x: real): (p: nat)
    ensures p <= |xs|
  {
    if xs == [] || x < xs[0] then 0 else 1 + Bisect(xs[1..], x)
  }

  lemma {:induction false} BisectBounds(xs: seq<real>, x: real)
    ensures var p := Bisect(xs, x);
            (p > 0 ==> xs[p - 1] <= x) && (p < |xs| ==> x < xs[p])
    decreases |xs|
  {
    if xs != [] && xs[0] <= x {
      BisectBounds(xs[1..], x);
    }
  }
}
