/** Polynomials by their coefficients, lowest first: sums, products with a linear factor, and
    how many roots they can have. */
module Polynomial {
  import opened Support

  function Eval(p: seq<real>, x: real): real {
    if p == [] then 0.0 else p[0] + Times(x, Eval(p[1..], x))
  }

  function Add(p: seq<real>, q: seq<real>): (r: seq<real>)
    ensures |r| == if |p| < |q| then |q| else |p|
  {
    if p == [] then q else if q == [] then p else [p[0] + q[0]] + Add(p[1..], q[1..])
  }

  lemma {:induction false} EvalAdd(p: seq<real>, q: seq<real>, x: real)
    ensures Eval(Add(p, q), x) == Eval(p, x) + Eval(q, x)
  {
    hide Times;
    if p != [] && q != [] {
      EvalAdd(p[1..], q[1..], x);
      assert Add(p, q)[1..] == Add(p[1..], q[1..]);
      TimesSum(x, Eval(p[1..], x), Eval(q[1..], x));
    }
  }

  function Scale(k: real, p: seq<real>): (r: seq<real>)
    ensures |r| == |p|
  {
    if p == [] then [] else [Times(k, p[0])] + Scale(k, p[1..])
  }

  lemma {:induction false} EvalScale(k: real, p: seq<real>, x: real)
    ensures Eval(Scale(k, p), x) == Times(k, Eval(p, x))
  {
    hide Times;
    TimesZero(k);
    if p != [] {
      EvalScale(k, p[1..], x);
      assert Scale(k, p)[1..] == Scale(k, p[1..]);
      var rest := Eval(p[1..], x);
      TimesSum(k, p[0], Times(x, rest));
      TimesSwap(x, k, rest);
    }
  }

  // The product with x - r.
  function TimesFactor(p: seq<real>, r: real): (q: seq<real>)
    ensures |q| == |p| + 1
  {
    Add([0.0] + p, Scale(-r, p))
  }

  lemma EvalTimesFactor(p: seq<real>, r: real, x: real)
    ensures Eval(TimesFactor(p, r), x) == Times(Eval(p, x), x - r)
  {
    hide Times;
    var up := [0.0] + p;
    assert up[1..] == p;
    EvalAdd(up, Scale(-r, p), x);
    EvalScale(-r, p, x);
    TimesDifference(Eval(p, x), x, r);
  }

  // Division by x - r.
  function Quotient(p: seq<real>, r: real): (q: seq<real>)
    ensures |q| == if p == [] then 0 else |p| - 1
  {
    if |p| <= 1 then [] else [Eval(p[1..], r)] + Quotient(p[1..], r)
  }

  lemma {:induction false} EvalQuotient(p: seq<real>, r: real, x: real)
    ensures Eval(p, x) == Eval(p, r) + Times(x - r, Eval(Quotient(p, r), x))
  {
    hide Times;
    TimesZero(x);
    TimesZero(r);
    TimesZero(x - r);
    if |p| > 1 {
      var rest := p[1..];
      EvalQuotient(rest, r, x);
      var q := Quotient(rest, r);
      assert Quotient(p, r)[1..] == q;
      DivisionStep(x, r, Eval(rest, x), Eval(rest, r), Eval(q, x));
    } else if |p| == 1 {
      assert p[1..] == [];
    }
  }

  lemma DivisionStep(x: real, r: real, atX: real, atR: real, q: real)
    requires atX == atR + Times(x - r, q)
    ensures Times(x, atX) == Times(r, atR) + Times(x - r, atR + Times(x, q))
  {
    var d := x - r;
    assert x * (d * q) == d * (x * q);
    assert x * atX == x * atR + x * (d * q);
    assert d * (atR + x * q) == d * atR + d * (x * q);
    assert d * atR == x * atR - r * atR;
  }

  ghost predicate Different(points: seq<real>) {
    forall i, j :: 0 <= i < j < |points| ==> points[i] != points[j]
  }

  // A polynomial with as many roots as coefficients is zero everywhere.
  lemma {:induction false} TooManyRoots(p: seq<real>, roots: seq<real>, x: real)
    requires |p| <= |roots| && Different(roots)
    requires forall i :: 0 <= i < |roots| ==> Eval(p, roots[i]) == 0.0
    ensures Eval(p, x) == 0.0
    decreases |p|
  {
    hide Times;
    if p != [] {
      var n := |roots| - 1;
      var r := roots[n];
      var q := Quotient(p, r);
      forall i | 0 <= i < n ensures Eval(q, roots[i]) == 0.0 {
        EvalQuotient(p, r, roots[i]);
        NoDivisor(roots[i] - r, Eval(q, roots[i]));
      }
      TooManyRoots(q, roots[..n], x);
      EvalQuotient(p, r, x);
      TimesZero(x - r);
    }
  }

  lemma NoDivisor(x: real, y: real)
    requires x != 0.0 && Times(x, y) == 0.0
    ensures y == 0.0
  {
  }

  lemma TimesZero(x: real)
    ensures Times(x, 0.0) == 0.0
  {
  }

  lemma TimesSum(x: real, y: real, z: real)
    ensures Times(x, y + z) == Times(x, y) + Times(x, z)
  {
  }

  lemma TimesSwap(x: real, y: real, z: real)
    ensures Times(x, Times(y, z)) == Times(y, Times(x, z))
  {
    assert x * (y * z) == y * (x * z);
  }

  lemma TimesDifference(y: real, x: real, r: real)
    ensures Times(x, y) + Times(-r, y) == Times(y, x - r)
  {
  }
}
