/** The height grid of a probed bed (software/klipper/extras/bed_mesh.py, class ZMesh).

    A matrix of probed heights is refined by interpolation along both axes and then looked up
    bilinearly.  Arithmetic is exact. */
module ZMesh {
  import opened Averages
  import opened Support

  // ---------- axes ----------

  // One axis: its ends, the number of probed points and the points added to each segment.
  datatype Axis = Axis(min: real, max: real, nodes: nat, pps: nat)

  predicate ValidAxis(a: Axis) {
    a.nodes >= 3 && a.min < a.max
  }

  function Mult(a: Axis): nat {
    a.pps + 1
  }

  function Count(a: Axis): (n: nat)
    requires a.nodes >= 3
    ensures n == (a.nodes - 1) * Mult(a) + 1 && n >= a.nodes
  {
    assert (a.nodes - 1) * (a.pps + 1) == (a.nodes - 1) * a.pps + (a.nodes - 1);
    NonNegative(a.nodes - 1, a.pps);
    (a.nodes - 1) * a.pps + a.nodes
  }

  lemma NonNegative(x: nat, y: nat)
    ensures x * y >= 0
  {
  }

  function Dist(a: Axis): (d: real)
    requires ValidAxis(a)
    ensures d > 0.0
  {
    QuotientPositive(a.max - a.min, (Count(a) - 1) as real);
    (a.max - a.min) / (Count(a) - 1) as real
  }

  lemma QuotientPositive(x: real, y: real)
    requires x > 0.0 && y > 0.0
    ensures x / y > 0.0
  {
    var q := x / y;
    assert q * y == x;
    Sign(q, y);
  }

  function Coordinate(a: Axis, index: int): real
    requires ValidAxis(a)
  {
    a.min + Dist(a) * index as real
  }

  // ---------- looking a height up ----------

  function Lerp(t: real, v0: real, v1: real): real {
    (1.0 - t) * v0 + t * v1
  }

  function Constrain(val: real, lo: real, hi: real): real {
    if (if lo > val then lo else val) < hi then (if lo > val then lo else val) else hi
  }

  function ConstrainInt(val: int, lo: int, hi: int): int {
    if (if lo > val then lo else val) < hi then (if lo > val then lo else val) else hi
  }

  // The cell an axis coordinate falls into.
  function CellOf(a: Axis, coord: real): (idx: nat)
    requires ValidAxis(a)
    ensures idx <= Count(a) - 2
  {
    ConstrainInt(((coord - a.min) / Dist(a)).Floor, 0, Count(a) - 2)
  }

  // How far along its cell, from 0 to 1.
  function Along(a: Axis, coord: real): (t: real)
    requires ValidAxis(a)
    ensures 0.0 <= t <= 1.0
  {
    Constrain((coord - Coordinate(a, CellOf(a, coord))) / Dist(a), 0.0, 1.0)
  }

  // A finished grid: rows along x, one for each y, and the offsets of BED_MESH_OFFSET.
  datatype Surface = Surface(x: Axis, y: Axis, rows: seq<seq<real>>, offsetX: real, offsetY: real)

  ghost predicate ValidSurface(s: Surface) {
    ValidAxis(s.x) && ValidAxis(s.y) && Rectangular(s.rows, Count(s.x), Count(s.y))
  }

  ghost predicate Rectangular(rows: seq<seq<real>>, width: nat, height: nat) {
    |rows| == height && forall j :: 0 <= j < height ==> |rows[j]| == width
  }

  function CalcZ(s: Surface, x: real, y: real): real
    requires ValidSurface(s)
  {
    var tx, xidx := Along(s.x, x + s.offsetX), CellOf(s.x, x + s.offsetX);
    var ty, yidx := Along(s.y, y + s.offsetY), CellOf(s.y, y + s.offsetY);
    var z0 := Lerp(tx, s.rows[yidx][xidx], s.rows[yidx][xidx + 1]);
    var z1 := Lerp(tx, s.rows[yidx + 1][xidx], s.rows[yidx + 1][xidx + 1]);
    Lerp(ty, z0, z1)
  }

  lemma LerpBetween(t: real, v0: real, v1: real, lo: real, hi: real)
    requires 0.0 <= t <= 1.0 && lo <= v0 <= hi && lo <= v1 <= hi
    ensures lo <= Lerp(t, v0, v1) <= hi
  {
    Spread(t, v0, v1, lo);
    Spread(t, hi - v0 + lo, hi - v1 + lo, lo);
    LerpFlip(t, v0, v1, hi + lo);
  }

  // A mixture of values above lo is above lo.
  lemma Spread(t: real, v0: real, v1: real, lo: real)
    requires 0.0 <= t <= 1.0 && lo <= v0 && lo <= v1
    ensures lo <= Lerp(t, v0, v1)
  {
    var u, d0, d1 := 1.0 - t, v0 - lo, v1 - lo;
    ProductSign(u, d0);
    ProductSign(t, d1);
    assert Lerp(t, v0, v1) == lo + u * d0 + t * d1;
  }

  lemma LerpFlip(t: real, v0: real, v1: real, c: real)
    ensures Lerp(t, c - v0, c - v1) == c - Lerp(t, v0, v1)
  {
  }

  ghost predicate Within(rows: seq<seq<real>>, lo: real, hi: real) {
    forall j, i :: 0 <= j < |rows| && 0 <= i < |rows[j]| ==> lo <= rows[j][i] <= hi
  }

  // The four corners of the cell a position falls into.
  ghost predicate CornersWithin(s: Surface, x: real, y: real, lo: real, hi: real)
    requires ValidSurface(s)
  {
    var xidx, yidx := CellOf(s.x, x + s.offsetX), CellOf(s.y, y + s.offsetY);
    && lo <= s.rows[yidx][xidx] <= hi && lo <= s.rows[yidx][xidx + 1] <= hi
    && lo <= s.rows[yidx + 1][xidx] <= hi && lo <= s.rows[yidx + 1][xidx + 1] <= hi
  }

  // A height stays within the four corners of its own cell, at any position, on or off the mesh.
  lemma CalcZWithinCorners(s: Surface, x: real, y: real, lo: real, hi: real)
    requires ValidSurface(s) && CornersWithin(s, x, y, lo, hi)
    ensures lo <= CalcZ(s, x, y) <= hi
  {
    hide Lerp, Along, CellOf, Count;
    var tx, xidx := Along(s.x, x + s.offsetX), CellOf(s.x, x + s.offsetX);
    var ty, yidx := Along(s.y, y + s.offsetY), CellOf(s.y, y + s.offsetY);
    LerpBetween(tx, s.rows[yidx][xidx], s.rows[yidx][xidx + 1], lo, hi);
    LerpBetween(tx, s.rows[yidx + 1][xidx], s.rows[yidx + 1][xidx + 1], lo, hi);
    LerpBetween(ty, Lerp(tx, s.rows[yidx][xidx], s.rows[yidx][xidx + 1]),
                Lerp(tx, s.rows[yidx + 1][xidx], s.rows[yidx + 1][xidx + 1]), lo, hi);
  }

  // So it is never outside the range of the grid.
  lemma CalcZWithin(s: Surface, x: real, y: real, lo: real, hi: real)
    requires ValidSurface(s) && Within(s.rows, lo, hi)
    ensures lo <= CalcZ(s, x, y) <= hi
  {
    hide CalcZ, CellOf, Count;
    CalcZWithinCorners(s, x, y, lo, hi);
  }

  // On the mesh the cell holds the coordinate and the fraction says where in it; beyond the
  // ends it is the outermost cell, at its edge.
  lemma CellHolds(a: Axis, coord: real)
    requires ValidAxis(a)
    ensures var k, t := CellOf(a, coord), Along(a, coord);
            && (a.min <= coord <= a.max ==>
                  Coordinate(a, k) <= coord <= Coordinate(a, k + 1) && coord == Coordinate(a, k) + t * Dist(a))
            && (coord <= a.min ==> k == 0 && t == 0.0)
            && (coord >= a.max ==> k == Count(a) - 2 && t == 1.0)
  {
    hide Dist, Count, Coordinate, ConstrainInt, Constrain;
    var k := CellOf(a, coord);
    var q := (coord - a.min) / Dist(a);
    Steps(coord - a.min, Dist(a));
    Compare(a, coord, q, 0);
    Compare(a, coord, q, Count(a) - 1);
    Compare(a, coord, q, k);
    Compare(a, coord, q, k + 1);
    AxisEnds(a);
    Clamped(q, Count(a), k);
  }

  lemma Steps(x: real, d: real)
    requires d > 0.0
    ensures x / d * d == x
  {
  }

  // Clamping the number of steps gives the cell and the fraction.
  lemma Clamped(q: real, n: int, k: int)
    requires n >= 3 && k == ConstrainInt(q.Floor, 0, n - 2)
    ensures 0.0 <= q <= (n - 1) as real ==> k as real <= q <= (k + 1) as real && Constrain(q - k as real, 0.0, 1.0) == q - k as real
    ensures q <= 0.0 ==> k == 0 && Constrain(q - k as real, 0.0, 1.0) == 0.0
    ensures q >= (n - 1) as real ==> k == n - 2 && Constrain(q - k as real, 0.0, 1.0) == 1.0
  {
  }

  // A coordinate q steps along the axis, seen from a grid line.
  lemma Compare(a: Axis, coord: real, q: real, k: int)
    requires ValidAxis(a) && q * Dist(a) == coord - a.min
    ensures Coordinate(a, k) <= coord <==> k as real <= q
    ensures coord <= Coordinate(a, k) <==> q <= k as real
    ensures (coord - Coordinate(a, k)) / Dist(a) == q - k as real
    ensures coord == Coordinate(a, k) + (q - k as real) * Dist(a)
  {
    hide Dist;
    CoordinateAt(a, k);
    var d, ahead := Dist(a), q - k as real;
    assert ahead * d == coord - Coordinate(a, k);
    Sign(ahead, d);
    FractionIs(coord - Coordinate(a, k), ahead, d);
  }

  lemma FractionIs(x: real, t: real, d: real)
    requires d > 0.0 && x == t * d
    ensures x / d == t
  {
  }

  lemma CoordinateAt(a: Axis, k: int)
    requires ValidAxis(a)
    ensures Coordinate(a, k) == a.min + k as real * Dist(a)
  {
  }

  lemma AxisEnds(a: Axis)
    requires ValidAxis(a)
    ensures Coordinate(a, 0) == a.min && Coordinate(a, Count(a) - 1) == a.max
  {
    var steps := (Count(a) - 1) as real;
    assert (a.max - a.min) / steps * steps == a.max - a.min;
  }

  function Linear(p: real, q: real, x: real): real {
    p + q * x
  }

  function Bilinear(a: real, b: real, c: real, e: real, x: real, y: real): real {
    a + b * x + c * y + e * (x * y)
  }

  lemma LerpLinear(t: real, x0: real, d: real, p: real, q: real)
    ensures Lerp(t, Linear(p, q, x0), Linear(p, q, x0 + d)) == Linear(p, q, x0 + t * d)
  {
    var f0, f1 := Linear(p, q, x0), Linear(p, q, x0 + d);
    assert f1 == f0 + q * d;
    assert Lerp(t, f0, f1) == f0 + t * (q * d);
    assert q * (x0 + t * d) == q * x0 + q * (t * d);
    assert t * (q * d) == q * (t * d);
  }

  lemma BilinearAlong(a: real, b: real, c: real, e: real, x: real, y: real)
    ensures Bilinear(a, b, c, e, x, y) == Linear(Linear(a, c, y), Linear(b, e, y), x)
    ensures Bilinear(a, b, c, e, x, y) == Linear(Linear(a, b, x), Linear(c, e, x), y)
  {
    assert e * (x * y) == e * y * x && e * (x * y) == e * x * y;
  }

  // The four corners of a position's cell lie on a bilinear function of their coordinates.
  ghost predicate CornersOn(s: Surface, x: real, y: real, a: real, b: real, c: real, e: real)
    requires ValidSurface(s)
  {
    var i, j := CellOf(s.x, x + s.offsetX), CellOf(s.y, y + s.offsetY);
    && s.rows[j][i] == Bilinear(a, b, c, e, Coordinate(s.x, i), Coordinate(s.y, j))
    && s.rows[j][i + 1] == Bilinear(a, b, c, e, Coordinate(s.x, i + 1), Coordinate(s.y, j))
    && s.rows[j + 1][i] == Bilinear(a, b, c, e, Coordinate(s.x, i), Coordinate(s.y, j + 1))
    && s.rows[j + 1][i + 1] == Bilinear(a, b, c, e, Coordinate(s.x, i + 1), Coordinate(s.y, j + 1))
  }

  // Everywhere on the mesh the height is that bilinear function, so between grid lines it is
  // determined by the corners.
  lemma CalcZBilinear(s: Surface, x: real, y: real, a: real, b: real, c: real, e: real)
    requires ValidSurface(s) && CornersOn(s, x, y, a, b, c, e)
    requires s.x.min <= x + s.offsetX <= s.x.max && s.y.min <= y + s.offsetY <= s.y.max
    ensures CalcZ(s, x, y) == Bilinear(a, b, c, e, x + s.offsetX, y + s.offsetY)
  {
    hide Lerp, Along, CellOf, Count, Linear, Bilinear, Coordinate, Dist;
    var px, py := x + s.offsetX, y + s.offsetY;
    var i, j := CellOf(s.x, px), CellOf(s.y, py);
    var x0, x1 := Coordinate(s.x, i), Coordinate(s.x, i + 1);
    var y0, y1 := Coordinate(s.y, j), Coordinate(s.y, j + 1);
    BilinearAlong(a, b, c, e, x0, y0);
    BilinearAlong(a, b, c, e, x1, y0);
    BilinearAlong(a, b, c, e, x0, y1);
    BilinearAlong(a, b, c, e, x1, y1);
    LerpInCell(s.x, px, Linear(a, c, y0), Linear(b, e, y0));
    LerpInCell(s.x, px, Linear(a, c, y1), Linear(b, e, y1));
    BilinearAlong(a, b, c, e, px, y0);
    BilinearAlong(a, b, c, e, px, y1);
    LerpInCell(s.y, py, Linear(a, b, px), Linear(c, e, px));
    BilinearAlong(a, b, c, e, px, py);
  }

  // Between its two grid lines a linear function is looked up exactly.
  lemma LerpInCell(a: Axis, coord: real, p: real, q: real)
    requires ValidAxis(a) && a.min <= coord <= a.max
    ensures var k := CellOf(a, coord);
            Lerp(Along(a, coord), Linear(p, q, Coordinate(a, k)), Linear(p, q, Coordinate(a, k + 1))) == Linear(p, q, coord)
  {
    hide Lerp, Along, CellOf, Count, Linear, Coordinate, Dist;
    var k := CellOf(a, coord);
    CellHolds(a, coord);
    NextCoordinate(a, k);
    LerpLinear(Along(a, coord), Coordinate(a, k), Dist(a), p, q);
  }

  lemma NextCoordinate(a: Axis, k: int)
    requires ValidAxis(a)
    ensures Coordinate(a, k + 1) == Coordinate(a, k) + Dist(a)
  {
    hide Dist;
    CoordinateAt(a, k);
    CoordinateAt(a, k + 1);
    assert (k + 1) as real == k as real + 1.0;
  }

  function Plane(a: real, b: real, c: real, x: real, y: real): real {
    a + b * x + c * y
  }

  // A grid that is a plane is looked up as that plane everywhere on the mesh.
  lemma CalcZOnPlane(s: Surface, x: real, y: real, a: real, b: real, c: real)
    requires ValidSurface(s)
    requires forall j, i :: 0 <= j < |s.rows| && 0 <= i < |s.rows[j]| ==>
               s.rows[j][i] == Plane(a, b, c, Coordinate(s.x, i), Coordinate(s.y, j))
    requires s.x.min <= x + s.offsetX <= s.x.max && s.y.min <= y + s.offsetY <= s.y.max
    ensures CalcZ(s, x, y) == Plane(a, b, c, x + s.offsetX, y + s.offsetY)
  {
    hide Lerp, Along, CellOf, Count, Coordinate, CalcZ, Bilinear, Plane;
    var i, j := CellOf(s.x, x + s.offsetX), CellOf(s.y, y + s.offsetY);
    PlaneIsBilinear(a, b, c, Coordinate(s.x, i), Coordinate(s.y, j));
    PlaneIsBilinear(a, b, c, Coordinate(s.x, i + 1), Coordinate(s.y, j));
    PlaneIsBilinear(a, b, c, Coordinate(s.x, i), Coordinate(s.y, j + 1));
    PlaneIsBilinear(a, b, c, Coordinate(s.x, i + 1), Coordinate(s.y, j + 1));
    CalcZBilinear(s, x, y, a, b, c, 0.0);
    PlaneIsBilinear(a, b, c, x + s.offsetX, y + s.offsetY);
  }

  lemma PlaneIsBilinear(a: real, b: real, c: real, x: real, y: real)
    ensures Bilinear(a, b, c, 0.0, x, y) == Plane(a, b, c, x, y)
  {
  }

  // At a grid coordinate the cell and fraction pick that grid line.
  lemma AtNode(a: Axis, index: nat)
    requires ValidAxis(a) && index < Count(a)
    ensures CellOf(a, Coordinate(a, index)) == if index == Count(a) - 1 then index - 1 else index
    ensures Along(a, Coordinate(a, index)) == if index == Count(a) - 1 then 1.0 else 0.0
  {
    var d := Dist(a);
    Cancel(index as real, d);
    assert (Coordinate(a, index) - a.min) / d == index as real;
    if index == Count(a) - 1 {
      assert Coordinate(a, index) - Coordinate(a, index - 1) == d;
      assert d / d == 1.0;
    } else {
      assert 0.0 / d == 0.0;
    }
  }

  lemma Cancel(x: real, d: real)
    requires d != 0.0
    ensures (d * x) / d == x
  {
  }

  lemma LerpEnds(v0: real, v1: real)
    ensures Lerp(0.0, v0, v1) == v0 && Lerp(1.0, v0, v1) == v1
  {
  }

  // The surface passes through every cell of the grid.
  lemma CalcZAtNode(s: Surface, i: nat, j: nat)
    requires ValidSurface(s) && i < Count(s.x) && j < Count(s.y)
    ensures CalcZ(s, Coordinate(s.x, i) - s.offsetX, Coordinate(s.y, j) - s.offsetY) == s.rows[j][i]
  {
    hide Lerp, Along, CellOf, Coordinate, Count;
    AtNode(s.x, i);
    AtNode(s.y, j);
    var x, y := Coordinate(s.x, i), Coordinate(s.y, j);
    assert x - s.offsetX + s.offsetX == x && y - s.offsetY + s.offsetY == y;
    var xidx, yidx := CellOf(s.x, x), CellOf(s.y, y);
    LerpEnds(s.rows[yidx][xidx], s.rows[yidx][xidx + 1]);
    LerpEnds(s.rows[yidx + 1][xidx], s.rows[yidx + 1][xidx + 1]);
    LerpEnds(s.rows[yidx][i], s.rows[yidx + 1][i]);
  }

  // ---------- range and average ----------

  predicate NonEmpty(rows: seq<seq<real>>) {
    rows != [] && forall j :: 0 <= j < |rows| ==> rows[j] != []
  }

  function RowLowest(row: seq<real>): (lo: real)
    requires row != []
    ensures lo in row && forall i :: 0 <= i < |row| ==> lo <= row[i]
  {
    if |row| == 1 then row[0] else Min(row[0], RowLowest(row[1..]))
  }

  function RowHighest(row: seq<real>): (hi: real)
    requires row != []
    ensures hi in row && forall i :: 0 <= i < |row| ==> row[i] <= hi
  {
    if |row| == 1 then row[0] else Max(row[0], RowHighest(row[1..]))
  }

  function Lowest(rows: seq<seq<real>>): (lo: real)
    requires NonEmpty(rows)
    ensures Attained(rows, lo) && forall j, i :: 0 <= j < |rows| && 0 <= i < |rows[j]| ==> lo <= rows[j][i]
  {
    var lows := seq(|rows|, j requires 0 <= j < |rows| => RowLowest(rows[j]));
    SomeRowHas(rows, lows, RowLowest(lows));
    assert forall j :: 0 <= j < |rows| ==> lows[j] == RowLowest(rows[j]);
    RowLowest(lows)
  }

  function Highest(rows: seq<seq<real>>): (hi: real)
    requires NonEmpty(rows)
    ensures Attained(rows, hi) && forall j, i :: 0 <= j < |rows| && 0 <= i < |rows[j]| ==> rows[j][i] <= hi
  {
    var highs := seq(|rows|, j requires 0 <= j < |rows| => RowHighest(rows[j]));
    SomeRowHas(rows, highs, RowHighest(highs));
    assert forall j :: 0 <= j < |rows| ==> highs[j] == RowHighest(rows[j]);
    RowHighest(highs)
  }

  // Some cell has the value v.
  ghost predicate Attained(rows: seq<seq<real>>, v: real) {
    exists j, i :: 0 <= j < |rows| && 0 <= i < |rows[j]| && rows[j][i] == v
  }

  lemma SomeRowHas(rows: seq<seq<real>>, chosen: seq<real>, v: real)
    requires |chosen| == |rows| && v in chosen && forall j :: 0 <= j < |rows| ==> chosen[j] in rows[j]
    ensures Attained(rows, v)
  {
    var j :| 0 <= j < |rows| && chosen[j] == v;
    var i :| 0 <= i < |rows[j]| && rows[j][i] == v;
  }

  lemma RangeIs(rows: seq<seq<real>>, lo: real, hi: real)
    requires NonEmpty(rows) && Within(rows, lo, hi) && Attained(rows, lo) && Attained(rows, hi)
    ensures lo == Lowest(rows) && hi == Highest(rows)
  {
    hide Lowest, Highest;
  }

  lemma RangeHolds(rows: seq<seq<real>>)
    requires NonEmpty(rows)
    ensures Within(rows, Lowest(rows), Highest(rows))
  {
    hide Lowest, Highest;
  }

  function GridSum(rows: seq<seq<real>>): real {
    if rows == [] then 0.0 else GridSum(rows[..|rows| - 1]) + Sum(rows[|rows| - 1])
  }

  function CellCount(rows: seq<seq<real>>): nat {
    if rows == [] then 0 else CellCount(rows[..|rows| - 1]) + |rows[|rows| - 1]|
  }

  // The nearest hundredth, an even one when two are equally near.
  function RoundHundredths(x: real): real {
    var below := (x * 100.0).Floor;
    var over := x * 100.0 - below as real;
    (if over > 0.5 || (over == 0.5 && below % 2 == 1) then below + 1 else below) as real / 100.0
  }

  function Average(rows: seq<seq<real>>): real
    requires NonEmpty(rows)
  {
    CellsPositive(rows);
    RoundHundredths(GridSum(rows) / CellCount(rows) as real)
  }

  // All cells, row after row.
  ghost function Cells(rows: seq<seq<real>>): seq<real> {
    if rows == [] then [] else Cells(rows[..|rows| - 1]) + rows[|rows| - 1]
  }

  lemma {:induction false} SumOfCells(rows: seq<seq<real>>)
    ensures GridSum(rows) == Sum(Cells(rows)) && CellCount(rows) == |Cells(rows)|
  {
    hide Sum;
    if rows == [] {
      SumOfOne(0.0);
    } else {
      SumOfCells(rows[..|rows| - 1]);
      SumJoin(Cells(rows[..|rows| - 1]), rows[|rows| - 1]);
    }
  }

  // v is n hundredths, as near to x as can be; of two equally near the even one.
  ghost predicate NearestHundredth(v: real, x: real, n: int) {
    var gap := Abs(100.0 * x - n as real);
    100.0 * v == n as real && gap <= 0.5 && (gap == 0.5 ==> n % 2 == 0)
  }

  lemma RoundingIsNearest(x: real) returns (n: int)
    ensures NearestHundredth(RoundHundredths(x), x, n)
  {
    var below := (x * 100.0).Floor;
    var over := x * 100.0 - below as real;
    n := if over > 0.5 || (over == 0.5 && below % 2 == 1) then below + 1 else below;
  }

  // The average is the hundredth nearest to the mean of all cells.
  lemma AverageIsMean(rows: seq<seq<real>>) returns (n: int)
    requires NonEmpty(rows)
    ensures Cells(rows) != [] && NearestHundredth(Average(rows), Mean(Cells(rows)), n)
  {
    hide RoundHundredths, GridSum, CellCount, Cells, Sum, NearestHundredth;
    SumOfCells(rows);
    CellsPositive(rows);
    n := RoundingIsNearest(Mean(Cells(rows)));
  }

  lemma CellsPositive(rows: seq<seq<real>>)
    requires NonEmpty(rows)
    ensures CellCount(rows) > 0
  {
  }

  // It is in the range of the grid, but for the rounding.
  lemma AverageInRange(rows: seq<seq<real>>, lo: real, hi: real)
    requires NonEmpty(rows) && Within(rows, lo, hi)
    ensures lo - 0.005 <= Average(rows) <= hi + 0.005
  {
    hide GridSum, CellCount, Cells, Mean, Average;
    CellsWithin(rows, lo, hi);
    var n := AverageIsMean(rows);
    MeanBetween(Cells(rows), lo, hi);
  }

  lemma {:induction false} CellsWithin(rows: seq<seq<real>>, lo: real, hi: real)
    requires Within(rows, lo, hi)
    ensures forall i :: 0 <= i < |Cells(rows)| ==> lo <= Cells(rows)[i] <= hi
  {
    if rows != [] {
      CellsWithin(rows[..|rows| - 1], lo, hi);
    }
  }

  // ---------- the zero reference ----------

  ghost predicate Shifted(rows: seq<seq<real>>, from: seq<seq<real>>, offset: real) {
    && |rows| == |from|
    && forall j :: 0 <= j < |rows| ==>
         |rows[j]| == |from[j]| && forall i :: 0 <= i < |rows[j]| ==> rows[j][i] == from[j][i] - offset
  }

  lemma LerpShift(t: real, v0: real, v1: real, c: real)
    ensures Lerp(t, v0 - c, v1 - c) == Lerp(t, v0, v1) - c
  {
  }

  // Subtracting a constant from the grid subtracts it from every height.
  lemma CalcZShift(s: Surface, rows: seq<seq<real>>, c: real, x: real, y: real)
    requires ValidSurface(s) && Shifted(rows, s.rows, c)
    ensures ValidSurface(s.(rows := rows)) && CalcZ(s.(rows := rows), x, y) == CalcZ(s, x, y) - c
  {
    hide Lerp, Along, CellOf, Count;
    var tx, xidx := Along(s.x, x + s.offsetX), CellOf(s.x, x + s.offsetX);
    var ty, yidx := Along(s.y, y + s.offsetY), CellOf(s.y, y + s.offsetY);
    LerpShift(tx, s.rows[yidx][xidx], s.rows[yidx][xidx + 1], c);
    LerpShift(tx, s.rows[yidx + 1][xidx], s.rows[yidx + 1][xidx + 1], c);
    LerpShift(ty, Lerp(tx, s.rows[yidx][xidx], s.rows[yidx][xidx + 1]),
              Lerp(tx, s.rows[yidx + 1][xidx], s.rows[yidx + 1][xidx + 1]), c);
  }

  // ---------- interpolation along an axis ----------

  datatype Algorithm = Lagrange | Bicubic(tension: real)

  ghost predicate Distinct(pts: seq<real>) {
    forall i, j :: 0 <= i < j < |pts| ==> pts[i] < pts[j]
  }

  function Numerator(pts: seq<real>, i: nat, c: real, k: nat): real
    requires i < |pts| && k <= |pts|
  {
    if k == 0 then 1.0
    else if k - 1 == i then Numerator(pts, i, c, k - 1)
    else Times(Numerator(pts, i, c, k - 1), c - pts[k - 1])
  }

  function Denominator(pts: seq<real>, i: nat, k: nat): (d: real)
    requires i < |pts| && k <= |pts| && Distinct(pts)
    ensures d != 0.0
  {
    if k == 0 then 1.0
    else if k - 1 == i then Denominator(pts, i, k - 1)
    else
      NonZeroProduct(Denominator(pts, i, k - 1), pts[i] - pts[k - 1]);
      Times(Denominator(pts, i, k - 1), pts[i] - pts[k - 1])
  }

  lemma NonZeroProduct(x: real, y: real)
    requires x != 0.0 && y != 0.0
    ensures Times(x, y) != 0.0
  {
  }

  function Term(z: real, n: real, d: real): real
    requires d != 0.0
  {
    z * n / d
  }

  // The first k terms of the Lagrange polynomial of the values zs at the points pts.
  function LagrangeSum(pts: seq<real>, zs: seq<real>, c: real, k: nat): real
    requires |pts| == |zs| && k <= |pts| && Distinct(pts)
  {
    if k == 0 then 0.0
    else LagrangeSum(pts, zs, c, k - 1) +
         Term(zs[k - 1], Numerator(pts, k - 1, c, |pts|), Denominator(pts, k - 1, |pts|))
  }

  lemma {:induction false} NumeratorAtPoint(pts: seq<real>, i: nat, m: nat, k: nat)
    requires i < |pts| && m < |pts| && k <= |pts| && Distinct(pts)
    ensures i == m ==> Numerator(pts, i, pts[m], k) == Denominator(pts, i, k)
    ensures i != m && m < k ==> Numerator(pts, i, pts[m], k) == 0.0
  {
    if k > 0 {
      NumeratorAtPoint(pts, i, m, k - 1);
    }
  }

  // The polynomial takes the probed value at every probed point.
  lemma {:induction false} LagrangeAtPoint(pts: seq<real>, zs: seq<real>, m: nat, k: nat)
    requires |pts| == |zs| && m < |pts| && k <= |pts| && Distinct(pts)
    ensures LagrangeSum(pts, zs, pts[m], k) == if m < k then zs[m] else 0.0
  {
    hide Numerator, Denominator, Term;
    if k > 0 {
      LagrangeAtPoint(pts, zs, m, k - 1);
      NumeratorAtPoint(pts, k - 1, m, |pts|);
      TermAtPoint(zs[k - 1], Numerator(pts, k - 1, pts[m], |pts|), Denominator(pts, k - 1, |pts|));
    }
  }

  lemma TermAtPoint(z: real, n: real, d: real)
    requires d != 0.0 && (n == d || n == 0.0)
    ensures Term(z, n, d) == if n == d then z else 0.0
  {
    if n == d {
      assert z * n / d == z;
    } else {
      assert z * n == 0.0;
    }
  }

  // Four control values and the fraction between the middle two.
  datatype Control = Control(p0: real, p1: real, p2: real, p3: real, t: real)

  function Spline(c: Control, tension: real): real {
    var t2 := c.t * c.t;
    var t3 := t2 * c.t;
    var m1 := tension * (c.p2 - c.p0);
    var m2 := tension * (c.p3 - c.p1);
    c.p1 * (2.0 * t3 - 3.0 * t2 + 1.0) + c.p2 * (-2.0 * t3 + 3.0 * t2) + m1 * (t3 - 2.0 * t2 + c.t) + m2 * (t3 - t2)
  }

  // The spline joins the two middle values, and a level stretch stays level.
  lemma SplineEnds(c: Control, tension: real)
    ensures c.t == 0.0 ==> Spline(c, tension) == c.p1
    ensures c.t == 1.0 ==> Spline(c, tension) == c.p2
    ensures c.p0 == c.p1 == c.p2 == c.p3 ==> Spline(c, tension) == c.p1
  {
    if c.t == 0.0 {
      assert c.t * c.t == 0.0 && c.t * c.t * c.t == 0.0;
    }
    if c.t == 1.0 {
      assert c.t * c.t == 1.0 && c.t * c.t * c.t == 1.0;
    }
    if c.p0 == c.p1 == c.p2 == c.p3 {
      var t2 := c.t * c.t;
      var t3 := t2 * c.t;
      Level(c.p1, t2, t3);
      assert tension * (c.p2 - c.p0) == 0.0 && tension * (c.p3 - c.p1) == 0.0;
    }
  }

  lemma Level(p: real, t2: real, t3: real)
    ensures p * (2.0 * t3 - 3.0 * t2 + 1.0) + p * (-2.0 * t3 + 3.0 * t2) == p
  {
  }

  // The control values of a grid index between two nodes; the outermost node is doubled in
  // the first and the last segment.
  function ControlAt(nodes: seq<real>, mult: nat, index: nat): Control
    requires |nodes| >= 3 && mult > 0 && index / mult < |nodes| - 1
  {
    var k := index / mult;
    Control(if k == 0 then nodes[0] else nodes[k - 1], nodes[k], nodes[k + 1],
            if k == |nodes| - 2 then nodes[k + 1] else nodes[k + 2],
            (index - k * mult) as real / mult as real)
  }

  function NodePoints(a: Axis): (pts: seq<real>)
    requires ValidAxis(a)
    ensures |pts| == a.nodes
  {
    seq(a.nodes, k requires 0 <= k < a.nodes => Coordinate(a, k * Mult(a)))
  }

  lemma NodePointsDistinct(a: Axis)
    requires ValidAxis(a)
    ensures Distinct(NodePoints(a))
  {
    hide Coordinate;
    forall i, j | 0 <= i < j < a.nodes ensures NodePoints(a)[i] < NodePoints(a)[j] {
      MultiplesRise(i, j, Mult(a));
      CoordinateRises(a, i * Mult(a), j * Mult(a));
    }
  }

  lemma MultiplesRise(i: nat, j: nat, m: nat)
    requires i < j && m > 0
    ensures i * m < j * m
  {
    SmallBounds(j - i, m);
    assert j * m - i * m == (j - i) * m;
  }

  lemma CoordinateRises(a: Axis, i: int, j: int)
    requires ValidAxis(a) && i < j
    ensures Coordinate(a, i) < Coordinate(a, j)
  {
    var d, e := Dist(a), (j - i) as real;
    Sign(e, d);
    assert Coordinate(a, j) - Coordinate(a, i) == e * d;
  }

  lemma CellOfIndex(a: Axis, index: nat)
    requires ValidAxis(a) && index < Count(a)
    ensures index / Mult(a) < a.nodes
    ensures index % Mult(a) != 0 ==> index / Mult(a) < a.nodes - 1
  {
    var m := Mult(a);
    var k := index / m;
    assert index == k * m + index % m;
    var e := k - (a.nodes - 1);
    assert e * m == k * m - (a.nodes - 1) * m;
    SmallBounds(e, m);
  }

  lemma AtLeast(x: nat, y: nat, m: nat)
    requires x >= y
    ensures x * m >= y * m
  {
  }

  // The value at a grid index of an axis with given node values.
  ghost function At(algo: Algorithm, a: Axis, nodes: seq<real>, index: nat): real
    requires ValidAxis(a) && |nodes| == a.nodes && index < Count(a)
  {
    CellOfIndex(a, index);
    if index % Mult(a) == 0 then nodes[index / Mult(a)]
    else match algo
      case Lagrange =>
        NodePointsDistinct(a);
        LagrangeSum(NodePoints(a), nodes, Coordinate(a, index), a.nodes)
      case Bicubic(tension) => Spline(ControlAt(nodes, Mult(a), index), tension)
  }

  // What filling the grid means: every column is interpolated from the values the probed rows
  // have there, and each of these is interpolated from the probed heights of its row.
  ghost function Filled(algo: Algorithm, x: Axis, y: Axis, z: seq<seq<real>>, j: nat, i: nat): real
    requires ValidAxis(x) && ValidAxis(y) && Rectangular(z, x.nodes, y.nodes) && i < Count(x) && j < Count(y)
  {
    At(algo, y, ColumnNodes(algo, x, y, z, i), j)
  }

  ghost function ColumnNodes(algo: Algorithm, x: Axis, y: Axis, z: seq<seq<real>>, i: nat): (nodes: seq<real>)
    requires ValidAxis(x) && Rectangular(z, x.nodes, y.nodes) && i < Count(x)
    ensures |nodes| == y.nodes
  {
    seq(y.nodes, k requires 0 <= k < y.nodes => At(algo, x, z[k], i))
  }

  // Every probed height is found again in its cell of the filled grid.
  lemma ProbedCellsKept(algo: Algorithm, x: Axis, y: Axis, z: seq<seq<real>>, k: nat, l: nat)
    requires ValidAxis(x) && ValidAxis(y) && Rectangular(z, x.nodes, y.nodes) && k < y.nodes && l < x.nodes
    ensures k * Mult(y) < Count(y) && l * Mult(x) < Count(x)
    ensures Filled(algo, x, y, z, k * Mult(y), l * Mult(x)) == z[k][l]
  {
    NodeIndex(y, k);
    NodeIndex(x, l);
  }

  lemma NodeIndex(a: Axis, k: nat)
    requires ValidAxis(a) && k < a.nodes
    ensures 0 <= k * Mult(a) < Count(a) && (k * Mult(a)) % Mult(a) == 0 && (k * Mult(a)) / Mult(a) == k
  {
    var m := Mult(a);
    AtLeast(a.nodes - 1, k, m);
    AtLeast(k, 0, m);
    DivMultiple(k, m);
  }

  lemma DivMultiple(k: nat, m: nat)
    requires m > 0
    ensures (k * m) % m == 0 && (k * m) / m == k
  {
    var q, r := (k * m) / m, (k * m) % m;
    assert k * m == q * m + r;
    assert (k - q) * m == r;
    Small(k - q, m);
  }

  lemma Small(e: int, m: int)
    requires m > 0 && 0 <= e * m < m
    ensures e == 0
  {
    SmallBounds(e, m);
  }

  lemma SmallBounds(e: int, m: int)
    requires m > 0
    ensures (e >= 1 ==> e * m >= m) && (e <= -1 ==> e * m < 0)
  {
  }
}
