/** Building and changing a height grid in place (software/klipper/extras/bed_mesh.py,
    class ZMesh). */
module MeshFill {
  import opened Support
  import opened ZMesh

  // A list of lists that several owners may share.
  class Matrix {
    var rows: seq<seq<real>>

    constructor (rows: seq<seq<real>>)
      ensures this.rows == rows
    {
      this.rows := rows;
    }
  }

  // ---------- one line of the grid ----------

  ghost function NodesOf(a: Axis, line: seq<real>): (nodes: seq<real>)
    requires ValidAxis(a) && |line| == Count(a)
    ensures |nodes| == a.nodes
  {
    seq(a.nodes, k requires 0 <= k < a.nodes => NodeIndex(a, k); line[k * Mult(a)])
  }

  lemma NodeAt(a: Axis, line: seq<real>, k: nat)
    requires ValidAxis(a) && |line| == Count(a) && k < a.nodes
    ensures 0 <= k * Mult(a) < Count(a) && NodesOf(a, line)[k] == line[k * Mult(a)]
  {
    NodeIndex(a, k);
  }

  // _calc_lagrange along a row or a column
  method CalcLagrange(a: Axis, line: seq<real>, lpts: seq<real>, c: real) returns (total: real)
    requires ValidAxis(a) && |line| == Count(a) && lpts == NodePoints(a)
    ensures Distinct(lpts) && total == LagrangeSum(lpts, NodesOf(a, line), c, a.nodes)
  {
    NodePointsDistinct(a);
    hide NodePoints, NodesOf, Distinct, Numerator, Denominator, Term;
    total := 0.0;
    for i := 0 to |lpts|
      invariant total == LagrangeSum(lpts, NodesOf(a, line), c, i)
    {
      var n, d := Products(lpts, i, c);
      NodeAt(a, line, i);
      var z := line[i * Mult(a)];
      total := total + Term(z, n, d);
    }
  }

  // The inner loop of _calc_lagrange.
  method Products(lpts: seq<real>, i: nat, c: real) returns (n: real, d: real)
    requires i < |lpts| && Distinct(lpts)
    ensures n == Numerator(lpts, i, c, |lpts|) && d == Denominator(lpts, i, |lpts|)
  {
    hide Times;
    n, d := 1.0, 1.0;
    for j := 0 to |lpts|
      invariant n == Numerator(lpts, i, c, j) && d == Denominator(lpts, i, j)
    {
      if j != i {
        n := Times(n, c - lpts[j]);
        d := Times(d, lpts[i] - lpts[j]);
      }
    }
  }

  // The segment that contains an index between two nodes, which the source searches for.
  lemma SegmentIs(a: Axis, index: nat, k: nat)
    requires ValidAxis(a) && index < Count(a) && k * Mult(a) < index < k * Mult(a) + Mult(a)
    ensures index / Mult(a) == k
  {
    var m := Mult(a);
    var q := index / m;
    assert index == q * m + index % m;
    assert (q - k) * m == q * m - k * m;
    SmallBounds(q - k, m);
    SmallBounds(k - q, m);
    assert (k - q) * m == k * m - q * m;
  }

  lemma StepNode(k: nat, m: nat)
    ensures (k + 1) * m == k * m + m
  {
  }

  // The control values of segment k, read from the line itself.
  lemma SegmentControl(a: Axis, line: seq<real>, index: nat, k: nat)
    requires ValidAxis(a) && |line| == Count(a) && index < Count(a) && index % Mult(a) != 0
    requires k < a.nodes - 1 && k * Mult(a) < index < k * Mult(a) + Mult(a)
    ensures var m, i := Mult(a), k * Mult(a);
            && index / m == k && 0 <= i && i + m < Count(a)
            && (k > 0 ==> i >= m) && (k < a.nodes - 2 ==> i + 2 * m < Count(a))
            && ControlAt(NodesOf(a, line), m, index) ==
               Control(if k == 0 then line[0] else line[i - m], line[i], line[i + m],
                       if k == a.nodes - 2 then line[i + m] else line[i + 2 * m], (index - i) as real / m as real)
  {
    SegmentIs(a, index, k);
    hide NodesOf;
    var m := Mult(a);
    StepNode(k, m);
    NodeAt(a, line, k);
    NodeAt(a, line, k + 1);
    if k > 0 {
      StepNode(k - 1, m);
      NodeAt(a, line, k - 1);
    }
    if k < a.nodes - 2 {
      StepNode(k + 1, m);
      NodeAt(a, line, k + 2);
    }
    NodeAt(a, line, 0);
  }

  // _get_x_ctl_pts and _get_y_ctl_pts; None stands for the error of a failed search.
  method GetCtlPts(a: Axis, line: seq<real>, index: nat) returns (r: Option<Control>)
    requires ValidAxis(a) && |line| == Count(a) && index < Count(a) && index % Mult(a) != 0
    ensures index / Mult(a) < a.nodes - 1
    ensures r == Some(ControlAt(NodesOf(a, line), Mult(a), index))
    ensures 0.0 < r.value.t < 1.0
  {
    hide NodesOf, ControlAt, Count;
    CellOfIndex(a, index);
    var mult := Mult(a);
    var lastPt := Count(a) - 1 - mult;
    LastSegmentAt(a);
    FractionOf(a, line, index);
    if index < mult {
      FirstControl(a, line, index);
      r := Some(Control(line[0], line[0], line[mult], line[2 * mult], index as real / mult as real));
    } else if index > lastPt {
      LastControl(a, line, index);
      r := Some(Control(line[lastPt - mult], line[lastPt], line[lastPt + mult], line[lastPt + mult],
                        (index - lastPt) as real / mult as real));
    } else {
      InnerSegment(a, index, index / Mult(a));
      r := SearchSegment(a, line, index, lastPt);
    }
  }

  lemma FirstControl(a: Axis, line: seq<real>, index: nat)
    requires ValidAxis(a) && |line| == Count(a) && index < Mult(a) && index % Mult(a) != 0
    ensures 2 * Mult(a) < |line| && index / Mult(a) < a.nodes - 1
    ensures ControlAt(NodesOf(a, line), Mult(a), index) ==
            Control(line[0], line[0], line[Mult(a)], line[2 * Mult(a)], index as real / Mult(a) as real)
  {
    hide NodesOf, ControlAt, Count, Mult;
    LastSegmentAt(a);
    AtLeast(a.nodes - 2, 1, Mult(a));
    FirstIndex(index, Mult(a));
    SegmentControl(a, line, index, 0);
  }

  lemma FirstIndex(index: nat, m: nat)
    requires index < m && index % m != 0
    ensures 0 < index && index / m == 0 && 0 * m == 0
  {
  }

  lemma LastControl(a: Axis, line: seq<real>, index: nat)
    requires ValidAxis(a) && |line| == Count(a) && index < Count(a) && index % Mult(a) != 0
    requires index > Count(a) - 1 - Mult(a)
    ensures index / Mult(a) < a.nodes - 1
    ensures var i := Count(a) - 1 - Mult(a);
            && Mult(a) <= i && i + Mult(a) < |line|
            && ControlAt(NodesOf(a, line), Mult(a), index) ==
               Control(line[i - Mult(a)], line[i], line[i + Mult(a)], line[i + Mult(a)],
                       (index - i) as real / Mult(a) as real)
  {
    hide NodesOf, ControlAt, Count;
    LastSegmentAt(a);
    LastControlAt(a, line, index, a.nodes - 2, Count(a) - 1 - Mult(a));
  }

  lemma LastControlAt(a: Axis, line: seq<real>, index: nat, k: nat, i: nat)
    requires ValidAxis(a) && |line| == Count(a) && index < Count(a) && index % Mult(a) != 0
    requires k == a.nodes - 2 && i == k * Mult(a) && Count(a) == i + Mult(a) + 1 && i < index
    ensures index / Mult(a) < a.nodes - 1 && Mult(a) <= i
    ensures ControlAt(NodesOf(a, line), Mult(a), index) ==
            Control(line[i - Mult(a)], line[i], line[i + Mult(a)], line[i + Mult(a)],
                    (index - i) as real / Mult(a) as real)
  {
    hide NodesOf, ControlAt, Count;
    DivMultiple(k, Mult(a));
    NotLastNode(index, i, Mult(a));
    SegmentControl(a, line, index, k);
  }

  lemma NotLastNode(index: nat, i: nat, m: nat)
    requires m > 0 && i % m == 0 && i < index <= i + m && index % m != 0
    ensures index < i + m
  {
    var k := i / m;
    assert i == k * m && (k + 1) * m == i + m;
    DivMultiple(k + 1, m);
  }

  lemma FractionOf(a: Axis, line: seq<real>, index: nat)
    requires ValidAxis(a) && |line| == Count(a) && index < Count(a) && index % Mult(a) != 0
    requires index / Mult(a) < a.nodes - 1
    ensures 0.0 < ControlAt(NodesOf(a, line), Mult(a), index).t < 1.0
  {
    hide NodesOf;
    assert index - index / Mult(a) * Mult(a) == index % Mult(a);
    FractionInside(index % Mult(a), Mult(a));
  }

  lemma LastSegmentAt(a: Axis)
    requires ValidAxis(a)
    ensures Count(a) - 1 - Mult(a) == (a.nodes - 2) * Mult(a)
    ensures Count(a) == (a.nodes - 2) * Mult(a) + Mult(a) + 1
  {
    StepNode(a.nodes - 2, Mult(a));
  }

  // The search loop; the index lies in an inner segment.
  method SearchSegment(a: Axis, line: seq<real>, index: nat, lastPt: nat) returns (r: Option<Control>)
    requires ValidAxis(a) && |line| == Count(a) && index < Count(a) && index % Mult(a) != 0
    requires lastPt == (a.nodes - 2) * Mult(a) && 1 <= index / Mult(a) < a.nodes - 2
    ensures r == Some(ControlAt(NodesOf(a, line), Mult(a), index))
  {
    hide NodesOf, ControlAt, Count;
    var mult := Mult(a);
    ghost var seg := index / mult;
    var i := mult;
    ghost var k := 1;
    SegmentBefore(a, k, mult);
    while i < lastPt
      invariant i == k * mult && 1 <= k <= seg && i < lastPt
      decreases lastPt - i
    {
      if index > i && index < i + mult {
        SegmentControl(a, line, index, k);
        return Some(Control(line[i - mult], line[i], line[i + mult], line[i + 2 * mult],
                            (index - i) as real / mult as real));
      }
      NextSegment(a, index, k, seg);
      StepNode(k, mult);
      SegmentBefore(a, k + 1, mult);
      i := i + mult;
      k := k + 1;
    }
    return None;
  }

  lemma FractionInside(r: nat, m: nat)
    requires 0 < r < m
    ensures 0.0 < r as real / m as real < 1.0
  {
    var q := r as real / m as real;
    assert q * m as real == r as real;
    Sign(q, m as real);
    Sign(1.0 - q, m as real);
    assert (1.0 - q) * m as real == m as real - r as real;
  }

  lemma InnerSegment(a: Axis, index: nat, seg: nat)
    requires ValidAxis(a) && seg == index / Mult(a) && index % Mult(a) != 0
    requires Mult(a) <= index <= (a.nodes - 2) * Mult(a)
    ensures 1 <= seg < a.nodes - 2
  {
    var m := Mult(a);
    assert index == seg * m + index % m;
    SmallBounds(seg, m);
    var e := seg - (a.nodes - 2);
    assert e * m == seg * m - (a.nodes - 2) * m;
    SmallBounds(e, m);
  }

  // If the search does not stop at segment k, the index lies further on.
  lemma NextSegment(a: Axis, index: nat, k: nat, seg: nat)
    requires ValidAxis(a) && seg == index / Mult(a) && index % Mult(a) != 0 && k <= seg
    requires !(index > k * Mult(a) && index < k * Mult(a) + Mult(a))
    ensures k + 1 <= seg
  {
    assert index == seg * Mult(a) + index % Mult(a);
  }

  lemma SegmentBefore(a: Axis, k: nat, m: nat)
    requires m == Mult(a) && k < a.nodes - 2
    ensures k * m < (a.nodes - 2) * m
  {
    MultiplesRise(k, a.nodes - 2, m);
  }

  // The value the source computes for an index between two nodes.
  method InterpolateLine(algo: Algorithm, a: Axis, line: seq<real>, lpts: seq<real>, index: nat) returns (v: real)
    requires ValidAxis(a) && |line| == Count(a) && lpts == NodePoints(a)
    requires index < Count(a) && index % Mult(a) != 0
    ensures v == At(algo, a, NodesOf(a, line), index)
  {
    hide NodesOf, NodePoints, LagrangeSum;
    match algo
    case Lagrange =>
      v := CalcLagrange(a, line, lpts, Coordinate(a, index));
    case Bicubic(tension) =>
      var pts := GetCtlPts(a, line, index);
      v := Spline(pts.value, tension);
  }

  // ---------- filling rows and columns in place ----------

  // The first n cells of a line are filled from its nodes, the rest are as they were.
  ghost predicate FilledTo(algo: Algorithm, a: Axis, line: seq<real>, was: seq<real>, n: nat)
    requires ValidAxis(a) && |line| == |was| == Count(a) && n <= Count(a)
  {
    && (forall i :: 0 <= i < n ==> line[i] == At(algo, a, NodesOf(a, was), i))
    && (forall i :: n <= i < Count(a) ==> line[i] == was[i])
  }

  // Filling never touches a node.
  lemma NodesKept(algo: Algorithm, a: Axis, line: seq<real>, was: seq<real>, n: nat)
    requires ValidAxis(a) && |line| == |was| == Count(a) && n <= Count(a) && FilledTo(algo, a, line, was, n)
    ensures NodesOf(a, line) == NodesOf(a, was)
  {
    forall k | 0 <= k < a.nodes ensures NodesOf(a, line)[k] == NodesOf(a, was)[k] {
      NodeAt(a, line, k);
      NodeAt(a, was, k);
      NodeIndex(a, k);
    }
  }

  // One cell of a line: a node stays, any other cell is computed.
  lemma FilledOneMore(algo: Algorithm, a: Axis, line: seq<real>, was: seq<real>, n: nat, v: real)
    requires ValidAxis(a) && |line| == |was| == Count(a) && n < Count(a) && FilledTo(algo, a, line, was, n)
    requires if n % Mult(a) == 0 then v == line[n] else v == At(algo, a, NodesOf(a, line), n)
    ensures FilledTo(algo, a, line[n := v], was, n + 1)
  {
    NodesKept(algo, a, line, was, n);
    if n % Mult(a) == 0 {
      var k := n / Mult(a);
      CellOfIndex(a, n);
      assert n == k * Mult(a);
      NodeAt(a, was, k);
    }
  }

  method FillRow(m: Matrix, algo: Algorithm, x: Axis, xpts: seq<real>, i: nat)
    requires ValidAxis(x) && xpts == NodePoints(x) && i < |m.rows| && |m.rows[i]| == Count(x)
    modifies m
    ensures |m.rows| == |old(m.rows)| && |m.rows[i]| == Count(x)
    ensures FilledTo(algo, x, m.rows[i], old(m.rows[i]), Count(x))
    ensures forall k :: 0 <= k < |m.rows| && k != i ==> m.rows[k] == old(m.rows[k])
  {
    hide FilledTo, At, NodesOf, NodePoints;
    ghost var was := m.rows[i];
    FilledNone(algo, x, was);
    for j := 0 to Count(x)
      invariant |m.rows| == |old(m.rows)| && |m.rows[i]| == Count(x)
      invariant FilledTo(algo, x, m.rows[i], was, j)
      invariant forall k :: 0 <= k < |m.rows| && k != i ==> m.rows[k] == old(m.rows[k])
    {
      ghost var line := m.rows[i];
      if j % Mult(x) == 0 {
        FilledOneMore(algo, x, line, was, j, line[j]);
        assert line[j := line[j]] == line;
        continue;
      }
      var v := InterpolateLine(algo, x, m.rows[i], xpts, j);
      FilledOneMore(algo, x, line, was, j, v);
      m.rows := m.rows[i := m.rows[i][j := v]];
    }
  }

  lemma FilledNone(algo: Algorithm, a: Axis, was: seq<real>)
    requires ValidAxis(a) && |was| == Count(a)
    ensures FilledTo(algo, a, was, was, 0)
  {
  }

  function Column(rows: seq<seq<real>>, i: nat): (c: seq<real>)
    requires forall r :: r in rows ==> i < |r|
    ensures |c| == |rows|
  {
    seq(|rows|, j requires 0 <= j < |rows| => assert rows[j] in rows; rows[j][i])
  }

  predicate Wide(rows: seq<seq<real>>, width: nat) {
    forall r :: r in rows ==> |r| == width
  }

  // Setting one cell of a column.
  lemma ColumnSet(rows: seq<seq<real>>, width: nat, j: nat, i: nat, v: real)
    requires Wide(rows, width) && j < |rows| && i < width
    ensures var next := rows[j := rows[j][i := v]];
            && Wide(next, width) && Column(next, i) == Column(rows, i)[j := v]
            && forall k :: 0 <= k < width && k != i ==> Column(next, k) == Column(rows, k)
  {
    var next := rows[j := rows[j][i := v]];
    assert rows[j] in rows;
    forall r | r in next ensures |r| == width {
      var k :| 0 <= k < |next| && next[k] == r;
      assert rows[k] in rows;
    }
    forall k | 0 <= k < width && k != i ensures Column(next, k) == Column(rows, k) {
      assert forall l :: 0 <= l < |rows| ==> Column(next, k)[l] == Column(rows, k)[l];
    }
    assert Column(next, i) == Column(rows, i)[j := v];
  }

  method FillColumn(m: Matrix, algo: Algorithm, y: Axis, ypts: seq<real>, width: nat, i: nat)
    requires ValidAxis(y) && ypts == NodePoints(y) && |m.rows| == Count(y) && Wide(m.rows, width) && i < width
    modifies m
    ensures |m.rows| == Count(y) && Wide(m.rows, width)
    ensures FilledTo(algo, y, Column(m.rows, i), Column(old(m.rows), i), Count(y))
    ensures forall k :: 0 <= k < width && k != i ==> Column(m.rows, k) == Column(old(m.rows), k)
  {
    hide FilledTo, At, NodesOf, NodePoints;
    ghost var was := Column(m.rows, i);
    FilledNone(algo, y, was);
    for j := 0 to Count(y)
      invariant |m.rows| == Count(y) && Wide(m.rows, width)
      invariant FilledTo(algo, y, Column(m.rows, i), was, j)
      invariant forall k :: 0 <= k < width && k != i ==> Column(m.rows, k) == Column(old(m.rows), k)
    {
      var line := Column(m.rows, i);
      if j % Mult(y) == 0 {
        FilledOneMore(algo, y, line, was, j, line[j]);
        assert line[j := line[j]] == line;
        continue;
      }
      var v := InterpolateLine(algo, y, line, ypts, j);
      FilledOneMore(algo, y, line, was, j, v);
      ColumnSet(m.rows, width, j, i, v);
      m.rows := m.rows[j := m.rows[j][i := v]];
    }
  }

  // ---------- the whole grid ----------

  // Zero everywhere but at the probed cells.
  function InitialCell(x: Axis, y: Axis, z: seq<seq<real>>, j: nat, i: nat): real
    requires ValidAxis(x) && ValidAxis(y) && i < Count(x) && j < Count(y)
    requires |z| == y.nodes && forall r :: r in z ==> |r| == x.nodes
  {
    CellOfIndex(x, i);
    CellOfIndex(y, j);
    if i % Mult(x) != 0 || j % Mult(y) != 0 then 0.0
    else
      assert z[j / Mult(y)] in z;
      z[j / Mult(y)][i / Mult(x)]
  }

  function InitialRow(x: Axis, y: Axis, z: seq<seq<real>>, j: nat): (row: seq<real>)
    requires ValidAxis(x) && ValidAxis(y) && j < Count(y)
    requires |z| == y.nodes && forall r :: r in z ==> |r| == x.nodes
    ensures |row| == Count(x)
  {
    seq(Count(x), i requires 0 <= i < Count(x) => InitialCell(x, y, z, j, i))
  }

  lemma InitialNodes(x: Axis, y: Axis, z: seq<seq<real>>, j: nat)
    requires ValidAxis(x) && ValidAxis(y) && j < Count(y) && j % Mult(y) == 0
    requires |z| == y.nodes && forall r :: r in z ==> |r| == x.nodes
    ensures j / Mult(y) < y.nodes && NodesOf(x, InitialRow(x, y, z, j)) == z[j / Mult(y)]
  {
    CellOfIndex(y, j);
    var row, zr := InitialRow(x, y, z, j), z[j / Mult(y)];
    assert zr in z;
    forall k | 0 <= k < x.nodes ensures NodesOf(x, row)[k] == zr[k] {
      NodeAt(x, row, k);
      NodeIndex(x, k);
    }
  }

  // A probed row has been filled.
  ghost predicate RowDone(algo: Algorithm, x: Axis, row: seq<real>, nodes: seq<real>) {
    && ValidAxis(x) && |row| == Count(x) && |nodes| == x.nodes
    && forall i :: 0 <= i < Count(x) ==> row[i] == At(algo, x, nodes, i)
  }

  // A column has been filled.
  ghost predicate ColumnDone(algo: Algorithm, x: Axis, y: Axis, z: seq<seq<real>>, column: seq<real>, i: nat) {
    && ValidAxis(x) && ValidAxis(y) && Rectangular(z, x.nodes, y.nodes) && i < Count(x) && |column| == Count(y)
    && forall j :: 0 <= j < Count(y) ==> column[j] == Filled(algo, x, y, z, j, i)
  }

  // The two passes of _sample_lagrange and _sample_bicubic, whose loops are the same.
  method SampleGrid(algo: Algorithm, x: Axis, y: Axis, z: seq<seq<real>>) returns (m: Matrix)
    requires ValidAxis(x) && ValidAxis(y) && |z| == y.nodes && forall r :: r in z ==> |r| == x.nodes
    ensures fresh(m) && Rectangular(m.rows, Count(x), Count(y)) && Rectangular(z, x.nodes, y.nodes)
    ensures forall j, i :: 0 <= j < Count(y) && 0 <= i < Count(x) ==> m.rows[j][i] == Filled(algo, x, y, z, j, i)
  {
    hide Filled, At, NodesOf, NodePoints, InitialRow, ColumnDone, RowDone, ColumnNodes, FilledTo, Coordinate;
    var rows := seq(Count(y), j requires 0 <= j < Count(y) => InitialRow(x, y, z, j));
    m := new Matrix(rows);
    var xpts, ypts := NodePoints(x), NodePoints(y);
    // Interpolate along x in the probed rows
    for j := 0 to Count(y)
      invariant |m.rows| == Count(y) && forall k :: 0 <= k < Count(y) ==> |m.rows[k]| == Count(x)
      invariant forall k :: j <= k < Count(y) ==> m.rows[k] == InitialRow(x, y, z, k)
      invariant forall k :: 0 <= k < j && k % Mult(y) == 0 ==>
                  k / Mult(y) < y.nodes && RowDone(algo, x, m.rows[k], z[k / Mult(y)])
    {
      if j % Mult(y) != 0 {
        continue;
      }
      InitialNodes(x, y, z, j);
      FillRow(m, algo, x, xpts, j);
      RowIsDone(algo, x, m.rows[j], InitialRow(x, y, z, j), z[j / Mult(y)]);
    }
    RowsGiveColumns(algo, x, y, z, m.rows);
    // Interpolate along y in every column
    for i := 0 to Count(x)
      invariant |m.rows| == Count(y) && Wide(m.rows, Count(x))
      invariant forall k :: i <= k < Count(x) ==> NodesOf(y, Column(m.rows, k)) == ColumnNodes(algo, x, y, z, k)
      invariant forall k :: 0 <= k < i ==> ColumnDone(algo, x, y, z, Column(m.rows, k), k)
    {
      ghost var was := Column(m.rows, i);
      FillColumn(m, algo, y, ypts, Count(x), i);
      ColumnIsDone(algo, x, y, z, Column(m.rows, i), was, i);
    }
    ColumnsGiveCells(algo, x, y, z, m.rows);
  }

  lemma RowIsDone(algo: Algorithm, x: Axis, row: seq<real>, was: seq<real>, nodes: seq<real>)
    requires ValidAxis(x) && |row| == |was| == Count(x) && FilledTo(algo, x, row, was, Count(x))
    requires |nodes| == x.nodes && NodesOf(x, was) == nodes
    ensures RowDone(algo, x, row, nodes)
  {
  }

  lemma ColumnIsDone(algo: Algorithm, x: Axis, y: Axis, z: seq<seq<real>>, column: seq<real>, was: seq<real>, i: nat)
    requires ValidAxis(x) && ValidAxis(y) && Rectangular(z, x.nodes, y.nodes) && i < Count(x)
    requires |column| == |was| == Count(y) && FilledTo(algo, y, column, was, Count(y))
    requires NodesOf(y, was) == ColumnNodes(algo, x, y, z, i)
    ensures ColumnDone(algo, x, y, z, column, i)
  {
    hide At, NodesOf, ColumnNodes;
  }

  lemma RowsGiveColumns(algo: Algorithm, x: Axis, y: Axis, z: seq<seq<real>>, rows: seq<seq<real>>)
    requires ValidAxis(x) && ValidAxis(y) && |z| == y.nodes && forall r :: r in z ==> |r| == x.nodes
    requires |rows| == Count(y) && forall k :: 0 <= k < Count(y) ==> |rows[k]| == Count(x)
    requires forall k :: 0 <= k < Count(y) && k % Mult(y) == 0 ==>
               k / Mult(y) < y.nodes && RowDone(algo, x, rows[k], z[k / Mult(y)])
    ensures Wide(rows, Count(x)) && Rectangular(z, x.nodes, y.nodes)
    ensures forall i :: 0 <= i < Count(x) ==> NodesOf(y, Column(rows, i)) == ColumnNodes(algo, x, y, z, i)
  {
    hide At;
    forall i | 0 <= i < Count(x)
      ensures NodesOf(y, Column(rows, i)) == ColumnNodes(algo, x, y, z, i)
    {
      forall k | 0 <= k < y.nodes
        ensures NodesOf(y, Column(rows, i))[k] == ColumnNodes(algo, x, y, z, i)[k]
      {
        NodeAt(y, Column(rows, i), k);
        NodeIndex(y, k);
        assert RowDone(algo, x, rows[k * Mult(y)], z[k]);
      }
    }
  }

  lemma ColumnsGiveCells(algo: Algorithm, x: Axis, y: Axis, z: seq<seq<real>>, rows: seq<seq<real>>)
    requires ValidAxis(x) && ValidAxis(y) && Rectangular(z, x.nodes, y.nodes)
    requires |rows| == Count(y) && Wide(rows, Count(x))
    requires forall k :: 0 <= k < Count(x) ==> ColumnDone(algo, x, y, z, Column(rows, k), k)
    ensures Rectangular(rows, Count(x), Count(y))
    ensures forall j, i :: 0 <= j < Count(y) && 0 <= i < Count(x) ==> rows[j][i] == Filled(algo, x, y, z, j, i)
  {
    hide Filled;
    assert forall j :: 0 <= j < Count(y) ==> rows[j] in rows;
    forall j, i | 0 <= j < Count(y) && 0 <= i < Count(x)
      ensures rows[j][i] == Filled(algo, x, y, z, j, i)
    {
      assert Column(rows, i)[j] == rows[j][i];
      assert ColumnDone(algo, x, y, z, Column(rows, i), i);
    }
  }

  // ---------- the mesh object ----------

  class MeshObject {
    const x: Axis
    const y: Axis
    const algo: Option<Algorithm>      // None is 'direct': no points are added
    var probed: Matrix?
    var mesh: Matrix?
    var offsetX: real
    var offsetY: real

    ghost predicate Valid() {
      ValidAxis(x) && ValidAxis(y) && (algo == None ==> x.pps == y.pps == 0)
    }

    ghost predicate Ready()
      reads this, mesh
    {
      Valid() && mesh != null && Rectangular(mesh.rows, Count(x), Count(y))
    }

    ghost function View(): (s: Surface)
      requires Ready()
      reads this, mesh
      ensures ValidSurface(s)
    {
      Surface(x, y, mesh.rows, offsetX, offsetY)
    }

    constructor (x: Axis, y: Axis, algo: Option<Algorithm>)
      requires ValidAxis(x) && ValidAxis(y) && (algo == None ==> x.pps == y.pps == 0)
      ensures Valid() && this.x == x && this.y == y && this.algo == algo
      ensures probed == null && mesh == null && offsetX == offsetY == 0.0
    {
      this.x, this.y, this.algo := x, y, algo;
      probed, mesh, offsetX, offsetY := null, null, 0.0, 0.0;
    }

    // Without added points the mesh is the very matrix of probed heights, not a copy.
    method BuildMesh(z: Matrix)
      requires Valid() && |z.rows| == y.nodes && forall r :: r in z.rows ==> |r| == x.nodes
      modifies this
      ensures probed == z && Ready() && unchanged(z) && offsetX == old(offsetX) && offsetY == old(offsetY)
      ensures algo == None ==> mesh == z
      ensures algo.Some? ==>
                && mesh != z && fresh(mesh) && Rectangular(z.rows, x.nodes, y.nodes)
                && forall j, i :: 0 <= j < Count(y) && 0 <= i < Count(x) ==>
                     mesh.rows[j][i] == Filled(algo.value, x, y, z.rows, j, i)
    {
      probed := z;
      if algo == None {
        mesh := z;
        SameCount(x);
        SameCount(y);
      } else {
        var m := SampleGrid(algo.value, x, y, z.rows);
        mesh := m;
      }
    }

    method CalcHeight(xpos: real, ypos: real) returns (z: real)
      requires mesh != null ==> Ready()
      ensures z == if mesh == null then 0.0 else CalcZ(View(), xpos, ypos)
    {
      if mesh == null {
        return 0.0;
      }
      var tx, xidx := Along(x, xpos + offsetX), CellOf(x, xpos + offsetX);
      var ty, yidx := Along(y, ypos + offsetY), CellOf(y, ypos + offsetY);
      var z0 := Lerp(tx, mesh.rows[yidx][xidx], mesh.rows[yidx][xidx + 1]);
      var z1 := Lerp(tx, mesh.rows[yidx + 1][xidx], mesh.rows[yidx + 1][xidx + 1]);
      return Lerp(ty, z0, z1);
    }

    // The lowest and the highest cell.
    method GetZRange() returns (lo: real, hi: real)
      requires mesh != null ==> Ready()
      ensures mesh == null ==> lo == hi == 0.0
      ensures mesh != null ==> NonEmpty(mesh.rows) && lo == Lowest(mesh.rows) && hi == Highest(mesh.rows)
    {
      hide Lowest, Highest;
      if mesh == null {
        return 0.0, 0.0;
      }
      var rows := mesh.rows;
      lo, hi := rows[0][0], rows[0][0];
      for j := 0 to |rows|
        invariant lo <= hi && Attained(rows, lo) && Attained(rows, hi)
        invariant forall k, i :: 0 <= k < j && 0 <= i < |rows[k]| ==> lo <= rows[k][i] <= hi
      {
        for i := 0 to |rows[j]|
          invariant lo <= hi && Attained(rows, lo) && Attained(rows, hi)
          invariant forall k, l :: 0 <= k < j && 0 <= l < |rows[k]| ==> lo <= rows[k][l] <= hi
          invariant forall l :: 0 <= l < i ==> lo <= rows[j][l] <= hi
        {
          var v := rows[j][i];
          if v < lo {
            lo := v;
          }
          if v > hi {
            hi := v;
          }
        }
      }
      assert NonEmpty(rows);
      RangeIs(rows, lo, hi);
    }

    // Make the height at a position zero.  This fails when the mesh is the probed matrix
    // itself, unless the height is zero already: the offset is then subtracted twice.
    method SetZeroReference(xpos: real, ypos: real)
      requires Ready() && probed != null
      modifies probed, mesh
      ensures Ready()
      ensures var offset := CalcZ(old(View()), xpos, ypos);
              && Shifted(mesh.rows, old(mesh.rows), if probed == mesh then offset + offset else offset)
              && Shifted(probed.rows, old(probed.rows), if probed == mesh then offset + offset else offset)
              && (CalcZ(View(), xpos, ypos) == 0.0 <==> probed != mesh || offset == 0.0)
    {
      ghost var was := View();
      var offset := CalcHeight(xpos, ypos);
      Subtract(probed, offset);
      ghost var mid := mesh.rows;
      Subtract(mesh, offset);
      if probed == mesh {
        ShiftedTwice(mesh.rows, mid, was.rows, offset);
        CalcZShift(was, mesh.rows, offset + offset, xpos, ypos);
      } else {
        CalcZShift(was, mesh.rows, offset, xpos, ypos);
      }
    }

    // The loop over one matrix.
    method Subtract(m: Matrix, offset: real)
      modifies m
      ensures Shifted(m.rows, old(m.rows), offset)
    {
      for yidx := 0 to |m.rows|
        invariant |m.rows| == |old(m.rows)|
        invariant Shifted(m.rows[..yidx], old(m.rows)[..yidx], offset)
        invariant forall k :: yidx <= k < |m.rows| ==> m.rows[k] == old(m.rows)[k]
      {
        var row := SubtractRow(m.rows[yidx], offset);
        m.rows := m.rows[yidx := row];
      }
      assert m.rows[..|m.rows|] == m.rows && old(m.rows)[..|m.rows|] == old(m.rows);
    }

    method SubtractRow(was: seq<real>, offset: real) returns (row: seq<real>)
      ensures |row| == |was| && forall i :: 0 <= i < |row| ==> row[i] == was[i] - offset
    {
      row := was;
      for xidx := 0 to |row|
        invariant |row| == |was|
        invariant forall i :: 0 <= i < |row| ==> row[i] == if i < xidx then was[i] - offset else was[i]
      {
        row := row[xidx := row[xidx] - offset];
      }
    }

    method SetMeshOffsets(dx: Option<real>, dy: Option<real>)
      modifies this`offsetX, this`offsetY
      ensures offsetX == if dx.Some? then dx.value else old(offsetX)
      ensures offsetY == if dy.Some? then dy.value else old(offsetY)
    {
      if dx.Some? {
        offsetX := dx.value;
      }
      if dy.Some? {
        offsetY := dy.value;
      }
    }
  }

  lemma SameCount(a: Axis)
    requires ValidAxis(a) && a.pps == 0
    ensures Count(a) == a.nodes
  {
    assert (a.nodes - 1) * Mult(a) == a.nodes - 1;
  }

  lemma ShiftedTwice(a: seq<seq<real>>, b: seq<seq<real>>, c: seq<seq<real>>, offset: real)
    requires Shifted(a, b, offset) && Shifted(b, c, offset)
    ensures Shifted(a, c, offset + offset)
  {
  }
}
