/** Turning probed heights into the height matrix (software/klipper/extras/bed_mesh.py,
    BedMeshCalibrate.probe_finalize), for rectangular beds.  Only heights are kept of the probed
    positions: their x and y reach nothing but the log.  Arithmetic is exact. */
module Calibrate {
  import opened Averages
  import opened Support
  import opened ProbePath
  import opened ZMesh

  // ---------- which heights belong to a base point ----------

  // The place in the standard path where the points of a base point begin.
  function Start(points: seq<Point>, s: Substitutes, i: nat): nat
    requires i <= |points|
  {
    |StdPath(points, s, i)|
  }

  // The standard path has the points probed for base point i from Start(i) on.
  lemma {:induction false} BlockInPath(points: seq<Point>, s: Substitutes, i: nat, n: nat)
    requires i < n <= |points|
    ensures Start(points, s, i) <= Start(points, s, i + 1) <= Start(points, s, n)
    ensures StdPath(points, s, n)[Start(points, s, i)..Start(points, s, i + 1)] == Block(points, s, i)
  {
    hide Block;
    if i < n - 1 {
      BlockInPath(points, s, i, n - 1);
    }
  }

  // A slice, cut short where the list ends.
  function Slice(h: seq<real>, from: nat, to: nat): seq<real>
    requires from <= to
  {
    if from >= |h| then [] else if to >= |h| then h[from..] else h[from..to]
  }

  lemma SliceJoin(h: seq<real>, a: nat, b: nat, c: nat)
    requires a <= b <= c
    ensures Slice(h, a, c) == Slice(h, a, b) + Slice(h, b, c)
    ensures Slice(h, 0, |h|) == h && Slice(h, a, a) == []
  {
  }

  // What base point i is given of a list of heights: the mean over its substitutes, counting
  // missing heights as 0, or its own height if the list reaches that far.
  function Entry(points: seq<Point>, s: Substitutes, h: seq<real>, i: nat): (e: seq<real>)
    requires i < |points|
    ensures |e| <= 1
  {
    var k, len := Start(points, s, i), |Block(points, s, i)|;
    if i !in s.at then Slice(h, k, k + 1)
    else if len == 0 then [0.0]
    else [Sum(Slice(h, k, k + len)) / len as real]
  }

  function Entries(points: seq<Point>, s: Substitutes, h: seq<real>, n: nat): (e: seq<real>)
    requires n <= |points|
  {
    if n == 0 then [] else Entries(points, s, h, n - 1) + Entry(points, s, h, n - 1)
  }

  // Between substituted points heights and base points run in step.
  lemma {:induction false} Stretch(points: seq<Point>, s: Substitutes, h: seq<real>, a: nat, b: nat)
    requires a <= b <= |points| && forall i :: a <= i < b ==> i !in s.at
    ensures Start(points, s, b) == Start(points, s, a) + b - a
    ensures Entries(points, s, h, b) == Entries(points, s, h, a) + Slice(h, Start(points, s, a), Start(points, s, b))
  {
    hide Slice, Start, Entries, Entry;
    var from := Start(points, s, a);
    SliceJoin(h, from, from, from);
    if a < b {
      Stretch(points, s, h, a, b - 1);
      EntryNext(points, s, h, b - 1);
      SliceJoin(h, from, Start(points, s, b - 1), Start(points, s, b));
    }
  }

  lemma EntryNext(points: seq<Point>, s: Substitutes, h: seq<real>, i: nat)
    requires i < |points|
    ensures Start(points, s, i + 1) == Start(points, s, i) + |Block(points, s, i)|
    ensures Entries(points, s, h, i + 1) == Entries(points, s, h, i) + Entry(points, s, h, i)
    ensures i !in s.at ==> Start(points, s, i + 1) == Start(points, s, i) + 1
                           && Entry(points, s, h, i) == Slice(h, Start(points, s, i), Start(points, s, i) + 1)
  {
    hide Sum, Slice;
  }

  lemma PathNext(points: seq<Point>, s: Substitutes, i: nat)
    requires i < |points|
    ensures StdPath(points, s, i + 1) == StdPath(points, s, i) + Block(points, s, i)
  {
  }

  // The mean of the heights measured at the points probed for base point i.
  function Reading(points: seq<Point>, s: Substitutes, h: seq<real>, i: nat): real
    requires i < |points|
  {
    var k := Start(points, s, i);
    Mean(Slice(h, k, k + |Block(points, s, i)|))
  }

  lemma EntryIsMean(points: seq<Point>, s: Substitutes, h: seq<real>, i: nat)
    requires i < |points| && ValidSubstitutes(s, |points|) && |h| >= Start(points, s, i) + |Block(points, s, i)|
    ensures Entry(points, s, h, i) == [Reading(points, s, h, i)]
  {
    hide StdPath, Sum;
    var k := Start(points, s, i);
    if i !in s.at {
      SumOfOne(h[k]);
      var own := Slice(h, k, k + 1);
      assert own == [h[k]];
      assert Mean(own) == h[k];
    }
  }

  // With a height for every point of the path, each base point gets the mean of its own.
  lemma {:induction false} EntriesAreMeans(points: seq<Point>, s: Substitutes, h: seq<real>, n: nat)
    requires n <= |points| && ValidSubstitutes(s, |points|) && |h| >= Start(points, s, n)
    ensures |Entries(points, s, h, n)| == n
    ensures forall i :: 0 <= i < n ==> Entries(points, s, h, n)[i] == Reading(points, s, h, i)
  {
    hide Start, Entries, Entry, Reading, ValidSubstitutes;
    if n == 0 {
      NoEntries(points, s, h);
    } else {
      EntryNext(points, s, h, n - 1);
      EntriesAreMeans(points, s, h, n - 1);
      EntryIsMean(points, s, h, n - 1);
    }
  }

  lemma NoEntries(points: seq<Point>, s: Substitutes, h: seq<real>)
    ensures Entries(points, s, h, 0) == [] && Start(points, s, 0) == 0
  {
  }

  // When the length check lets a list of heights through: a list that is too short passes if
  // all that is missing was to be averaged.
  lemma LengthAcceptedIff(points: seq<Point>, s: Substitutes, h: seq<real>)
    ensures var n := |points|;
            |Entries(points, s, h, n)| + |Slice(h, Start(points, s, n), Start(points, s, n) + |h|)| == n <==>
            |h| <= Start(points, s, n) && forall i :: 0 <= i < n && i !in s.at ==> Start(points, s, i) < |h|
  {
    hide Entries, StdPath;
    var n := |points|;
    CountEntries(points, s, h, n);
    forall i | 0 <= i < n && i !in s.at ensures Start(points, s, i) < Start(points, s, n) {
      BlockInPath(points, s, i, n);
      PathNext(points, s, i);
    }
  }

  lemma {:induction false} CountEntries(points: seq<Point>, s: Substitutes, h: seq<real>, n: nat)
    requires n <= |points|
    ensures |Entries(points, s, h, n)| <= n
    ensures |Entries(points, s, h, n)| == n <==> forall i :: 0 <= i < n && i !in s.at ==> Start(points, s, i) < |h|
  {
    hide StdPath, Sum;
    if n > 0 {
      CountEntries(points, s, h, n - 1);
    }
  }

  // ---------- the matrix ----------

  function MatrixRow(g: Grid, z: seq<real>, offset: real, r: nat): (row: seq<real>)
    requires |z| == Index(g.xCount, g.yCount, 0) && r < g.yCount
    ensures |row| == g.xCount
  {
    seq(g.xCount, c requires 0 <= c < g.xCount =>
      IndexIn(g.xCount, r, Column(g, r, c), g.yCount);
      z[Index(g.xCount, r, Column(g, r, c))] - offset)
  }

  function Matrix(g: Grid, z: seq<real>, offset: real, n: nat): (rows: seq<seq<real>>)
    requires |z| == Index(g.xCount, g.yCount, 0) && n <= g.yCount
    ensures |rows| == n
  {
    seq(n, r requires 0 <= r < n => MatrixRow(g, z, offset, r))
  }

  // The part of a row filled by its first j readings: from the left or from the right.
  function Part(g: Grid, row: seq<real>, r: nat, j: nat): seq<real>
    requires |row| == g.xCount && j <= g.xCount
  {
    if r % 2 == 0 then row[..j] else row[g.xCount - j..]
  }

  lemma PartNext(g: Grid, z: seq<real>, offset: real, r: nat, j: nat)
    requires |z| == Index(g.xCount, g.yCount, 0) && r < g.yCount && j < g.xCount
    ensures Index(g.xCount, r, j) < |z|
    ensures var row, v := MatrixRow(g, z, offset, r), z[Index(g.xCount, r, j)] - offset;
            Part(g, row, r, j + 1) == if r % 2 == 0 then Part(g, row, r, j) + [v] else [v] + Part(g, row, r, j)
    ensures var row, v := MatrixRow(g, z, offset, r), z[Index(g.xCount, r, j)] - offset;
            j == 0 ==> Part(g, row, r, 0) == [] && Part(g, row, r, 1) == [v]
  {
    hide Index;
    IndexIn(g.xCount, r, j, g.yCount);
  }

  // How many of the rows up to r were told apart from the one before.
  function Breaks(g: Grid, r: nat): nat {
    if r == 0 then 0 else Breaks(g, r - 1) + if Apart(g, r) then 1 else 0
  }

  lemma {:induction false} AllBreaks(g: Grid, r: nat)
    ensures Breaks(g, r) <= r && (Breaks(g, r) == r <==> AllApart(g, r + 1))
  {
    hide Apart;
    if r > 0 {
      AllBreaks(g, r - 1);
    }
  }

  // Where the zig-zag stands before base point number k: j points into row r.
  datatype Place = Place(r: nat, j: nat)

  lemma AtEnd(w: nat, n: nat, p: Place)
    requires Index(w, p.r, p.j) == Index(w, n, 0) && 1 <= p.j <= w
    ensures p.r == n - 1 && p.j == w
  {
    SmallBounds(n - p.r - 1, w);
    assert (n - p.r - 1) * w == n * w - p.r * w - w;
  }

  // How the next base point compares with the one before, in the same row and at a turn.
  lemma SameRow(g: Grid, r: nat, j: nat)
    requires ValidGrid(g) && 0 < j < g.xCount
    ensures var p, q := GridPoint(g, Column(g, r, j), r), GridPoint(g, Column(g, r, j - 1), r);
            p.y == q.y && IsClose(p.y, q.y, 0.000000001, 0.1) && (p.x > q.x <==> r % 2 == 0)
  {
    SameClose(Tick(g.minY, g.yDist, r), 0.1);
    if r % 2 == 0 {
      NextTick(g.minX, g.xDist, j);
    } else {
      NextTick(g.minX, g.xDist, g.xCount - j);
    }
  }

  lemma Turn(g: Grid, r: nat)
    requires ValidGrid(g) && r > 0
    ensures var p, q := GridPoint(g, Column(g, r, 0), r), GridPoint(g, Column(g, r - 1, g.xCount - 1), r - 1);
            (IsClose(p.y, q.y, 0.000000001, 0.1) <==> !Apart(g, r)) && p.x == q.x
  {
    hide Tick, Apart, IsClose;
    RowsClose(g, r, 0.1);
  }

  lemma MatrixNext(g: Grid, z: seq<real>, offset: real, r: nat)
    requires |z| == Index(g.xCount, g.yCount, 0) && r < g.yCount
    ensures Matrix(g, z, offset, r + 1) == Matrix(g, z, offset, r) + [MatrixRow(g, z, offset, r)]
    ensures Part(g, MatrixRow(g, z, offset, r), r, g.xCount) == MatrixRow(g, z, offset, r)
  {
  }

  // The place of base point k, the readings before it having been placed up to here.
  ghost function PlaceOf(g: Grid, at: Place): Place {
    if at.j == g.xCount then Place(at.r + 1, 0) else at
  }

  lemma PlaceIs(g: Grid, at: Place, k: nat)
    requires ValidGrid(g) && at.r < g.yCount && at.j <= g.xCount
    requires Index(g.xCount, at.r, at.j) == k < Index(g.xCount, g.yCount, 0)
    ensures var p := PlaceOf(g, at);
            && p.r < g.yCount && p.j < g.xCount && Index(g.xCount, p.r, p.j) == k && Index(g.xCount, p.r, p.j + 1) == k + 1
            && k < |BasePoints(g)| && BasePoints(g)[k] == GridPoint(g, Column(g, p.r, p.j), p.r)
  {
    hide Rows, Index, GridPoint;
    var p := PlaceOf(g, at);
    IndexStep(g.xCount, at.r, at.j);
    IndexStep(g.xCount, p.r, p.j);
    RowsAt(g, g.yCount, p.r, p.j);
  }

  // How the comparisons with the point before come out at a place.
  lemma Comparisons(g: Grid, at: Place, pos: Point, prev: Point)
    requires ValidGrid(g) && at.r < g.yCount && at.j <= g.xCount
    requires var p := PlaceOf(g, at); pos == GridPoint(g, Column(g, p.r, p.j), p.r)
    requires if at == Place(0, 0) then prev == pos
             else at.j > 0 && prev == GridPoint(g, Column(g, at.r, at.j - 1), at.r)
    ensures var p := PlaceOf(g, at);
            && (IsClose(pos.y, prev.y, 0.000000001, 0.1) <==> p.j > 0 || p.r == 0 || !Apart(g, p.r))
            && (pos.x > prev.x <==> p.j > 0 && p.r % 2 == 0)
  {
    hide IsClose, Apart, GridPoint, Column;
    var p := PlaceOf(g, at);
    if at == Place(0, 0) {
      SameClose(pos.y, 0.1);
    } else if p.j > 0 {
      SameRow(g, p.r, p.j);
    } else {
      Turn(g, p.r);
    }
  }

  // The rows finished before a place and the readings of its own row so far.
  ghost predicate BuiltTo(g: Grid, z: seq<real>, offset: real, p: Place, matrix: seq<seq<real>>, row: seq<real>)
    requires |z| == Index(g.xCount, g.yCount, 0)
  {
    && p.r < g.yCount && p.j <= g.xCount
    && |matrix| == Breaks(g, p.r)
    && (AllApart(g, p.r + 1) ==>
          matrix == Matrix(g, z, offset, p.r) && row == Part(g, MatrixRow(g, z, offset, p.r), p.r, p.j))
  }

  lemma NewRow(g: Grid, z: seq<real>, offset: real, at: Place, matrix: seq<seq<real>>, row: seq<real>)
    requires |z| == Index(g.xCount, g.yCount, 0) && BuiltTo(g, z, offset, at, matrix, row)
    requires at.j == g.xCount && at.r + 1 < g.yCount
    ensures if Apart(g, at.r + 1) then BuiltTo(g, z, offset, Place(at.r + 1, 0), matrix + [row], [])
            else BuiltTo(g, z, offset, Place(at.r + 1, 0), matrix, row)
  {
    hide Apart, MatrixRow, Matrix, Part;
    MatrixNext(g, z, offset, at.r);
    PartEmpty(g, MatrixRow(g, z, offset, at.r + 1), at.r + 1);
  }

  lemma PartEmpty(g: Grid, row: seq<real>, r: nat)
    requires |row| == g.xCount
    ensures Part(g, row, r, 0) == []
  {
  }

  lemma AddReading(g: Grid, z: seq<real>, offset: real, p: Place, matrix: seq<seq<real>>, row: seq<real>)
    requires |z| == Index(g.xCount, g.yCount, 0) && BuiltTo(g, z, offset, p, matrix, row) && p.j < g.xCount
    ensures Index(g.xCount, p.r, p.j) < |z|
    ensures var v := z[Index(g.xCount, p.r, p.j)] - offset;
            BuiltTo(g, z, offset, Place(p.r, p.j + 1), matrix,
                    if p.j > 0 && p.r % 2 == 0 then row + [v] else [v] + row)
  {
    hide Apart, MatrixRow, Matrix, Part, Index;
    PartNext(g, z, offset, p.r, p.j);
  }

  // One row for every change of y: the matrix when all rows are told apart, and the wrong
  // number of rows otherwise.
  method BuildRows(ghost g: Grid, points: seq<Point>, z: seq<real>, zOffset: real) returns (matrix: seq<seq<real>>)
    requires ValidGrid(g) && points == BasePoints(g) && |z| == |points| == Index(g.xCount, g.yCount, 0)
    ensures AllApart(g, g.yCount) ==> matrix == Matrix(g, z, zOffset, g.yCount)
    ensures |matrix| == g.yCount <==> AllApart(g, g.yCount)
  {
    hide BasePoints, Index, IsClose, Apart, GridPoint, Column, BuiltTo;
    ghost var at := Place(0, 0);
    Begin(g, z, zOffset);
    PlaceIs(g, at, 0);
    matrix := [];
    var row := [];
    var prev := points[0];
    for k := 0 to |points|
      invariant BuiltTo(g, z, zOffset, at, matrix, row)
      invariant at.r < g.yCount && at.j <= g.xCount && Index(g.xCount, at.r, at.j) == k
      invariant if k == 0 then at == Place(0, 0) && prev == points[0]
                else at.j > 0 && prev == GridPoint(g, Column(g, at.r, at.j - 1), at.r)
    {
      var pos := points[k];
      var zPos := z[k] - zOffset;
      PlaceIs(g, at, k);
      Comparisons(g, at, pos, prev);
      ghost var p := PlaceOf(g, at);
      if at.j == g.xCount {
        NewRow(g, z, zOffset, at, matrix, row);
      }
      if !IsClose(pos.y, prev.y, 0.000000001, 0.1) {
        matrix := matrix + [row];
        row := [];
      }
      AddReading(g, z, zOffset, p, matrix, row);
      if pos.x > prev.x {
        row := row + [zPos];
      } else {
        row := [zPos] + row;
      }
      prev := pos;
      at := Place(p.r, p.j + 1);
    }
    Finished(g, z, zOffset, at, matrix, row);
    matrix := matrix + [row];
  }

  lemma Begin(g: Grid, z: seq<real>, offset: real)
    requires ValidGrid(g) && |z| == Index(g.xCount, g.yCount, 0)
    ensures BuiltTo(g, z, offset, Place(0, 0), [], [])
    ensures Index(g.xCount, 0, 0) == 0 < Index(g.xCount, g.yCount, 0)
  {
    PartEmpty(g, MatrixRow(g, z, offset, 0), 0);
    IndexIn(g.xCount, 0, 0, g.yCount);
  }

  lemma Finished(g: Grid, z: seq<real>, offset: real, at: Place, matrix: seq<seq<real>>, row: seq<real>)
    requires ValidGrid(g) && |z| == Index(g.xCount, g.yCount, 0) && BuiltTo(g, z, offset, at, matrix, row)
    requires Index(g.xCount, at.r, at.j) == Index(g.xCount, g.yCount, 0) && at.j > 0
    ensures AllApart(g, g.yCount) ==> matrix + [row] == Matrix(g, z, offset, g.yCount)
    ensures |matrix + [row]| == g.yCount <==> AllApart(g, g.yCount)
  {
    hide Index, Apart, MatrixRow, Matrix, Part;
    AtEnd(g.xCount, g.yCount, at);
    AllBreaks(g, at.r);
    MatrixNext(g, z, offset, at.r);
  }

  // ---------- probe_finalize ----------

  datatype Finalized = Probed(matrix: seq<seq<real>>, zOffset: real) | NoPositions | InvalidSize | InvalidYLength | InvalidXLength

  // The first base point not yet dealt with when k substitutes are.
  function Done(s: Substitutes, k: nat): nat
    requires k <= |s.keys|
  {
    if k == 0 then 0 else s.keys[k - 1] + 1
  }

  lemma KeysBetween(s: Substitutes, n: nat, k: nat)
    requires ValidSubstitutes(s, n) && k <= |s.keys|
    ensures var next := if k < |s.keys| then s.keys[k] else n;
            && Done(s, k) <= next <= n
            && (k < |s.keys| ==> next < n && next in s.at)
            && forall i: nat :: Done(s, k) <= i < next ==> i !in s.at
  {
    var next := if k < |s.keys| then s.keys[k] else n;
    if k < |s.keys| {
      assert s.keys[k] in s.keys;
    }
    if k > 0 {
      assert s.keys[k - 1] in s.keys;
    }
    forall i: nat | Done(s, k) <= i < next ensures i !in s.at {
      if i in s.at {
        var m :| 0 <= m < |s.keys| && s.keys[m] == i;
        assert false;
      }
    }
  }

  class BedMeshCalibrate {
    const probeMgr: ProbeManager
    const xCount: nat
    const yCount: nat

    constructor (probeMgr: ProbeManager, xCount: nat, yCount: nat)
      ensures this.probeMgr == probeMgr && this.xCount == xCount && this.yCount == yCount
    {
      this.probeMgr, this.xCount, this.yCount := probeMgr, xCount, yCount;
    }

    // Replaces the heights of substitutes by their mean, whatever the length of the list.
    method Correct(positions: seq<real>) returns (corrected: seq<real>)
      requires probeMgr.Valid()
      ensures var points, s := probeMgr.basePoints, probeMgr.substitutes;
              var end := Start(points, s, |points|);
              corrected == Entries(points, s, positions, |points|) + Slice(positions, end, end + |positions|)
    {
      hide Start, Entries, Entry, Slice, Sum, Block, ValidSubstitutes;
      ghost var points, s, h := probeMgr.basePoints, probeMgr.substitutes, positions;
      var substitutes := probeMgr.substitutes;
      corrected := [];
      var idxOffset: int := 0;
      var startIdx: nat := 0;
      NoEntries(points, s, h);
      KeysBetween(s, |points|, 0);
      for k := 0 to |substitutes.keys|
        invariant Done(s, k) <= |points|
        invariant startIdx == Start(points, s, Done(s, k)) && idxOffset == startIdx - Done(s, k)
        invariant corrected == Entries(points, s, h, Done(s, k))
      {
        SubstituteStep(points, s, h, k);
        var i: nat := substitutes.keys[k];
        var pts := substitutes.at[i];
        var idx := i + idxOffset;
        corrected := corrected + Slice(positions, startIdx, idx);
        var avgZ := Sum(Slice(positions, idx, idx + |pts|)) / |pts| as real;
        idxOffset := idxOffset + |pts| - 1;
        startIdx := idx + |pts|;
        corrected := corrected + [avgZ];
      }
      KeysBetween(s, |points|, |s.keys|);
      ghost var last := Done(s, |s.keys|);
      Stretch(points, s, h, last, |points|);
      Tail(h, startIdx, Start(points, s, |points|));
      corrected := corrected + Slice(positions, startIdx, startIdx + |positions|);
    }

    // The heights are those reported for the standard path; a probed zero reference is the
    // last of them and replaces the offset.
    method ProbeFinalize(ghost g: Grid, heights: seq<real>, offset: real) returns (r: Finalized)
      requires probeMgr.Valid() && ValidGrid(g) && probeMgr.basePoints == BasePoints(g)
      requires xCount == g.xCount && yCount == g.yCount
      ensures r.NoPositions? <==> probeMgr.zrefMode.Probe? && heights == []
      ensures !r.NoPositions? ==>
                var h := if probeMgr.zrefMode.Probe? then heights[..|heights| - 1] else heights;
                var z0 := if probeMgr.zrefMode.Probe? then heights[|heights| - 1] else offset;
                r == FinalOf(g, probeMgr.substitutes, h, z0)
    {
      hide BasePoints, Entries, Slice, Index, Matrix, Apart, ValidSubstitutes, Start;
      var zOffset := offset;
      var positions := heights;
      if probeMgr.zrefMode.Probe? {
        if positions == [] {
          return NoPositions;
        }
        zOffset := positions[|positions| - 1];
        positions := positions[..|positions| - 1];
      }
      PointCount(g);
      var basePoints := probeMgr.basePoints;
      var corrected := Correct(positions);
      if |basePoints| != |corrected| {
        return InvalidSize;
      }
      var matrix := BuildRows(g, basePoints, corrected, zOffset);
      if |matrix| != yCount {
        return InvalidYLength;
      }
      MatrixWidth(g, corrected, zOffset);
      for r := 0 to |matrix| {
        if |matrix[r]| != xCount {
          return InvalidXLength;
        }
      }
      r := Probed(matrix, zOffset);
    }
  }

  lemma PointCount(g: Grid)
    ensures |BasePoints(g)| == Index(g.xCount, g.yCount, 0)
  {
  }

  lemma MatrixWidth(g: Grid, z: seq<real>, offset: real)
    requires |z| == Index(g.xCount, g.yCount, 0)
    ensures var m := Matrix(g, z, offset, g.yCount);
            |m| == g.yCount && forall r :: 0 <= r < |m| ==> |m[r]| == g.xCount
  {
  }

  // The heights the base points are left with, of a list of any length.
  function Corrected(points: seq<Point>, s: Substitutes, h: seq<real>): seq<real> {
    var end := Start(points, s, |points|);
    Entries(points, s, h, |points|) + Slice(h, end, end + |h|)
  }

  function FinalOf(g: Grid, s: Substitutes, h: seq<real>, zOffset: real): Finalized {
    var z := Corrected(BasePoints(g), s, h);
    if |z| != |BasePoints(g)| then InvalidSize
    else if !AllApart(g, g.yCount) then InvalidYLength
    else Probed(Matrix(g, z, zOffset, g.yCount), zOffset)
  }

  // Probing round trip: given a height for every point of the standard path, a matrix comes
  // out exactly when the rows are told apart, and every cell holds the mean of the heights
  // measured for the base point at its own place on the grid.
  lemma ProbedMatrix(g: Grid, s: Substitutes, h: seq<real>, zOffset: real)
    requires ValidGrid(g) && ValidSubstitutes(s, |BasePoints(g)|)
    requires |h| == |StdPath(BasePoints(g), s, |BasePoints(g)|)|
    ensures FinalOf(g, s, h, zOffset).Probed? <==> AllApart(g, g.yCount)
    ensures !AllApart(g, g.yCount) ==> FinalOf(g, s, h, zOffset) == InvalidYLength
    ensures AllApart(g, g.yCount) ==>
              var m := FinalOf(g, s, h, zOffset).matrix;
              && |m| == g.yCount
              && forall r, c :: 0 <= r < g.yCount && 0 <= c < g.xCount ==>
                   && |m[r]| == g.xCount
                   && var i := Index(g.xCount, r, Column(g, r, c));
                      && i < |BasePoints(g)| && BasePoints(g)[i] == GridPoint(g, c, r)
                      && m[r][c] == Reading(BasePoints(g), s, h, i) - zOffset
  {
    hide Entries, Slice, BasePoints, Index, StdPath, Reading, GridPoint, Apart, Column, ValidSubstitutes;
    var points := BasePoints(g);
    EntriesAreMeans(points, s, h, |points|);
    NothingLeft(h);
    PointCount(g);
    var z := Corrected(points, s, h);
    assert z == Entries(points, s, h, |points|);
    if AllApart(g, g.yCount) {
      forall r, c | 0 <= r < g.yCount && 0 <= c < g.xCount
        ensures var i := Index(g.xCount, r, Column(g, r, c));
                && i < |points| && points[i] == GridPoint(g, c, r)
                && Matrix(g, z, zOffset, g.yCount)[r][c] == Reading(points, s, h, i) - zOffset
      {
        GridPointProbed(g, c, r);
      }
    }
  }

  lemma NothingLeft(h: seq<real>)
    ensures Slice(h, |h|, |h| + |h|) == []
  {
  }

  // ---------- the finished surface ----------

  lemma NodeCoordinate(min: real, dist: real, n: nat, pps: nat, k: nat)
    requires dist > 0.0 && n >= 3
    ensures ValidAxis(Axis(min, Tick(min, dist, n - 1), n, pps))
    ensures var a := Axis(min, Tick(min, dist, n - 1), n, pps); Coordinate(a, k * Mult(a)) == Tick(min, dist, k)
  {
    var m := pps + 1;
    var a := Axis(min, min + (n - 1) as real * dist, n, pps);
    Sign((n - 1) as real, dist);
    var steps, d := (n - 1) as real, m as real;
    assert (Count(a) - 1) as real == steps * d;
    Shorten(steps, dist, d);
    assert Dist(a) == dist / d;
    assert (k * m) as real == k as real * d;
    Widen(dist, d, k as real);
  }

  lemma Shorten(steps: real, dist: real, d: real)
    requires steps > 0.0 && d > 0.0
    ensures steps * d != 0.0 && steps * dist / (steps * d) == dist / d
  {
    var q := dist / d;
    assert q * d == dist;
    assert q * (steps * d) == steps * (q * d);
  }

  lemma Widen(dist: real, d: real, k: real)
    requires d > 0.0
    ensures dist / d * (k * d) == k * dist
  {
    var q := dist / d;
    assert q * d == dist;
    assert q * (k * d) == k * (q * d);
  }

  // What building a mesh from a matrix leaves; no algorithm stands for 'direct', which adds no
  // points and takes the matrix as it is.
  ghost predicate SurfaceOf(s: Surface, algo: Option<Algorithm>, g: Grid, matrix: seq<seq<real>>) {
    && ValidGrid(g) && ValidSurface(s) && s.offsetX == 0.0 == s.offsetY
    && s.x == Axis(g.minX, MaxX(g), g.xCount, s.x.pps)
    && s.y == Axis(g.minY, Tick(g.minY, g.yDist, g.yCount - 1), g.yCount, s.y.pps)
    && Rectangular(matrix, g.xCount, g.yCount)
    && match algo
       case None => s.x.pps == s.y.pps == 0 && s.rows == matrix
       case Some(a) =>
         forall j: nat, i: nat :: j < Count(s.y) && i < Count(s.x) ==> s.rows[j][i] == Filled(a, s.x, s.y, matrix, j, i)
  }

  lemma NodesHoldMatrix(s: Surface, algo: Option<Algorithm>, g: Grid, matrix: seq<seq<real>>, c: nat, r: nat)
    requires SurfaceOf(s, algo, g, matrix) && c < g.xCount && r < g.yCount
    ensures c * Mult(s.x) < Count(s.x) && r * Mult(s.y) < Count(s.y)
    ensures s.rows[r * Mult(s.y)][c * Mult(s.x)] == matrix[r][c]
  {
    hide Filled, Count, Tick;
    NodeIndex(s.x, c);
    NodeIndex(s.y, r);
    if algo.Some? {
      ProbedCellsKept(algo.value, s.x, s.y, matrix, r, c);
    }
  }

  // From probing to lookup: with every algorithm and without, the surface has, at every grid
  // point, exactly the height measured there.
  lemma SurfaceThroughProbed(s: Surface, algo: Option<Algorithm>, g: Grid, matrix: seq<seq<real>>, c: nat, r: nat)
    requires SurfaceOf(s, algo, g, matrix) && c < g.xCount && r < g.yCount
    ensures CalcZ(s, GridPoint(g, c, r).x, GridPoint(g, c, r).y) == matrix[r][c]
  {
    hide CalcZ, Filled, Coordinate, Count, Tick;
    NodeCoordinate(g.minX, g.xDist, g.xCount, s.x.pps, c);
    NodeCoordinate(g.minY, g.yDist, g.yCount, s.y.pps, r);
    NodesHoldMatrix(s, algo, g, matrix, c, r);
    CalcZAtNode(s, c * Mult(s.x), r * Mult(s.y));
  }

  // And after the zero reference was set at some position: the height measured there less the
  // height of the surface at the reference, taken once, or twice with 'direct'.
  lemma SurfaceAfterReference(s: Surface, algo: Option<Algorithm>, g: Grid, matrix: seq<seq<real>>,
                              rows: seq<seq<real>>, x: real, y: real, c: nat, r: nat)
    requires SurfaceOf(s, algo, g, matrix) && c < g.xCount && r < g.yCount
    requires Shifted(rows, s.rows, if algo.None? then CalcZ(s, x, y) + CalcZ(s, x, y) else CalcZ(s, x, y))
    ensures ValidSurface(s.(rows := rows))
    ensures CalcZ(s.(rows := rows), GridPoint(g, c, r).x, GridPoint(g, c, r).y) ==
            matrix[r][c] - CalcZ(s, x, y) - if algo.None? then CalcZ(s, x, y) else 0.0
  {
    hide CalcZ, SurfaceOf;
    SurfaceThroughProbed(s, algo, g, matrix, c, r);
    var p := GridPoint(g, c, r);
    SurfaceIsValid(s, algo, g, matrix);
    CalcZShift(s, rows, if algo.None? then CalcZ(s, x, y) + CalcZ(s, x, y) else CalcZ(s, x, y), p.x, p.y);
  }

  lemma SurfaceIsValid(s: Surface, algo: Option<Algorithm>, g: Grid, matrix: seq<seq<real>>)
    requires SurfaceOf(s, algo, g, matrix)
    ensures ValidSurface(s)
  {
  }

  // One substituted point: the heights before it, then the mean of its own.
  lemma SubstituteStep(points: seq<Point>, s: Substitutes, h: seq<real>, k: nat)
    requires ValidSubstitutes(s, |points|) && k < |s.keys|
    ensures Done(s, k) <= s.keys[k] < |points| && s.keys[k] in s.at && |s.at[s.keys[k]]| > 0
    ensures var i := s.keys[k];
            var from, idx, len := Start(points, s, Done(s, k)), Start(points, s, i), |s.at[i]|;
            && idx == from + i - Done(s, k) && Start(points, s, i + 1) == idx + len
            && Entries(points, s, h, i + 1) ==
               Entries(points, s, h, Done(s, k)) + Slice(h, from, idx) + [Sum(Slice(h, idx, idx + len)) / len as real]
  {
    hide Start, Entries, Entry, Slice, Sum;
    KeysBetween(s, |points|, k);
    var i := s.keys[k];
    Stretch(points, s, h, Done(s, k), i);
    EntryNext(points, s, h, i);
    Average(points, s, h, i);
  }

  lemma Average(points: seq<Point>, s: Substitutes, h: seq<real>, i: nat)
    requires i < |points| && ValidSubstitutes(s, |points|) && i in s.at
    ensures Block(points, s, i) == s.at[i] && |s.at[i]| > 0
    ensures var k := Start(points, s, i);
            Entry(points, s, h, i) == [Sum(Slice(h, k, k + |s.at[i]|)) / |s.at[i]| as real]
  {
    hide Sum, Slice, StdPath;
  }

  lemma Tail(h: seq<real>, a: nat, b: nat)
    requires a <= b
    ensures Slice(h, a, a + |h|) == Slice(h, a, b) + Slice(h, b, b + |h|)
  {
  }
}
