/** The interpolation table of an ADC sensor (software/klipper/extras/adc_temperature.py,
    LinearInterpolate).

    The samples are taken in sorted order, as the constructor's call of sorted() leaves them;
    arithmetic is exact. */
module LinearInterpolate {
  import opened Support

  const SENTINEL: real := 9999999999999.0

  datatype Point = Point(key: real, value: real)

  // value = key * gain + offset
  datatype Line = Line(gain: real, offset: real)

  function Eval(l: Line, key: real): real {
    key * l.gain + l.offset
  }

  // The line with a given gain through a sample.
  function LineFrom(p: Point, gain: real): Line {
    Line(gain, p.value - p.key * gain)
  }

  // The line through two samples.
  function Through(a: Point, b: Point): Line
    requires a.key != b.key
  {
    LineFrom(a, (b.value - a.value) / (b.key - a.key))
  }

  predicate On(l: Line, p: Point) {
    Eval(l, p.key) == p.value
  }

  lemma ThroughBoth(a: Point, b: Point)
    requires a.key != b.key
    ensures On(Through(a, b), a) && On(Through(a, b), b)
  {
    hide LineFrom, On;
    var d := b.key - a.key;
    var gain := (b.value - a.value) / d;
    LineFromOn(a, b, d, gain);
  }

  lemma LineFromOn(a: Point, b: Point, d: real, gain: real)
    requires d == b.key - a.key && gain * d == b.value - a.value
    ensures On(LineFrom(a, gain), a) && On(LineFrom(a, gain), b)
  {
    Distribute(gain, a.key, b.key, d);
  }

  lemma Distribute(g: real, x: real, y: real, d: real)
    requires d == y - x
    ensures y * g - x * g == g * d
  {
    assert (y - x) * g == y * g - x * g;
  }

  lemma EvalDifference(l: Line, x: real, y: real, d: real)
    requires d == y - x
    ensures Eval(l, y) - Eval(l, x) == l.gain * d
  {
    Distribute(l.gain, x, y, d);
  }

  lemma CancelFactor(g: real, h: real, d: real)
    requires d != 0.0 && g * d == h * d
    ensures g == h
  {
    assert (g - h) * d == 0.0;
  }

  // Two points with different keys lie on one line only.
  lemma OnlyLine(l: Line, m: Line, a: Point, b: Point)
    requires a.key != b.key && On(l, a) && On(l, b) && On(m, a) && On(m, b)
    ensures l == m
  {
    var d := b.key - a.key;
    EvalDifference(l, a.key, b.key, d);
    EvalDifference(m, a.key, b.key, d);
    CancelFactor(l.gain, m.gain, d);
  }

  // ---------- building the table ----------

  datatype Table = Table(keys: seq<real>, slopes: seq<Line>)

  datatype Error = DuplicateValue | TooFewSamples

  datatype Build = Built(table: Table) | Failed(error: Error)

  // The samples kept among the first k: a sample on the line of the last two kept is skipped.
  // None when a key does not exceed the last key kept.
  function Kept(samples: seq<Point>, k: nat): Option<seq<Point>>
    requires k <= |samples|
  {
    if k == 0 then Some([])
    else
      var before := Kept(samples, k - 1);
      if before.None? then None else KeepNext(before.value, samples[k - 1])
  }

  function KeepNext(kept: seq<Point>, p: Point): Option<seq<Point>> {
    if kept == [] then Some([p])
    else if p.key <= kept[|kept| - 1].key then None
    else if |kept| > 1 && kept[|kept| - 2].key != kept[|kept| - 1].key && LastLine(kept) == Through(kept[|kept| - 1], p)
    then Some(kept)
    else Some(kept + [p])
  }

  function LastLine(kept: seq<Point>): Line
    requires |kept| > 1 && kept[|kept| - 2].key != kept[|kept| - 1].key
  {
    Through(kept[|kept| - 2], kept[|kept| - 1])
  }

  predicate Rising(points: seq<Point>) {
    forall i :: 0 <= i < |points| - 1 ==> points[i].key < points[i + 1].key
  }

  function Keys(kept: seq<Point>): seq<real>
    requires kept != []
  {
    seq(|kept| - 1, i requires 0 <= i < |kept| - 1 => kept[i + 1].key)
  }

  function Slopes(kept: seq<Point>): seq<Line>
    requires kept != [] && Rising(kept)
  {
    seq(|kept| - 1, i requires 0 <= i < |kept| - 1 => Through(kept[i], kept[i + 1]))
  }

  // The table of the kept samples, with the last segment continued to the sentinel key.
  function TableOf(kept: seq<Point>): (t: Table)
    requires |kept| > 1 && Rising(kept)
    ensures |t.keys| == |t.slopes| == |kept|
  {
    Table(Keys(kept) + [SENTINEL], Slopes(kept) + [LastLine(kept)])
  }

  // One more sample beyond the last one kept.
  lemma Extend(kept: seq<Point>, p: Point)
    requires kept != [] && Rising(kept) && kept[|kept| - 1].key < p.key
    ensures Rising(kept + [p]) && Keys(kept + [p]) == Keys(kept) + [p.key]
    ensures Slopes(kept + [p]) == Slopes(kept) + [Through(kept[|kept| - 1], p)]
    ensures KeepNext(kept, p) ==
            Some(if |kept| > 1 && Slopes(kept)[|kept| - 2] == Through(kept[|kept| - 1], p) then kept else kept + [p])
  {
    hide Through;
  }

  lemma {:induction false} KeptIsRising(samples: seq<Point>, k: nat)
    requires k <= |samples| && Kept(samples, k).Some?
    ensures Rising(Kept(samples, k).value)
    ensures k > 0 ==> Kept(samples, k).value != [] && Kept(samples, k).value[0] == samples[0]
  {
    if k > 0 {
      KeptIsRising(samples, k - 1);
    }
  }

  lemma FirstKept(p: Point)
    ensures KeepNext([], p) == Some([p]) && Keys([p]) == [] && Slopes([p]) == []
  {
  }

  lemma DuplicateKey(kept: seq<Point>, p: Point)
    requires kept != [] && p.key <= kept[|kept| - 1].key
    ensures KeepNext(kept, p).None?
  {
  }

  lemma TableLengths(kept: seq<Point>)
    requires Rising(kept)
    ensures kept != [] ==> |Keys(kept)| == |Slopes(kept)| == |kept| - 1
    ensures |kept| > 1 ==> Slopes(kept)[|kept| - 2] == LastLine(kept)
  {
  }

  class Interpolator {
    var keys: seq<real>
    var slopes: seq<Line>

    constructor ()
      ensures keys == [] && slopes == []
    {
      keys, slopes := [], [];
    }

    // The constructor of the source, which raises an error for unusable samples.
    method Load(samples: seq<Point>) returns (error: Option<Error>)
      requires keys == [] && slopes == []
      modifies this
      ensures error == Some(DuplicateValue) <==> Kept(samples, |samples|).None?
      ensures Kept(samples, |samples|).Some? ==>
                var kept := Kept(samples, |samples|).value;
                if |kept| < 2 then error == Some(TooFewSamples)
                else Rising(kept) && error == None && Table(keys, slopes) == TableOf(kept)
      ensures Rising(samples) && |samples| > 1 ==> error == None && Table(keys, slopes) == CurveOf(samples)
    {
      hide KeepNext, Keys, Slopes, LineFrom;
      RisingIsUsable(samples);
      var last: Option<Point> := None;
      ghost var kept: seq<Point> := [];
      for k := 0 to |samples|
        invariant Kept(samples, k) == Some(kept) && Rising(kept)
        invariant last == if kept == [] then None else Some(kept[|kept| - 1])
        invariant kept == [] ==> k == 0 && keys == [] && slopes == []
        invariant kept != [] ==> keys == Keys(kept) && slopes == Slopes(kept)
      {
        var p := samples[k];
        if last.None? {
          last := Some(p);
          kept := [p];
          FirstKept(p);
          continue;
        }
        if p.key <= last.value.key {
          DuplicateKey(kept, p);
          KeptFails(samples, k + 1, |samples|);
          return Some(DuplicateValue);
        }
        var gain := (p.value - last.value.value) / (p.key - last.value.key);
        var slope := LineFrom(last.value, gain);
        assert slope == Through(last.value, p);
        Extend(kept, p);
        TableLengths(kept);
        if slopes != [] && slopes[|slopes| - 1] == slope {
          continue;
        }
        last := Some(p);
        keys := keys + [p.key];
        slopes := slopes + [slope];
        kept := kept + [p];
      }
      TableLengths(kept);
      if keys == [] {
        return Some(TooFewSamples);
      }
      keys := keys + [SENTINEL];
      slopes := slopes + [slopes[|slopes| - 1]];
      return None;
    }
  }

  lemma {:induction false} KeptFails(samples: seq<Point>, a: nat, b: nat)
    requires a <= b <= |samples| && Kept(samples, a).None?
    ensures Kept(samples, b).None?
  {
    if a < b {
      KeptFails(samples, a, b - 1);
    }
  }

  // ---------- looking up ----------

  // None stands for the index error at and beyond the sentinel key.
  function Interpolate(t: Table, key: real): Option<real>
    requires |t.slopes| == |t.keys|
  {
    var pos := Bisect(t.keys, key);
    if pos == |t.keys| then None else Some(Eval(t.slopes[pos], key))
  }

  function Values(t: Table): seq<real>
    requires |t.slopes| == |t.keys|
  {
    seq(|t.keys|, i requires 0 <= i < |t.keys| => Eval(t.slopes[i], t.keys[i]))
  }

  // The first index from i on whose value is past the given one, or the last index.
  function FirstPast(values: seq<real>, value: real, rising: bool, i: nat): (r: nat)
    requires i < |values|
    ensures i <= r < |values|
    decreases |values| - i
  {
    if i == |values| - 1 || (if rising then values[i] >= value else values[i] <= value) then i
    else FirstPast(values, value, rising, i + 1)
  }

  // None stands for the division by zero of a level segment.
  function ReverseInterpolate(t: Table, value: real): Option<real>
    requires |t.slopes| == |t.keys| >= 2
  {
    var values := Values(t);
    var l := t.slopes[FirstPast(values, value, values[0] < values[|values| - 2], 0)];
    if l.gain == 0.0 then None else Some((value - l.offset) / l.gain)
  }

  lemma {:induction false} FirstPastBounds(values: seq<real>, value: real, rising: bool, i: nat)
    requires i < |values|
    ensures var r := FirstPast(values, value, rising, i);
            && (r < |values| - 1 ==> if rising then values[r] >= value else values[r] <= value)
            && (forall j :: i <= j < r ==> if rising then values[j] < value else values[j] > value)
    decreases |values| - i
  {
    if !(i == |values| - 1 || (if rising then values[i] >= value else values[i] <= value)) {
      FirstPastBounds(values, value, rising, i + 1);
    }
  }

  // ---------- the curve through the kept samples ----------

  ghost predicate Usable(kept: seq<Point>) {
    |kept| > 1 && Rising(kept) && kept[|kept| - 1].key < SENTINEL
  }

  // The segment in force at an index of the table, and the key that ends it.
  ghost function Segment(kept: seq<Point>, i: nat): Line
    requires Usable(kept) && i < |kept|
  {
    if i < |kept| - 1 then Through(kept[i], kept[i + 1]) else LastLine(kept)
  }

  ghost function EndKey(kept: seq<Point>, i: nat): real
    requires i < |kept|
  {
    if i < |kept| - 1 then kept[i + 1].key else SENTINEL
  }

  lemma TableAt(kept: seq<Point>, i: nat)
    requires Usable(kept) && i < |kept|
    ensures TableOf(kept).slopes[i] == Segment(kept, i) && TableOf(kept).keys[i] == EndKey(kept, i)
  {
    hide Through, Rising, LastLine, Keys, Slopes;
    if i < |kept| - 1 {
      PieceAt(kept, i);
    }
    PieceCount(kept);
  }

  lemma PieceAt(kept: seq<Point>, i: nat)
    requires Usable(kept) && i < |kept| - 1
    ensures |Slopes(kept)| == |Keys(kept)| == |kept| - 1
    ensures kept[i].key < kept[i + 1].key && Slopes(kept)[i] == Through(kept[i], kept[i + 1]) && Keys(kept)[i] == kept[i + 1].key
  {
    hide Through;
  }

  lemma PieceCount(kept: seq<Point>)
    requires Usable(kept)
    ensures |Slopes(kept)| == |Keys(kept)| == |kept| - 1
  {
    hide Through;
  }

  lemma SegmentEnds(kept: seq<Point>, i: nat)
    requires Usable(kept) && i < |kept|
    ensures On(Segment(kept, i), kept[i])
    ensures i < |kept| - 1 ==> On(Segment(kept, i), kept[i + 1])
  {
    hide On, Through;
    if i < |kept| - 1 {
      ThroughBoth(kept[i], kept[i + 1]);
    } else {
      ThroughBoth(kept[i - 1], kept[i]);
    }
  }

  lemma {:induction false} RisingAll(points: seq<Point>, i: nat, j: nat)
    requires Rising(points) && i < j < |points|
    ensures points[i].key < points[j].key
    decreases j - i
  {
    if i + 1 < j {
      RisingAll(points, i + 1, j);
    }
  }

  // A key between two kept samples, the second excluded, is looked up on their segment.
  lemma LookupIs(kept: seq<Point>, i: nat, key: real)
    requires Usable(kept) && i < |kept|
    requires (i == 0 || kept[i].key <= key) && key < EndKey(kept, i)
    ensures Bisect(TableOf(kept).keys, key) == i
    ensures Interpolate(TableOf(kept), key) == Some(Eval(Segment(kept, i), key))
  {
    hide Eval, Segment, Bisect, TableOf, EndKey;
    var t := TableOf(kept);
    BisectBounds(t.keys, key);
    var p := Bisect(t.keys, key);
    TableAt(kept, i);
    if p > i {
      KeysRise(kept, i, p - 1);
    }
    if p < i {
      KeysRise(kept, p, i - 1);
      EndKeyIs(kept, i - 1);
    }
  }

  lemma EndKeyIs(kept: seq<Point>, i: nat)
    requires i < |kept| - 1
    ensures EndKey(kept, i) == kept[i + 1].key
  {
  }

  lemma KeysRise(kept: seq<Point>, i: nat, j: nat)
    requires Usable(kept) && i <= j < |kept|
    ensures TableOf(kept).keys[i] == EndKey(kept, i) <= EndKey(kept, j) == TableOf(kept).keys[j]
  {
    hide TableOf, Rising;
    TableAt(kept, i);
    TableAt(kept, j);
    if i < j {
      if j < |kept| - 1 {
        RisingAll(kept, i + 1, j + 1);
      } else if i + 1 < |kept| - 1 {
        RisingAll(kept, i + 1, |kept| - 1);
      }
    }
  }

  // The curve is defined exactly below the sentinel and passes through every kept sample; at
  // an inner one both neighbouring segments give its value, so the curve is continuous.
  lemma CurveThroughKept(kept: seq<Point>, i: nat)
    requires Usable(kept) && i < |kept|
    ensures Interpolate(TableOf(kept), kept[i].key) == Some(kept[i].value)
    ensures On(Segment(kept, i), kept[i]) && (i > 0 ==> On(Segment(kept, i - 1), kept[i]))
  {
    hide Eval, Through;
    SegmentEnds(kept, i);
    if i < |kept| - 1 {
      RisingAll(kept, i, i + 1);
    }
    LookupIs(kept, i, kept[i].key);
    if i > 0 {
      SegmentEnds(kept, i - 1);
    }
  }

  lemma DefinedBelowSentinel(kept: seq<Point>, key: real)
    requires Usable(kept)
    ensures Interpolate(TableOf(kept), key).Some? <==> key < SENTINEL
  {
    hide Eval, Bisect, TableOf;
    var t := TableOf(kept);
    BisectBounds(t.keys, key);
    TableAt(kept, |kept| - 1);
    var p := Bisect(t.keys, key);
    if p < |t.keys| {
      KeysRise(kept, p, |kept| - 1);
    }
  }

  // ---------- the inverse ----------

  ghost predicate MonotoneValues(kept: seq<Point>, rising: bool) {
    forall i :: 0 <= i < |kept| - 1 ==>
      if rising then kept[i].value < kept[i + 1].value else kept[i].value > kept[i + 1].value
  }

  lemma GainSign(l: Line, a: Point, b: Point)
    requires On(l, a) && On(l, b) && a.key < b.key
    ensures (l.gain > 0.0 <==> a.value < b.value) && (l.gain < 0.0 <==> a.value > b.value)
  {
    var d := b.key - a.key;
    EvalDifference(l, a.key, b.key, d);
    Sign(l.gain, d);
  }

  lemma EvalOrder(l: Line, x: real, y: real)
    ensures l.gain > 0.0 ==> (x < y <==> Eval(l, x) < Eval(l, y))
    ensures l.gain < 0.0 ==> (x < y <==> Eval(l, x) > Eval(l, y))
  {
    if x < y {
      EvalDifference(l, x, y, y - x);
      Sign(l.gain, y - x);
    } else if y < x {
      EvalDifference(l, y, x, x - y);
      Sign(l.gain, x - y);
    }
  }

  lemma Solve(l: Line, key: real)
    requires l.gain != 0.0
    ensures (Eval(l, key) - l.offset) / l.gain == key
  {
    assert Eval(l, key) - l.offset == key * l.gain;
    Divide(key, l.gain, Eval(l, key) - l.offset);
  }

  lemma Divide(x: real, g: real, y: real)
    requires g != 0.0 && y == x * g
    ensures y / g == x
  {
  }

  lemma SolveValue(l: Line, value: real)
    requires l.gain != 0.0
    ensures Eval(l, (value - l.offset) / l.gain) == value
  {
    var k := (value - l.offset) / l.gain;
    assert k * l.gain == value - l.offset;
  }

  lemma SegmentGain(kept: seq<Point>, rising: bool, i: nat)
    requires Usable(kept) && MonotoneValues(kept, rising) && i < |kept|
    ensures if rising then Segment(kept, i).gain > 0.0 else Segment(kept, i).gain < 0.0
  {
    hide On, Through;
    var j := if i < |kept| - 1 then i else i - 1;
    SegmentEnds(kept, j);
    GainSign(Segment(kept, j), kept[j], kept[j + 1]);
  }

  // The value of the table at each index: the next kept sample's, and beyond them all at the
  // sentinel.
  lemma ValuesAre(kept: seq<Point>, i: nat)
    requires Usable(kept) && i < |kept|
    ensures |Values(TableOf(kept))| == |kept|
    ensures Values(TableOf(kept))[i] == Eval(Segment(kept, i), EndKey(kept, i))
    ensures i < |kept| - 1 ==> Values(TableOf(kept))[i] == kept[i + 1].value
  {
    hide Eval, TableOf, Segment;
    TableAt(kept, i);
    SegmentEnds(kept, i);
  }

  lemma {:induction false} ValuesAll(kept: seq<Point>, rising: bool, i: nat, j: nat)
    requires MonotoneValues(kept, rising) && i < j < |kept|
    ensures if rising then kept[i].value < kept[j].value else kept[i].value > kept[j].value
    decreases j - i
  {
    if i + 1 < j {
      ValuesAll(kept, rising, i + 1, j);
    }
  }

  // Which direction the source takes: the right one, unless there is only one segment, when
  // either serves.
  lemma Direction(kept: seq<Point>, rising: bool)
    requires Usable(kept) && MonotoneValues(kept, rising)
    ensures var values := Values(TableOf(kept));
            |values| == |kept| && (values[0] < values[|values| - 2] <==> rising && |kept| > 2)
  {
    hide Eval, TableOf, Values, Segment, EndKey;
    ValuesAre(kept, 0);
    ValuesAre(kept, |kept| - 2);
    if |kept| > 2 {
      ValuesAll(kept, rising, 1, |kept| - 1);
    }
  }

  // The segment chosen for the value of the curve at a key is one that has this value there.
  lemma ChosenSegment(kept: seq<Point>, rising: bool, i: nat, key: real, r: nat)
    requires Usable(kept) && MonotoneValues(kept, rising) && i < |kept|
    requires (i == 0 || kept[i].key <= key) && key < EndKey(kept, i)
    requires r == FirstPast(Values(TableOf(kept)), Eval(Segment(kept, i), key), rising, 0)
    ensures r < |kept| && Eval(Segment(kept, r), key) == Eval(Segment(kept, i), key)
  {
    hide Eval, FirstPast, TableOf, Values, Segment, EndKey, MonotoneValues, Rising;
    var values, value := Values(TableOf(kept)), Eval(Segment(kept, i), key);
    ValuesAre(kept, i);
    FirstPastBounds(values, value, rising, 0);
    SegmentGain(kept, rising, i);
    EvalOrder(Segment(kept, i), key, EndKey(kept, i));
    if r < i {
      // only the start of segment i has a value that earlier segments reach
      SegmentEnds(kept, i);
      EvalOrder(Segment(kept, i), key, kept[i].key);
      EvalOrder(Segment(kept, i), kept[i].key, key);
      ValuesAre(kept, r);
      ValuesBefore(kept, rising, r + 1, i);
      SegmentEnds(kept, r);
      RisingUpTo(kept, r + 1, i);
    }
  }

  lemma ValuesBefore(kept: seq<Point>, rising: bool, i: nat, j: nat)
    requires MonotoneValues(kept, rising) && i <= j < |kept|
    ensures i < j ==> if rising then kept[i].value < kept[j].value else kept[i].value > kept[j].value
  {
    if i < j {
      ValuesAll(kept, rising, i, j);
    }
  }

  lemma RisingUpTo(kept: seq<Point>, i: nat, j: nat)
    requires Rising(kept) && i <= j < |kept|
    ensures kept[i].key <= kept[j].key && (kept[i].key == kept[j].key ==> i == j)
  {
    if i < j {
      RisingAll(kept, i, j);
    }
  }

  // With a single segment both entries of the table are that segment.
  lemma SingleSegment(kept: seq<Point>, i: nat, j: nat)
    requires Usable(kept) && |kept| == 2 && i < 2 && j < 2
    ensures Segment(kept, i) == Segment(kept, j)
  {
  }

  // For strictly monotone kept values, in either direction, looking a value of the curve up
  // again gives its key back.
  lemma ReverseUndoesKept(kept: seq<Point>, rising: bool, key: real)
    requires Usable(kept) && MonotoneValues(kept, rising) && key < SENTINEL
    ensures var t := TableOf(kept);
            && Interpolate(t, key).Some?
            && ReverseInterpolate(t, Interpolate(t, key).value) == Some(key)
  {
    hide Eval, FirstPast, MonotoneValues, TableOf, Values, Segment, EndKey, Interpolate;
    var t := TableOf(kept);
    var i := FindSegment(kept, key);
    LookupIs(kept, i, key);
    Direction(kept, rising);
    var value := Eval(Segment(kept, i), key);
    var r := FirstPast(Values(t), value, rising && |kept| > 2, 0);
    TableAt(kept, r);
    SegmentGain(kept, rising, r);
    if |kept| > 2 {
      ChosenSegment(kept, rising, i, key, r);
    } else {
      SingleSegment(kept, i, r);
    }
    Solve(Segment(kept, r), key);
  }

  lemma FindSegment(kept: seq<Point>, key: real) returns (i: nat)
    requires Usable(kept) && key < SENTINEL
    ensures i < |kept| && (i == 0 || kept[i].key <= key)
    ensures key < EndKey(kept, i)
  {
    i := |kept| - 1;
    while i > 0 && key < kept[i].key
      invariant i < |kept| && key < EndKey(kept, i)
    {
      i := i - 1;
    }
  }

  // The other way round: whenever the key found for a value is below the sentinel, the curve
  // has that value there.
  lemma InterpolateUndoesKept(kept: seq<Point>, rising: bool, value: real)
    requires Usable(kept) && MonotoneValues(kept, rising)
    ensures var t := TableOf(kept);
            && ReverseInterpolate(t, value).Some?
            && var key := ReverseInterpolate(t, value).value;
               Interpolate(t, key) == if key < SENTINEL then Some(value) else None
  {
    hide Eval, FirstPast, MonotoneValues, TableOf, Values, Segment, EndKey, Interpolate;
    var t := TableOf(kept);
    Direction(kept, rising);
    var r := FirstPast(Values(t), value, rising && |kept| > 2, 0);
    TableAt(kept, r);
    SegmentGain(kept, rising, r);
    var l := Segment(kept, r);
    SolveValue(l, value);
    var key := (value - l.offset) / l.gain;
    DefinedBelowSentinel(kept, key);
    if key < SENTINEL {
      if |kept| == 2 {
        var i := FindSegment(kept, key);
        LookupIs(kept, i, key);
        SingleSegment(kept, i, r);
      } else {
        SolvedInSegment(kept, rising, value, key, r);
      }
    }
  }

  lemma SolvedInSegment(kept: seq<Point>, rising: bool, value: real, key: real, r: nat)
    requires Usable(kept) && MonotoneValues(kept, rising) && |kept| > 2 && r < |kept| && key < SENTINEL
    requires r == FirstPast(Values(TableOf(kept)), value, rising, 0)
    requires Eval(Segment(kept, r), key) == value
    ensures Interpolate(TableOf(kept), key) == Some(value)
  {
    hide Eval, FirstPast, TableOf, Values, Segment, MonotoneValues, Interpolate, Rising;
    var l := Segment(kept, r);
    ValuesAre(kept, r);
    FirstPastBounds(Values(TableOf(kept)), value, rising, 0);
    SegmentEnds(kept, r);
    SegmentGain(kept, rising, r);
    if r > 0 {
      ValuesAre(kept, r - 1);
      EvalOrder(l, kept[r].key, key);
    }
    if r < |kept| - 1 {
      EvalOrder(l, kept[r + 1].key, key);
      if key < kept[r + 1].key {
        LookupIs(kept, r, key);
      } else {
        EvalOrder(l, key, kept[r + 1].key);
        CurveThroughKept(kept, r + 1);
      }
    } else {
      LookupIs(kept, r, key);
    }
  }

  // ---------- which samples the curve passes through ----------

  // Sample k lies on the line of the two before it.
  predicate Collinear(samples: seq<Point>, k: nat)
    requires 2 <= k < |samples| && Rising(samples)
  {
    On(Through(samples[k - 2], samples[k - 1]), samples[k])
  }

  // No straight run of three samples is followed by a bend.
  predicate NoLateBend(samples: seq<Point>)
    requires Rising(samples)
  {
    forall k :: 2 <= k < |samples| - 1 && Collinear(samples, k) ==> Collinear(samples, k + 1)
  }

  lemma KeepNextIs(kept: seq<Point>, p: Point)
    requires |kept| > 1 && Rising(kept) && kept[|kept| - 1].key < p.key
    ensures KeepNext(kept, p) == Some(if On(LastLine(kept), p) then kept else kept + [p])
  {
    hide Eval, Through;
    var a, b := kept[|kept| - 2], kept[|kept| - 1];
    ThroughBoth(a, b);
    ThroughBoth(b, p);
    if On(LastLine(kept), p) {
      OnlyLine(LastLine(kept), Through(b, p), b, p);
    }
  }

  lemma PrefixRises(samples: seq<Point>, k: nat)
    requires Rising(samples) && k <= |samples|
    ensures Rising(samples[..k])
  {
  }

  // Up to the first straight run, every sample is kept.
  lemma {:induction false} KeptWhileBending(samples: seq<Point>, k: nat)
    requires Rising(samples) && k <= |samples|
    requires forall j :: 2 <= j < k ==> !Collinear(samples, j)
    ensures Kept(samples, k) == Some(samples[..k])
  {
    hide On, Through;
    if k > 0 {
      KeptWhileBending(samples, k - 1);
      assert samples[..k] == samples[..k - 1] + [samples[k - 1]];
      if k > 2 {
        PrefixRises(samples, k - 1);
        assert !Collinear(samples, k - 1);
        assert LastLine(samples[..k - 1]) == Through(samples[k - 3], samples[k - 2]);
        KeepNextIs(samples[..k - 1], samples[k - 1]);
      } else if k == 2 {
        RisingAll(samples, 0, 1);
        assert samples[..1] == [samples[0]];
      } else {
        assert samples[..0] == [] && samples[..1] == [samples[0]];
      }
    }
  }

  // Along a straight run that starts with samples a - 2 and a - 1, nothing more is kept.
  lemma {:induction false} KeptAlongRun(samples: seq<Point>, a: nat, k: nat)
    requires Rising(samples) && 2 <= a <= k <= |samples| && Kept(samples, a) == Some(samples[..a])
    requires forall j :: a <= j < k ==> Collinear(samples, j)
    ensures Kept(samples, k) == Some(samples[..a])
    ensures forall j :: a <= j < k ==> On(Through(samples[a - 2], samples[a - 1]), samples[j])
    ensures forall j :: a <= j < k ==>
              Through(samples[j - 1], samples[j]) == Through(samples[a - 2], samples[a - 1])
    decreases k
  {
    hide On, Through, Kept, KeepNext, Collinear;
    if a < k {
      KeptAlongRun(samples, a, k - 1);
      var l := Through(samples[a - 2], samples[a - 1]);
      var j := k - 1;
      CollinearIs(samples, j);
      KeptStep(samples, j);
      assert On(l, samples[j - 1]) by {
        if j - 1 == a - 1 {
          ThroughBoth(samples[a - 2], samples[a - 1]);
        }
      }
      assert On(l, samples[j]) by {
        if j > a {
          assert Through(samples[j - 2], samples[j - 1]) == l;
        }
      }
      ThroughBoth(samples[j - 1], samples[j]);
      OnlyLine(l, Through(samples[j - 1], samples[j]), samples[j - 1], samples[j]);
      PrefixRises(samples, a);
      RisingAll(samples, a - 1, j);
      KeepNextIs(samples[..a], samples[j]);
    }
  }

  lemma {:induction false} KeptIsSome(samples: seq<Point>, k: nat)
    requires Rising(samples) && k <= |samples|
    ensures Kept(samples, k).Some?
    ensures k > 0 ==> Kept(samples, k).value != [] && Kept(samples, k).value[|Kept(samples, k).value| - 1].key <= samples[k - 1].key
    ensures k > 1 ==> |Kept(samples, k).value| > 1
    ensures Rising(Kept(samples, k).value)
  {
    hide On, Through;
    if k > 0 {
      KeptIsSome(samples, k - 1);
    }
  }

  // Values that rise or fall strictly do so among the samples kept.
  lemma {:induction false} KeptIsMonotone(samples: seq<Point>, k: nat, rising: bool)
    requires Rising(samples) && MonotoneValues(samples, rising) && k <= |samples|
    ensures Kept(samples, k).Some? && MonotoneValues(Kept(samples, k).value, rising)
    ensures k > 0 ==>
              && Kept(samples, k).value != []
              && NotPast(Kept(samples, k).value[|Kept(samples, k).value| - 1], samples[k - 1], rising)
  {
    hide On, Through;
    if k > 0 {
      KeptIsMonotone(samples, k - 1, rising);
      KeptIsSome(samples, k);
    }
  }

  predicate NotPast(a: Point, b: Point, rising: bool) {
    if rising then a.value <= b.value else a.value >= b.value
  }

  // The table built from rising keys.
  ghost function CurveOf(samples: seq<Point>): (t: Table)
    requires Rising(samples) && |samples| > 1
    ensures |t.slopes| == |t.keys| >= 2
  {
    KeptIsSome(samples, |samples|);
    TableOf(Kept(samples, |samples|).value)
  }

  lemma RisingIsUsable(samples: seq<Point>)
    ensures Rising(samples) && |samples| > 1 ==> Kept(samples, |samples|).Some? && |Kept(samples, |samples|).value| > 1
  {
    if Rising(samples) {
      KeptIsSome(samples, |samples|);
    }
  }

  // For samples with strictly monotone values, in either direction, looking a value of the
  // curve up again gives its key back, for every key below the sentinel.
  lemma ReverseUndoesInterpolate(samples: seq<Point>, rising: bool, key: real)
    requires Rising(samples) && |samples| > 1 && samples[|samples| - 1].key < SENTINEL
    requires MonotoneValues(samples, rising) && key < SENTINEL
    ensures var t := CurveOf(samples);
            && Interpolate(t, key).Some?
            && ReverseInterpolate(t, Interpolate(t, key).value) == Some(key)
  {
    hide Kept, MonotoneValues, TableOf, Interpolate, ReverseInterpolate;
    LastBelow(samples);
    KeptIsMonotone(samples, |samples|, rising);
    ReverseUndoesKept(Kept(samples, |samples|).value, rising, key);
  }

  // The other way round: whenever the key found for a value is below the sentinel, the curve
  // has that value there; every value is found at some key.
  lemma InterpolateUndoesReverse(samples: seq<Point>, rising: bool, value: real)
    requires Rising(samples) && |samples| > 1 && samples[|samples| - 1].key < SENTINEL
    requires MonotoneValues(samples, rising)
    ensures var t := CurveOf(samples);
            && ReverseInterpolate(t, value).Some?
            && var key := ReverseInterpolate(t, value).value;
               Interpolate(t, key) == if key < SENTINEL then Some(value) else None
  {
    hide Kept, MonotoneValues, TableOf, Interpolate, ReverseInterpolate;
    LastBelow(samples);
    KeptIsMonotone(samples, |samples|, rising);
    InterpolateUndoesKept(Kept(samples, |samples|).value, rising, value);
  }

  // What is kept is never given up.
  lemma {:induction false} KeptGrows(samples: seq<Point>, a: nat, b: nat)
    requires Rising(samples) && a <= b <= |samples|
    ensures Kept(samples, a).Some? && Kept(samples, b).Some? && Kept(samples, a).value <= Kept(samples, b).value
    decreases b
  {
    hide On, Through;
    KeptIsSome(samples, a);
    KeptIsSome(samples, b);
    if a < b {
      KeptGrows(samples, a, b - 1);
    }
  }

  ghost predicate PassesThrough(samples: seq<Point>, k: nat)
    requires Rising(samples) && k < |samples| && |samples| > 1
  {
    Interpolate(CurveOf(samples), samples[k].key) == Some(samples[k].value)
  }

  // A sample skipped on a straight run is missed if a later sample is kept: the curve leaves
  // the run at the last sample kept before.
  lemma SkippedIsMissed(samples: seq<Point>, a: nat, k: nat)
    requires Rising(samples) && 2 <= a < k < |samples| && samples[|samples| - 1].key < SENTINEL
    requires Kept(samples, k) == Some(samples[..a])
    requires On(Through(samples[a - 2], samples[a - 1]), samples[a])
    requires !On(Through(samples[a - 2], samples[a - 1]), samples[k])
    ensures !PassesThrough(samples, a)
  {
    hide Eval, Through, Kept, Interpolate, TableOf, Segment, EndKey, Rising, KeepNext;
    PrefixRises(samples, a);
    RisingAll(samples, a - 1, k);
    KeepNextIs(samples[..a], samples[k]);
    KeptStep(samples, k);
    KeptGrows(samples, k + 1, |samples|);
    KeptIsSome(samples, |samples|);
    LastBelow(samples);
    var kept := Kept(samples, |samples|).value;
    assert samples[..a] + [samples[k]] <= kept;
    MissedBetween(samples, a, k, kept);
  }

  lemma KeptStep(samples: seq<Point>, k: nat)
    requires k < |samples| && Kept(samples, k).Some?
    ensures Kept(samples, k + 1) == KeepNext(Kept(samples, k).value, samples[k])
  {
  }

  lemma LastBelow(samples: seq<Point>)
    requires Rising(samples) && |samples| > 1 && samples[|samples| - 1].key < SENTINEL
    ensures Kept(samples, |samples|).Some? && Usable(Kept(samples, |samples|).value)
  {
    KeptIsSome(samples, |samples|);
  }

  // Between two kept samples the curve is their line, which misses a sample off it.
  lemma MissedBetween(samples: seq<Point>, a: nat, k: nat, kept: seq<Point>)
    requires Rising(samples) && 2 <= a < k < |samples| && Usable(kept)
    requires samples[..a] + [samples[k]] <= kept
    requires On(Through(samples[a - 2], samples[a - 1]), samples[a])
    requires !On(Through(samples[a - 2], samples[a - 1]), samples[k])
    ensures Interpolate(TableOf(kept), samples[a].key) != Some(samples[a].value)
  {
    hide Eval, Through, Interpolate, TableOf, Rising;
    assert kept[a - 1] == samples[a - 1] && kept[a] == samples[k];
    RisingAll(samples, a - 2, a - 1);
    RisingAll(samples, a - 1, a);
    RisingAll(samples, a, k);
    RisingAll(samples, a - 1, k);
    LookupIs(kept, a - 1, samples[a].key);
    var l, m := Through(samples[a - 2], samples[a - 1]), Through(samples[a - 1], samples[k]);
    ThroughBoth(samples[a - 2], samples[a - 1]);
    ThroughBoth(samples[a - 1], samples[k]);
    if On(m, samples[a]) {
      OnlyLine(l, m, samples[a - 1], samples[a]);
    }
  }

  // The first straight run, or the end of the samples.
  lemma FirstRun(samples: seq<Point>) returns (a: nat)
    requires Rising(samples) && |samples| > 1
    ensures 2 <= a <= |samples| && (a < |samples| ==> Collinear(samples, a))
    ensures forall j :: 2 <= j < a ==> !Collinear(samples, j)
  {
    a := 2;
    while a < |samples| && !Collinear(samples, a)
      invariant 2 <= a <= |samples| && forall j :: 2 <= j < a ==> !Collinear(samples, j)
    {
      a := a + 1;
    }
  }

  lemma {:induction false} RunGoesOn(samples: seq<Point>, a: nat, k: nat)
    requires Rising(samples) && NoLateBend(samples) && 2 <= a <= k < |samples| && Collinear(samples, a)
    ensures Collinear(samples, k)
    decreases k
  {
    hide Collinear;
    if a < k {
      RunGoesOn(samples, a, k - 1);
    }
  }

  lemma StraightTail(samples: seq<Point>, k: nat)
    requires Rising(samples) && |samples| > 1 && samples[|samples| - 1].key < SENTINEL && NoLateBend(samples)
    requires k < |samples|
    ensures PassesThrough(samples, k)
  {
    hide Collinear, Eval, Through, NoLateBend, Kept, PassesThrough, Rising, On;
    var a := FirstRun(samples);
    KeptWhileBending(samples, a);
    forall j | a <= j < |samples| ensures Collinear(samples, j) {
      RunGoesOn(samples, a, j);
    }
    KeptAlongRun(samples, a, |samples|);
    if k < a {
      KeptSample(samples, a, k);
    } else {
      RisingAll(samples, a - 2, a - 1);
      SampleOnRun(samples, a, k);
    }
  }

  lemma PrefixUsable(samples: seq<Point>, a: nat)
    requires Usable(samples) && 2 <= a <= |samples|
    ensures Usable(samples[..a])
  {
    hide Rising;
    PrefixRises(samples, a);
    if a < |samples| {
      RisingAll(samples, a - 1, |samples| - 1);
    }
  }

  lemma KeptSample(samples: seq<Point>, a: nat, k: nat)
    requires Usable(samples) && 2 <= a <= |samples| && k < a && Kept(samples, |samples|) == Some(samples[..a])
    ensures PassesThrough(samples, k)
  {
    hide Rising, Kept, TableOf, Interpolate, Segment;
    PrefixUsable(samples, a);
    CurveThroughKept(samples[..a], k);
  }

  lemma SampleOnRun(samples: seq<Point>, a: nat, k: nat)
    requires Usable(samples) && 2 <= a <= k < |samples| && Kept(samples, |samples|) == Some(samples[..a])
    requires samples[a - 2].key < samples[a - 1].key && On(Through(samples[a - 2], samples[a - 1]), samples[k])
    ensures PassesThrough(samples, k)
  {
    hide Rising, Kept, TableOf, Interpolate, Through, Eval;
    PrefixUsable(samples, a);
    RisingAll(samples, a - 1, k);
    if k < |samples| - 1 {
      RisingAll(samples, k, |samples| - 1);
    }
    LookupIs(samples[..a], a - 1, samples[k].key);
  }

  // The table reproduces every sample it was built from exactly when no straight run of three
  // consecutive samples is followed by a bend.
  lemma PassesThroughAllIff(samples: seq<Point>)
    requires Rising(samples) && |samples| > 1 && samples[|samples| - 1].key < SENTINEL
    ensures (forall k :: 0 <= k < |samples| ==> PassesThrough(samples, k)) <==> NoLateBend(samples)
  {
    hide PassesThrough;
    if NoLateBend(samples) {
      forall k | 0 <= k < |samples| ensures PassesThrough(samples, k) {
        StraightTail(samples, k);
      }
    } else {
      LateBendMisses(samples);
    }
  }

  // The end of a straight run: the first sample off its line, if there is one up to `bend`.
  lemma EndOfRun(samples: seq<Point>, a: nat, bend: nat) returns (k: nat)
    requires Rising(samples) && 2 <= a <= bend < |samples| - 1 && Collinear(samples, a)
    requires Collinear(samples, bend) && !Collinear(samples, bend + 1)
    ensures a < k < |samples| && !Collinear(samples, k) && forall j :: a <= j < k ==> Collinear(samples, j)
  {
    hide Collinear;
    k := a + 1;
    while k <= bend && Collinear(samples, k)
      invariant a < k <= bend + 1 && forall j :: a <= j < k ==> Collinear(samples, j)
    {
      k := k + 1;
    }
  }

  lemma LateBendMisses(samples: seq<Point>)
    requires Rising(samples) && |samples| > 1 && samples[|samples| - 1].key < SENTINEL && !NoLateBend(samples)
    ensures exists k :: 0 <= k < |samples| && !PassesThrough(samples, k)
  {
    hide On, Through, PassesThrough, Kept, Collinear, Rising;
    var a := FirstRun(samples);
    var bend :| 2 <= bend < |samples| - 1 && Collinear(samples, bend) && !Collinear(samples, bend + 1);
    var k := EndOfRun(samples, a, bend);
    KeptWhileBending(samples, a);
    KeptAlongRun(samples, a, k);
    assert Collinear(samples, a);
    CollinearIs(samples, a);
    BendIsOff(samples, a, k);
    SkippedIsMissed(samples, a, k);
  }

  lemma CollinearIs(samples: seq<Point>, k: nat)
    requires 2 <= k < |samples| && Rising(samples) && Collinear(samples, k)
    ensures samples[k - 2].key != samples[k - 1].key && On(Through(samples[k - 2], samples[k - 1]), samples[k])
  {
  }

  lemma BendIsOff(samples: seq<Point>, a: nat, k: nat)
    requires Rising(samples) && 2 <= a < k < |samples| && !Collinear(samples, k)
    requires Through(samples[k - 2], samples[k - 1]) == Through(samples[a - 2], samples[a - 1])
    ensures !On(Through(samples[a - 2], samples[a - 1]), samples[k])
  {
  }

  // For instance, the third of four samples, the first three of which lie on the diagonal, is
  // missed by the curve.
  lemma MissedSample(samples: seq<Point>)
    requires |samples| == 4 && Rising(samples)
    requires samples[0] == Point(0.0, 0.0) && samples[1] == Point(1.0, 1.0)
    requires samples[2] == Point(2.0, 2.0) && samples[3] == Point(3.0, 0.0)
    ensures !NoLateBend(samples) && !PassesThrough(samples, 2)
  {
    hide On, Through, PassesThrough, Kept, Collinear, Rising;
    OnDiagonal(samples, 2);
    OnDiagonal(samples, 3);
    KeptWhileBending(samples, 2);
    KeptAlongRun(samples, 2, 3);
    CollinearIs(samples, 2);
    BendIsOff(samples, 2, 3);
    SkippedIsMissed(samples, 2, 3);
  }

  lemma OnDiagonal(samples: seq<Point>, k: nat)
    requires Rising(samples) && 2 <= k < |samples|
    requires samples[k - 2].key == samples[k - 2].value && samples[k - 1].key == samples[k - 1].value
    ensures Collinear(samples, k) <==> samples[k].key == samples[k].value
  {
    hide Through;
    var l := Line(1.0, 0.0);
    RisingAll(samples, k - 2, k - 1);
    ThroughBoth(samples[k - 2], samples[k - 1]);
    OnlyLine(l, Through(samples[k - 2], samples[k - 1]), samples[k - 2], samples[k - 1]);
  }
}
