/** Framebuffer updates of an LED chain (software/klipper/extras/neopixel.py).

    The host keeps a copy of the buffer it believes the micro-controller holds, sends only the
    bytes that changed, batched into short runs, and then overwrites its copy. */
module Neopixel {

  type Byte = b: int | 0 <= b < 256

  // A run of the framebuffer, [pos, count] in the source.
  datatype Diff = Diff(pos: int, count: int)

  // One update command.
  datatype Update = Update(pos: nat, data: seq<Byte>)

  // ---------- what send_data computes ----------

  // The changed positions from i on, in order, each as a run of one byte.
  function Changes(newData: seq<Byte>, oldData: seq<Byte>, i: nat): seq<Diff>
    requires |newData| == |oldData| && i <= |newData|
    decreases |newData| - i
  {
    if i == |newData| then []
    else (if newData[i] != oldData[i] then [Diff(i, 1)] else []) + Changes(newData, oldData, i + 1)
  }

  // Whether a single changed byte joins the run after it.
  predicate Joins(d: Diff, next: Diff) {
    d.pos + 5 >= next.pos && next.count < 16
  }

  // Merging from the right, as the source's backward loop does.
  function Merge(diffs: seq<Diff>): seq<Diff> {
    if diffs == [] then [] else AddRun(diffs[0], Merge(diffs[1..]))
  }

  function AddRun(d: Diff, runs: seq<Diff>): seq<Diff> {
    if runs != [] && Joins(d, runs[0])
    then [Diff(d.pos, runs[0].count + (runs[0].pos - d.pos))] + runs[1..]
    else [d] + runs
  }

  predicate InRange(runs: seq<Diff>, n: nat) {
    forall i :: 0 <= i < |runs| ==> 0 <= runs[i].pos <= runs[i].pos + runs[i].count <= n
  }

  function Commands(runs: seq<Diff>, data: seq<Byte>): seq<Update>
    requires InRange(runs, |data|)
  {
    if runs == [] then []
    else [Update(runs[0].pos, data[runs[0].pos..runs[0].pos + runs[0].count])] + Commands(runs[1..], data)
  }

  // What the micro-controller does with a list of updates.
  function Apply(buffer: seq<Byte>, updates: seq<Update>): (result: seq<Byte>)
    ensures |result| == |buffer|
    decreases |updates|
  {
    if updates == [] then buffer
    else
      var u := updates[0];
      if u.pos + |u.data| > |buffer| then Apply(buffer, updates[1..])
      else Apply(buffer[..u.pos] + u.data + buffer[u.pos + |u.data|..], updates[1..])
  }

  // ---------- the merged runs ----------

  ghost predicate SameBetween(newData: seq<Byte>, oldData: seq<Byte>, lo: int, hi: int)
    requires |newData| == |oldData|
  {
    forall k :: lo <= k < hi && 0 <= k < |newData| ==> newData[k] == oldData[k]
  }

  ghost predicate ChangedAt(newData: seq<Byte>, oldData: seq<Byte>, k: int)
    requires |newData| == |oldData|
  {
    0 <= k < |newData| && newData[k] != oldData[k]
  }

  // From lo on, the runs are sorted, disjoint, in range, of 1 to 20 bytes, contain every
  // changed byte, begin and end with one, and no two neighbours were to be joined.
  ghost predicate GoodRuns(runs: seq<Diff>, newData: seq<Byte>, oldData: seq<Byte>, lo: int)
    requires |newData| == |oldData|
    decreases |runs|
  {
    if runs == [] then SameBetween(newData, oldData, lo, |newData|)
    else
      var r := runs[0];
      var last := r.pos + r.count - 1;
      && 0 <= lo <= r.pos && 1 <= r.count <= 20 && last < |newData|
      && SameBetween(newData, oldData, lo, r.pos)
      && ChangedAt(newData, oldData, r.pos) && ChangedAt(newData, oldData, last)
      && (|runs| > 1 ==> last + 5 < runs[1].pos || runs[1].count >= 16)
      && GoodRuns(runs[1..], newData, oldData, last + 1)
  }

  lemma {:induction false} MergeIsGood(newData: seq<Byte>, oldData: seq<Byte>, i: nat)
    requires |newData| == |oldData| && i <= |newData|
    ensures GoodRuns(Merge(Changes(newData, oldData, i)), newData, oldData, i)
    decreases |newData| - i
  {
    if i < |newData| {
      MergeIsGood(newData, oldData, i + 1);
      var rest := Changes(newData, oldData, i + 1);
      if newData[i] == oldData[i] {
        assert Changes(newData, oldData, i) == rest;
      } else {
        assert Changes(newData, oldData, i)[1..] == rest;
        AddRunIsGood(newData, oldData, i, Merge(rest));
      }
    }
  }

  lemma AddRunIsGood(newData: seq<Byte>, oldData: seq<Byte>, i: nat, runs: seq<Diff>)
    requires |newData| == |oldData| && i < |newData| && newData[i] != oldData[i]
    requires GoodRuns(runs, newData, oldData, i + 1)
    ensures GoodRuns(AddRun(Diff(i, 1), runs), newData, oldData, i)
  {
    var d := Diff(i, 1);
    if runs != [] && Joins(d, runs[0]) {
      assert AddRun(d, runs)[1..] == runs[1..];
    } else {
      assert AddRun(d, runs)[1..] == runs;
    }
  }

  lemma {:induction false} GoodRunsInRange(runs: seq<Diff>, newData: seq<Byte>, oldData: seq<Byte>, lo: nat)
    requires |newData| == |oldData| && GoodRuns(runs, newData, oldData, lo)
    ensures InRange(runs, |newData|)
    decreases |runs|
  {
    if runs != [] {
      GoodRunsInRange(runs[1..], newData, oldData, runs[0].pos + runs[0].count);
      assert forall i :: 1 <= i < |runs| ==> runs[i] == runs[1..][i - 1];
    }
  }

  // ---------- applying the updates ----------

  lemma Splice(buffer: seq<Byte>, newData: seq<Byte>, lo: nat, from: nat, end: nat)
    requires lo <= from <= end <= |newData| == |buffer|
    requires forall k :: lo <= k < from ==> buffer[k] == newData[k]
    ensures (buffer[..from] + newData[from..end] + buffer[end..])[..end] + newData[end..] == buffer[..lo] + newData[lo..]
  {
    assert buffer[..from] == buffer[..lo] + newData[lo..from];
  }

  // Over a buffer that is right wherever nothing changed, the updates leave the new data.
  lemma {:induction false} ApplyRuns(runs: seq<Diff>, newData: seq<Byte>, oldData: seq<Byte>, lo: nat, buffer: seq<Byte>)
    requires |newData| == |oldData| == |buffer| && lo <= |newData|
    requires GoodRuns(runs, newData, oldData, lo) && InRange(runs, |newData|)
    requires forall k :: lo <= k < |newData| && newData[k] == oldData[k] ==> buffer[k] == newData[k]
    ensures Apply(buffer, Commands(runs, newData)) == buffer[..lo] + newData[lo..]
    decreases |runs|
  {
    hide Apply, Commands;
    if runs == [] {
      ApplyNone(buffer, newData);
      assert buffer[lo..] == newData[lo..];
      assert buffer == buffer[..lo] + buffer[lo..];
    } else {
      var r := runs[0];
      var end := r.pos + r.count;
      var next := buffer[..r.pos] + newData[r.pos..end] + buffer[end..];
      ApplyOne(runs, newData, buffer);
      ApplyRuns(runs[1..], newData, oldData, end, next);
      Splice(buffer, newData, lo, r.pos, end);
    }
  }

  lemma ApplyNone(buffer: seq<Byte>, newData: seq<Byte>)
    ensures Apply(buffer, Commands([], newData)) == buffer
  {
  }

  lemma CommandsFirst(runs: seq<Diff>, newData: seq<Byte>)
    requires runs != [] && InRange(runs, |newData|)
    ensures InRange(runs[1..], |newData|)
    ensures 0 <= runs[0].pos <= runs[0].pos + runs[0].count <= |newData|
    ensures var r := runs[0];
            Commands(runs, newData) == [Update(r.pos, newData[r.pos..r.pos + r.count])] + Commands(runs[1..], newData)
  {
  }

  lemma ApplyOne(runs: seq<Diff>, newData: seq<Byte>, buffer: seq<Byte>)
    requires runs != [] && |buffer| == |newData| && InRange(runs, |newData|)
    ensures var r := runs[0];
            var end := r.pos + r.count;
            Apply(buffer, Commands(runs, newData)) ==
            Apply(buffer[..r.pos] + newData[r.pos..end] + buffer[end..], Commands(runs[1..], newData))
  {
    hide Apply, Commands, InRange;
    CommandsFirst(runs, newData);
    var r, end := runs[0], runs[0].pos + runs[0].count;
    ApplyFirst(buffer, r.pos, end, newData[r.pos..end], Commands(runs[1..], newData));
  }

  lemma ApplyFirst(buffer: seq<Byte>, pos: nat, end: nat, data: seq<Byte>, rest: seq<Update>)
    requires pos + |data| == end <= |buffer|
    ensures Apply(buffer, [Update(pos, data)] + rest) == Apply(buffer[..pos] + data + buffer[end..], rest)
  {
    assert ([Update(pos, data)] + rest)[1..] == rest;
  }

  // The commands of one send_data.
  function Sends(newData: seq<Byte>, oldData: seq<Byte>): seq<Update>
    requires |newData| == |oldData|
  {
    var runs := Merge(Changes(newData, oldData, 0));
    MergeIsGood(newData, oldData, 0);
    GoodRunsInRange(runs, newData, oldData, 0);
    Commands(runs, newData)
  }

  // Updating a copy of the old buffer gives the new one; and what a byte held before does not
  // matter where old and new differ.
  lemma SendsReplaceBuffer(newData: seq<Byte>, oldData: seq<Byte>, buffer: seq<Byte>)
    requires |newData| == |oldData| == |buffer|
    requires forall k :: 0 <= k < |newData| && newData[k] == oldData[k] ==> buffer[k] == oldData[k]
    ensures Apply(buffer, Sends(newData, oldData)) == newData
  {
    var runs := Merge(Changes(newData, oldData, 0));
    MergeIsGood(newData, oldData, 0);
    GoodRunsInRange(runs, newData, oldData, 0);
    ApplyRuns(runs, newData, oldData, 0, buffer);
  }

  // ---------- whole runs ----------

  // The bytes the copy starts with: each differs from the initial colour.
  function Flip(b: Byte): Byte {
    if b % 2 == 0 then b + 1 else b - 1
  }

  function Flipped(data: seq<Byte>): seq<Byte> {
    seq(|data|, i requires 0 <= i < |data| => Flip(data[i]))
  }

  // The micro-controller's buffer after sending the frames one after another.
  function SendFrames(mcu: seq<Byte>, oldData: seq<Byte>, frames: seq<seq<Byte>>): seq<Byte>
    requires |mcu| == |oldData| && forall f :: f in frames ==> |f| == |mcu|
    decreases |frames|
  {
    if frames == [] then mcu
    else
      SendFrames(Apply(mcu, Sends(frames[0], oldData)), frames[0], frames[1..])
  }

  // Whatever the micro-controller's buffer held, after the first frame it follows the host's
  // copy over every run.
  lemma {:induction false} BufferFollowsHost(mcu: seq<Byte>, oldData: seq<Byte>, frames: seq<seq<Byte>>)
    requires |mcu| == |oldData| && (forall f :: f in frames ==> |f| == |mcu|) && frames != []
    requires oldData == Flipped(frames[0]) || oldData == mcu
    ensures SendFrames(mcu, oldData, frames) == frames[|frames| - 1]
    decreases |frames|
  {
    SendsReplaceBuffer(frames[0], oldData, mcu);
    if |frames| > 1 {
      BufferFollowsHost(frames[0], frames[0], frames[1..]);
    }
  }

  // ---------- the class ----------

  class PrinterNeoPixel {
    const colorMap: seq<(nat, nat)>      // LED and colour component of each byte
    const colorData: array<Byte>
    const oldColorData: array<Byte>
    var transmitted: seq<Update>

    ghost predicate Valid() {
      colorData != oldColorData && colorData.Length == oldColorData.Length == |colorMap|
    }

    constructor (colorMap: seq<(nat, nat)>, initial: seq<seq<real>>)
      requires ValidLeds(colorMap, initial)
      ensures Valid() && fresh(colorData) && fresh(oldColorData) && transmitted == []
      ensures this.colorMap == colorMap && colorData[..] == Rendered(colorMap, initial)
      ensures oldColorData[..] == Flipped(colorData[..])
    {
      this.colorMap := colorMap;
      colorData := new Byte[|colorMap|];
      oldColorData := new Byte[|colorMap|];
      transmitted := [];
      new;
      UpdateColorData(initial);
      for i := 0 to colorData.Length
        invariant colorData[..] == Rendered(colorMap, initial) && transmitted == []
        invariant forall j :: 0 <= j < i ==> oldColorData[j] == Flip(colorData[j])
      {
        oldColorData[i] := Flip(colorData[i]);
      }
    }

    method UpdateColorData(ledState: seq<seq<real>>)
      requires Valid() && ValidLeds(colorMap, ledState)
      modifies colorData
      ensures colorData[..] == Rendered(colorMap, ledState)
    {
      for i := 0 to |colorMap|
        invariant forall j :: 0 <= j < i ==> colorData[j] == Rendered(colorMap, ledState)[j]
      {
        var (lidx, cidx) := colorMap[i];
        assert colorMap[i] in colorMap;
        colorData[i] := ToByte(ledState[lidx][cidx]);
      }
    }

    method SendData()
      requires Valid()
      modifies this`transmitted, oldColorData
      ensures oldColorData[..] == colorData[..]
      ensures transmitted == old(transmitted) + Sends(colorData[..], old(oldColorData[..]))
    {
      ghost var was := oldColorData[..];
      if colorData[..] == oldColorData[..] {
        NoChanges(was, 0);
        assert Sends(colorData[..], was) == [];
        return;
      }
      var changes := Changes(colorData[..], oldColorData[..], 0);
      var diffs := BatchDiffs(changes);
      MergeIsGood(colorData[..], was, 0);
      GoodRunsInRange(diffs, colorData[..], was, 0);
      transmitted := transmitted + Commands(diffs, colorData[..]);
      CopyColors();
    }

    method CopyColors()
      requires Valid()
      modifies oldColorData
      ensures oldColorData[..] == colorData[..]
    {
      forall i | 0 <= i < colorData.Length {
        oldColorData[i] := colorData[i];
      }
    }

    // Batch together changes that are close to each other, from the last to the first.
    static method BatchDiffs(changes: seq<Diff>) returns (diffs: seq<Diff>)
      ensures diffs == Merge(changes)
    {
      hide MergedFrom;
      diffs := changes;
      MergeShort(changes);
      var i: int := |diffs| - 2;
      while i >= 0
        invariant if changes == [] then i == -2 && diffs == [] else i >= -1 && MergedFrom(changes, i + 1, diffs)
      {
        MergeStep(changes, i, diffs);
        var d, next := diffs[i], diffs[i + 1];
        if d.pos + 5 >= next.pos && next.count < 16 {
          diffs := diffs[i := Diff(d.pos, next.count + (next.pos - d.pos))];
          diffs := diffs[..i + 1] + diffs[i + 2..];
        }
        i := i - 1;
      }
      MergeDone(changes, diffs);
    }
  }

  // The changes from the i-th on have been merged, those before are as they were.
  ghost predicate MergedFrom(changes: seq<Diff>, i: nat, diffs: seq<Diff>) {
    i < |changes| && i < |diffs| && diffs == changes[..i] + Merge(changes[i..])
  }

  // A single change, or none, is left as it is.
  lemma MergeShort(changes: seq<Diff>)
    ensures changes == [] ==> Merge(changes) == []
    ensures changes != [] ==> MergedFrom(changes, |changes| - 1, changes)
  {
    if changes != [] {
      var last := changes[|changes| - 1..];
      assert last == [changes[|changes| - 1]] && last[1..] == [];
      assert Merge(last) == last;
    }
  }

  lemma MergeDone(changes: seq<Diff>, diffs: seq<Diff>)
    ensures changes == [] ==> Merge(changes) == []
    ensures changes != [] && MergedFrom(changes, 0, diffs) ==> diffs == Merge(changes)
  {
    assert changes[0..] == changes;
  }

  // One pass of the backward loop does one step of the merge.
  lemma MergeStep(changes: seq<Diff>, i: nat, diffs: seq<Diff>)
    requires MergedFrom(changes, i + 1, diffs)
    ensures i + 1 < |diffs|
    ensures var d, next := diffs[i], diffs[i + 1];
            var joined := diffs[i := Diff(d.pos, next.count + (next.pos - d.pos))];
            MergedFrom(changes, i, if Joins(d, next) then joined[..i + 1] + joined[i + 2..] else diffs)
  {
    hide Merge;
    var merged := Merge(changes[i + 1..]);
    MergeNext(changes, i);
    assert diffs[i] == changes[i] && diffs[i + 1..] == merged;
    assert diffs[i + 2..] == merged[1..];
    assert changes[..i + 1] == changes[..i] + [changes[i]];
  }

  lemma MergeNext(changes: seq<Diff>, i: nat)
    requires i < |changes|
    ensures Merge(changes[i..]) == AddRun(changes[i], Merge(changes[i + 1..]))
  {
    assert changes[i..][1..] == changes[i + 1..];
  }

  lemma {:induction false} NoChanges(data: seq<Byte>, i: nat)
    requires i <= |data|
    ensures Changes(data, data, i) == []
    decreases |data| - i
  {
    if i < |data| {
      NoChanges(data, i + 1);
    }
  }

  predicate ValidLeds(colorMap: seq<(nat, nat)>, leds: seq<seq<real>>) {
    forall m :: m in colorMap ==> m.0 < |leds| && m.1 < |leds[m.0]| && 0.0 <= leds[m.0][m.1] <= 1.0
  }

  // int(level * 255. + .5)
  function ToByte(level: real): Byte
    requires 0.0 <= level <= 1.0
  {
    (level * 255.0 + 0.5).Floor
  }

  // The byte nearest to 255 times the level, the greater one if two are; nothing but off is 0
  // and full is 255 at the ends.
  lemma ByteIsNearest(level: real, b: Byte)
    requires 0.0 <= level <= 1.0
    ensures b == ToByte(level) <==> b as real - 0.5 <= 255.0 * level < b as real + 0.5
    ensures ToByte(0.0) == 0 && ToByte(1.0) == 255
  {
  }

  function Rendered(colorMap: seq<(nat, nat)>, leds: seq<seq<real>>): seq<Byte>
    requires ValidLeds(colorMap, leds)
  {
    seq(|colorMap|, i requires 0 <= i < |colorMap| =>
      assert colorMap[i] in colorMap; ToByte(leds[colorMap[i].0][colorMap[i].1]))
  }
}
