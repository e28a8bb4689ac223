/** Stepper phase statistics of an endstop (software/klipper/extras/endstop_phase.py).

    Phases live on a circle.  The statistics lay the history out twice in a row and slide a
    window along it; the theorems say what that computes on the circle. */
module EndstopPhase {
  import opened Support

  // ---------- costs ----------

  // The shorter way around a circle of n phases.
  function CircDist(n: nat, x: int, y: int): nat
    requires 0 <= x < n && 0 <= y < n
  {
    if AbsInt(x - y) <= n - AbsInt(x - y) then AbsInt(x - y) else n - AbsInt(x - y)
  }

  // The distance from p of all triggers recorded at the phases lo to hi.
  function CircSum(history: seq<nat>, p: int, lo: nat, hi: nat): nat
    requires lo <= hi <= |history| && 0 <= p < |history|
    decreases hi
  {
    if lo == hi then 0
    else CircSum(history, p, lo, hi - 1) + history[hi - 1] * CircDist(|history|, hi - 1, p)
  }

  function CircCost(history: seq<nat>, p: int): nat
    requires 0 <= p < |history|
  {
    CircSum(history, p, 0, |history|)
  }

  // sum(wph[j] * abs(j - phase)) over the first m positions of a window of wph
  function WindowCost(wph: seq<nat>, first: nat, phase: int, m: nat): nat
    requires first + m <= |wph|
  {
    if m == 0 then 0
    else WindowCost(wph, first, phase, m - 1) + wph[first + m - 1] * AbsInt(first + m - 1 - phase)
  }

  // Positions a window apart by whole turns are as far apart as on the circle, when the
  // distance is at most half a turn.
  lemma TurnDistance(n: nat, x: int, phase: int, k: int, p: int)
    requires 0 <= k < n && 0 <= p < n && (x == k || x == k + n) && (phase == p || phase == p + n)
    requires 2 * AbsInt(x - phase) <= n
    ensures CircDist(n, k, p) == AbsInt(x - phase)
  {
  }

  lemma {:induction false} CircSumSplit(history: seq<nat>, p: int, mid: nat, hi: nat)
    requires mid <= hi <= |history| && 0 <= p < |history|
    ensures CircSum(history, p, 0, hi) == CircSum(history, p, 0, mid) + CircSum(history, p, mid, hi)
    decreases hi
  {
    if mid < hi {
      CircSumSplit(history, p, mid, hi - 1);
    }
  }

  // The first part of a window, up to the end of the first copy.
  lemma {:induction false} FirstCopy(history: seq<nat>, first: nat, phase: int, p: int, m: nat)
    requires first + m <= |history| && 0 <= p < |history| && (phase == p || phase == p + |history|)
    requires 2 * (phase - first) <= |history| && 2 * (first + m - 1 - phase) <= |history|
    ensures WindowCost(history + history, first, phase, m) == CircSum(history, p, first, first + m)
  {
    if m > 0 {
      FirstCopy(history, first, phase, p, m - 1);
      var j := first + m - 1;
      TurnDistance(|history|, j, phase, j, p);
    }
  }

  // The whole window, continued into the second copy.
  lemma {:induction false} SecondCopy(history: seq<nat>, first: nat, phase: int, p: int, m: nat)
    requires first <= |history| <= first + m <= 2 * |history| && m <= |history|
    requires 0 <= p < |history| && (phase == p || phase == p + |history|)
    requires 2 * (phase - first) <= |history| && 2 * (first + m - 1 - phase) <= |history|
    ensures WindowCost(history + history, first, phase, m) ==
            CircSum(history, p, first, |history|) + CircSum(history, p, 0, first + m - |history|)
    decreases m
  {
    if first + m == |history| {
      FirstCopy(history, first, phase, p, m);
    } else {
      SecondCopy(history, first, phase, p, m - 1);
      var j := first + m - 1;
      TurnDistance(|history|, j, phase, j - |history|, p);
      assert (history + history)[j] == history[j - |history|];
    }
  }

  function PhaseOf(n: nat, first: nat): int
    requires n > 0
  {
    first + n / 2
  }

  // The window's cost is the circular cost of the phase in its middle.
  lemma WindowIsCircular(history: seq<nat>, first: nat)
    requires first < |history|
    ensures var n := |history|;
            var phase := PhaseOf(n, first);
            var p := if phase < n then phase else phase - n;
            phase % n == p && WindowCost(history + history, first, phase, n) == CircCost(history, p)
  {
    var n := |history|;
    var phase := PhaseOf(n, first);
    var p := if phase < n then phase else phase - n;
    Wrap(n, phase, p);
    SecondCopy(history, first, phase, p, n);
    CircSumSplit(history, p, first, n);
  }

  lemma MulBound(e: int, n: int)
    requires n > 0
    ensures (e >= 1 ==> e * n >= n) && (e <= -1 ==> e * n + n <= 0)
  {
  }

  lemma ModUnique(n: int, x: int, q: int, r: int)
    requires n > 0 && x == q * n + r && 0 <= r < n
    ensures x % n == r
  {
    var e := q - x / n;
    assert x == x / n * n + x % n;
    assert e * n == q * n - x / n * n;
    MulBound(e, n);
  }

  lemma Wrap(n: nat, x: int, k: int)
    requires 0 <= k < n && (x == k || x == k + n || x == k - n)
    ensures x % n == k
  {
    ModUnique(n, x, if x == k then 0 else if x == k + n then 1 else -1, k);
  }

  // ---------- generate_stats ----------

  // The cost and phase of each window, and the first of them in sorted order.
  function Results(history: seq<nat>, k: nat): seq<(nat, int)>
    requires k <= |history|
  {
    if k == 0 then []
    else
      var phase := PhaseOf(|history|, k - 1);
      Results(history, k - 1) + [(WindowCost(history + history, k - 1, phase, |history|), phase)]
  }

  predicate Precedes(a: (nat, int), b: (nat, int)) {
    a.0 < b.0 || (a.0 == b.0 && a.1 <= b.1)
  }

  function Smallest(res: seq<(nat, int)>): (r: (nat, int))
    requires res != []
  {
    if |res| == 1 then res[0]
    else
      var rest := Smallest(res[1..]);
      if Precedes(res[0], rest) then res[0] else rest
  }

  lemma {:induction false} SmallestIsLeast(res: seq<(nat, int)>)
    requires res != []
    ensures Smallest(res) in res && forall r :: r in res ==> Precedes(Smallest(res), r)
  {
    if |res| > 1 {
      SmallestIsLeast(res[1..]);
      assert forall r :: r in res <==> r == res[0] || r in res[1..];
    }
  }

  // The recorded positions of wph in a range.
  function Found(wph: seq<nat>, lo: nat, hi: nat): seq<nat>
    requires lo <= hi <= |wph|
    decreases hi
  {
    if lo == hi then [] else Found(wph, lo, hi - 1) + if wph[hi - 1] != 0 then [hi - 1] else []
  }

  datatype Stats = Stats(bestPhase: int, phases: nat, lo: int, hi: int)

  // The chosen window position, best - half_phases.
  function BestFirst(history: seq<nat>): int
    requires history != []
  {
    Smallest(Results(history, |history|)).1 - |history| / 2
  }

  // None stands for the index error when no recorded position is in range.
  method GenerateStats(history: seq<nat>) returns (stats: Option<Stats>)
    requires history != []
    ensures var n := |history|;
            var first := BestFirst(history);
            && 0 <= first < n
            && var found := Found(history + history, first, first + n / 2 * 2);
               stats == if found == [] then None
                        else Some(Stats((first + n / 2) % n, n, found[0] % n, found[|found| - 1] % n))
  {
    hide WindowCost, Results, Smallest, Found;
    var wph := history + history;
    var phases := |history|;
    var halfPhases := phases / 2;
    var res: seq<(nat, int)> := [];
    NoResults(history);
    for i := 0 to phases
      invariant res == Results(history, i)
    {
      var phase := i + halfPhases;
      var cost := 0;
      NoCost(wph, i, phase);
      for j := i to i + phases
        invariant cost == WindowCost(wph, i, phase, j - i)
      {
        NextCost(wph, i, phase, j - i);
        cost := cost + wph[j] * AbsInt(j - phase);
      }
      NextResult(history, i);
      res := res + [(cost, phase)];
    }
    BestIsAWindow(history);
    var best := Smallest(res).1;
    var found := Found(wph, best - halfPhases, best + halfPhases);
    if found == [] {
      return None;
    }
    return Some(Stats(best % phases, phases, found[0] % phases, found[|found| - 1] % phases));
  }

  lemma NoCost(wph: seq<nat>, first: nat, phase: int)
    requires first <= |wph|
    ensures WindowCost(wph, first, phase, 0) == 0
  {
  }

  lemma NextCost(wph: seq<nat>, first: nat, phase: int, m: nat)
    requires first + m < |wph|
    ensures WindowCost(wph, first, phase, m + 1) ==
            WindowCost(wph, first, phase, m) + wph[first + m] * AbsInt(first + m - phase)
  {
  }

  lemma NoResults(history: seq<nat>)
    ensures Results(history, 0) == []
  {
  }

  lemma NextResult(history: seq<nat>, k: nat)
    requires k < |history|
    ensures var n := |history|;
            Results(history, k + 1) ==
            Results(history, k) + [(WindowCost(history + history, k, k + n / 2, n), k + n / 2)]
  {
  }

  lemma {:induction false} ResultsAt(history: seq<nat>, k: nat)
    requires k <= |history|
    ensures |Results(history, k)| == k
    ensures forall i :: 0 <= i < k ==>
              Results(history, k)[i] ==
              (WindowCost(history + history, i, PhaseOf(|history|, i), |history|), PhaseOf(|history|, i))
  {
    hide WindowCost;
    if k > 0 {
      ResultsAt(history, k - 1);
    }
  }

  lemma BestIsAWindow(history: seq<nat>)
    requires history != []
    ensures 0 <= BestFirst(history) < |history|
    ensures |Results(history, |history|)| == |history|
    ensures Smallest(Results(history, |history|)) == Results(history, |history|)[BestFirst(history)]
  {
    var res := Results(history, |history|);
    ResultsAt(history, |history|);
    SmallestIsLeast(res);
    hide WindowCost, Results, Smallest;
    var i :| 0 <= i < |res| && res[i] == Smallest(res);
    assert res[i].1 == i + |history| / 2;
  }

  // The phase reported is a circular median: no phase is closer to all recorded triggers.
  lemma BestMinimisesDistance(history: seq<nat>, p: int)
    requires 0 <= p < |history|
    ensures CircCost(history, (BestFirst(history) + |history| / 2) % |history|) <= CircCost(history, p)
  {
    hide CircCost, WindowCost, Results, Smallest;
    var n, res := |history|, Results(history, |history|);
    var i := if p >= n / 2 then p - n / 2 else p - n / 2 + n;
    BestIsAWindow(history);
    ResultsAt(history, n);
    SmallestIsLeast(res);
    assert res[i] in res;
    WindowIsCircular(history, i);
    WindowIsCircular(history, BestFirst(history));
  }

  lemma {:induction false} FoundAreRecorded(wph: seq<nat>, lo: nat, hi: nat)
    requires lo <= hi <= |wph|
    ensures forall j :: j in Found(wph, lo, hi) <==> lo <= j < hi && wph[j] != 0
    ensures Ascending(Found(wph, lo, hi))
    decreases hi
  {
    if lo < hi {
      FoundAreRecorded(wph, lo, hi - 1);
      var before := Found(wph, lo, hi - 1);
      assert forall a :: 0 <= a < |before| ==> before[a] in before;
    }
  }

  predicate Ascending(found: seq<nat>) {
    forall a, b :: 0 <= a < b < |found| ==> found[a] < found[b]
  }

  // Whether phase k, or k one turn later, lies between the first and last position found.
  predicate InArc(found: seq<nat>, n: nat, k: nat) {
    found != [] && (found[0] <= k <= found[|found| - 1] || found[0] <= k + n <= found[|found| - 1])
  }

  // With an even number of phases, the range is reported exactly when some trigger was
  // recorded, and going up from lo to hi passes every recorded phase.
  lemma RangeCoversTriggers(history: seq<nat>)
    requires history != [] && |history| % 2 == 0
    ensures var n, first := |history|, BestFirst(history);
            && 0 <= first < n
            && var found := Found(history + history, first, first + n / 2 * 2);
               && (found != [] <==> exists k :: 0 <= k < n && history[k] != 0)
               && forall k :: 0 <= k < n && history[k] != 0 ==> InArc(found, n, k)
  {
    hide BestFirst, Found;
    var n, first := |history|, BestFirst(history);
    BestIsAWindow(history);
    assert n / 2 * 2 == n;
    FoundInWindow(history, first);
  }

  lemma FoundInWindow(history: seq<nat>, first: nat)
    requires first < |history|
    ensures var n := |history|;
            var found := Found(history + history, first, first + n);
            && (found != [] <==> exists k :: 0 <= k < n && history[k] != 0)
            && forall k :: 0 <= k < n && history[k] != 0 ==> InArc(found, n, k)
  {
    hide Found;
    var n := |history|;
    var wph := history + history;
    var found := Found(wph, first, first + n);
    FoundAreRecorded(wph, first, first + n);
    forall k | 0 <= k < n && history[k] != 0
      ensures InArc(found, n, k)
    {
      var j := if k >= first then k else k + n;
      assert wph[j] == history[k];
      Between(found, j);
    }
    if found != [] {
      var j := found[0];
      assert j in found;
      var k := if j < n then j else j - n;
      assert history[k] == wph[j];
    }
  }

  lemma Between(found: seq<nat>, j: nat)
    requires j in found && Ascending(found)
    ensures found[0] <= j <= found[|found| - 1]
  {
  }

  // ---------- recording triggers ----------

  function TriggerPhase(position: int, offset: int, n: nat): int
    requires n > 0
  {
    (position + offset) % n
  }

  // The phase is what is left of the driver's position after whole turns.
  lemma TriggerPhaseIs(position: int, offset: int, n: nat, turns: int, phase: nat)
    requires phase < n && position + offset == turns * n + phase
    ensures TriggerPhase(position, offset, n) == phase
  {
    ModUnique(n, position + offset, turns, phase);
  }

  class PhaseCalc {
    const phases: nat
    const phaseHistory: array<nat>
    var lastPhase: Option<int>
    var lastMcuPosition: Option<int>

    ghost predicate Valid() {
      phases > 0 && phaseHistory.Length == phases
    }

    constructor (phases: nat)
      requires phases > 0
      ensures Valid() && this.phases == phases && fresh(phaseHistory)
      ensures phaseHistory[..] == Histogram([], 0, phases) && lastPhase == None && lastMcuPosition == None
    {
      this.phases := phases;
      phaseHistory := new nat[phases](_ => 0);
      lastPhase, lastMcuPosition := None, None;
    }

    // The offset is None when the driver's phase is unknown; that is an error unless the
    // host only writes debug output.
    method CalcPhase(position: int, offset: Option<int>, debugOutput: bool) returns (phase: Option<int>)
      requires Valid()
      modifies this`lastPhase, this`lastMcuPosition, phaseHistory
      ensures phase.None? <==> offset.None? && !debugOutput
      ensures phase.None? ==> phaseHistory[..] == old(phaseHistory[..]) && lastPhase == old(lastPhase)
      ensures phase.Some? ==>
                var k := TriggerPhase(position, if offset.Some? then offset.value else 0, phases);
                && phase.value == k && lastPhase == Some(k) && lastMcuPosition == Some(position)
                && phaseHistory[..] == old(phaseHistory[..])[k := old(phaseHistory[k]) + 1]
    {
      if offset.None? && !debugOutput {
        return None;
      }
      var k := (position + if offset.Some? then offset.value else 0) % phases;
      phaseHistory[k] := phaseHistory[k] + 1;
      lastPhase := Some(k);
      lastMcuPosition := Some(position);
      return Some(k);
    }
  }

  // The history after a series of triggers.
  function Histogram(positions: seq<int>, offset: int, n: nat): (h: seq<nat>)
    requires n > 0
    ensures |h| == n
  {
    if positions == [] then seq(n, _ => 0)
    else
      var h := Histogram(positions[..|positions| - 1], offset, n);
      var k := TriggerPhase(positions[|positions| - 1], offset, n);
      h[k := h[k] + 1]
  }

  function TotalDistance(positions: seq<int>, offset: int, n: nat, p: int): nat
    requires 0 <= p < n
  {
    if positions == [] then 0
    else TotalDistance(positions[..|positions| - 1], offset, n, p) +
         CircDist(n, TriggerPhase(positions[|positions| - 1], offset, n), p)
  }

  lemma {:induction false} OneMoreTrigger(h: seq<nat>, k: nat, p: int, hi: nat)
    requires k < |h| && 0 <= p < |h| && hi <= |h|
    ensures CircSum(h[k := h[k] + 1], p, 0, hi) ==
            CircSum(h, p, 0, hi) + if k < hi then CircDist(|h|, k, p) else 0
  {
    hide CircDist;
    if hi > 0 {
      OneMoreTrigger(h, k, p, hi - 1);
      if k == hi - 1 {
        var d := CircDist(|h|, k, p);
        assert (h[k] + 1) * d == h[k] * d + d;
      }
    }
  }

  lemma {:induction false} ZeroCost(h: seq<nat>, p: int, hi: nat)
    requires (forall k :: 0 <= k < |h| ==> h[k] == 0) && 0 <= p < |h| && hi <= |h|
    ensures CircSum(h, p, 0, hi) == 0
  {
    if hi > 0 {
      ZeroCost(h, p, hi - 1);
    }
  }

  lemma {:induction false} HistogramCost(positions: seq<int>, offset: int, n: nat, p: int)
    requires 0 <= p < n
    ensures CircCost(Histogram(positions, offset, n), p) == TotalDistance(positions, offset, n, p)
    decreases |positions|
  {
    hide CircSum, CircDist;
    if positions == [] {
      ZeroCost(Histogram(positions, offset, n), p, n);
    } else {
      var before := positions[..|positions| - 1];
      HistogramCost(before, offset, n, p);
      OneMoreTrigger(Histogram(before, offset, n), TriggerPhase(positions[|positions| - 1], offset, n), p, n);
    }
  }

  // The phase reported minimises the summed circular distance to the triggers themselves.
  lemma MedianOfTriggers(positions: seq<int>, offset: int, n: nat, p: int)
    requires 0 <= p < n
    ensures var best := (BestFirst(Histogram(positions, offset, n)) + n / 2) % n;
            TotalDistance(positions, offset, n, best) <= TotalDistance(positions, offset, n, p)
  {
    hide CircCost, BestFirst;
    var h := Histogram(positions, offset, n);
    BestMinimisesDistance(h, p);
    HistogramCost(positions, offset, n, p);
    HistogramCost(positions, offset, n, (BestFirst(h) + n / 2) % n);
  }

  // ---------- the homed offset ----------

  // The correction in steps for a trigger phase, or None for a phase too far off.
  function HomedDelta(n: nat, accuracy: nat, endstopPhase: int, phase: int): Option<int>
    requires n > 0
  {
    var delta := (phase - endstopPhase) % n;
    if delta >= n - accuracy then Some(delta - n)
    else if delta > accuracy then None
    else Some(delta)
  }

  // A trigger is refused exactly when it is further than the accuracy from the endstop's
  // phase on the circle, so never when the host writes debug output, where the accuracy is the
  // number of phases.  With a configured accuracy, less than half a turn, the correction is
  // the shortest way between the two; in debug output it always goes backwards.
  lemma HomedDeltaIff(n: nat, accuracy: nat, endstopPhase: int, phase: int)
    requires 0 <= phase < n && 0 <= endstopPhase < n
    ensures HomedDelta(n, accuracy, endstopPhase, phase).None? <==> CircDist(n, phase, endstopPhase) > accuracy
    ensures accuracy < n / 2 && HomedDelta(n, accuracy, endstopPhase, phase).Some? ==>
              var delta := HomedDelta(n, accuracy, endstopPhase, phase).value;
              AbsInt(delta) == CircDist(n, phase, endstopPhase)
    ensures accuracy >= n ==>
              var delta := HomedDelta(n, accuracy, endstopPhase, phase);
              delta.Some? && delta.value < 0 <= delta.value + n
  {
    var d := phase - endstopPhase;
    Wrap(n, d, if d >= 0 then d else d + n);
  }

  // Correcting the trigger position by the offset always puts it on the endstop's phase, so
  // repeated homing ends on the same phase.
  lemma CorrectedPhaseIsFixed(n: nat, accuracy: nat, endstopPhase: int, position: int, offset: int)
    requires n > 0 && 0 <= endstopPhase < n
    requires HomedDelta(n, accuracy, endstopPhase, TriggerPhase(position, offset, n)).Some?
    ensures var delta := HomedDelta(n, accuracy, endstopPhase, TriggerPhase(position, offset, n)).value;
            TriggerPhase(position - delta, offset, n) == endstopPhase
  {
    var x := position + offset;
    var phase := x % n;
    var e := (phase - endstopPhase) % n;
    var q1, q2 := x / n, (phase - endstopPhase) / n;
    assert x == q1 * n + phase;
    assert phase - endstopPhase == q2 * n + e;
    var delta := HomedDelta(n, accuracy, endstopPhase, phase).value;
    var turns := if delta == e then 0 else 1;
    Collect(n, x - delta, q1, q2, turns, endstopPhase);
    ModUnique(n, x - delta, q1 + q2 + turns, endstopPhase);
  }

  lemma Collect(n: nat, y: int, q1: int, q2: int, turns: int, r: int)
    requires 0 <= turns <= 1 && y == q1 * n + q2 * n + (if turns == 1 then n else 0) + r
    ensures y == (q1 + q2 + turns) * n + r
  {
    assert (q1 + q2 + turns) * n == q1 * n + q2 * n + turns * n;
  }

  class EndstopTracker {
    const phases: nat
    const accuracy: nat
    const phaseCalc: PhaseCalc
    var endstopPhase: Option<int>

    ghost predicate Valid() {
      phaseCalc.Valid() && phaseCalc.phases == phases
    }

    constructor (phases: nat, accuracy: nat, endstopPhase: Option<int>)
      requires phases > 0
      ensures Valid() && this.phases == phases && this.accuracy == accuracy && this.endstopPhase == endstopPhase
    {
      this.phases, this.accuracy, this.endstopPhase := phases, accuracy, endstopPhase;
      phaseCalc := new PhaseCalc(phases);
    }

    // The offset in steps; the first trigger of an unconfigured endstop sets its phase.
    method GetHomedOffset(position: int, offset: Option<int>, debugOutput: bool) returns (delta: Option<int>)
      requires Valid()
      modifies this`endstopPhase, phaseCalc, phaseCalc.phaseHistory
      ensures offset.None? && !debugOutput ==> delta == None && endstopPhase == old(endstopPhase)
      ensures offset.Some? || debugOutput ==>
                var phase := TriggerPhase(position, if offset.Some? then offset.value else 0, phases);
                if old(endstopPhase).None? then endstopPhase == Some(phase) && delta == Some(0)
                else endstopPhase == old(endstopPhase) &&
                     delta == HomedDelta(phases, accuracy, endstopPhase.value, phase)
    {
      var phase := phaseCalc.CalcPhase(position, offset, debugOutput);
      if phase.None? {
        return None;
      }
      if endstopPhase.None? {
        endstopPhase := phase;
        return Some(0);
      }
      var d := (phase.value - endstopPhase.value) % phases;
      if d >= phases - accuracy {
        d := d - phases;
      } else if d > accuracy {
        return None;
      }
      return Some(d);
    }
  }
}
