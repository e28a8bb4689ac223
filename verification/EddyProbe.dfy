/** Sample gathering and calibration of an eddy current probe
    (software/klipper/extras/probe_eddy_current.py).

    Measurements arrive in messages and probe requests ask for the average frequency over a
    time window.  Messages that no request can need any more are thrown away on the way. */
module EddyProbe {
  import Averages
  import opened Support

  datatype Sample = Sample(time: real, freq: real)

  // The sensor sends a message only when it has samples to report.
  type Msg = m: seq<Sample> | m != [] witness [Sample(0.0, 0.0)]

  // A request: its window, and the tool position or the time at which to look it up.
  datatype Request<P> = Request(start: real, end: real, position: Position<P>)
  datatype Position<P> = Given(value: P) | AtTime(time: real)

  // A finished request; frequency 0 stands for a window without readings.
  datatype Answer<P> = Answer(freq: real, position: P)

  function Locate<P>(lookup: real -> P, p: Position<P>): P {
    match p
    case Given(value) => value
    case AtTime(time) => lookup(time)
  }

  // ---------- averages over a window ----------

  datatype Tally = Tally(sum: real, count: nat)

  function Plus(a: Tally, b: Tally): Tally {
    Tally(a.sum + b.sum, a.count + b.count)
  }

  const NOTHING := Tally(0.0, 0)

  function One(s: Sample, start: real, end: real): Tally {
    if start <= s.time <= end then Tally(s.freq, 1) else NOTHING
  }

  // The readings of the first k samples that fall in the window.
  function TallyMsg(msg: Msg, start: real, end: real, k: nat): Tally
    requires k <= |msg|
  {
    if k == 0 then NOTHING else Plus(TallyMsg(msg, start, end, k - 1), One(msg[k - 1], start, end))
  }

  function TallyAll(msgs: seq<Msg>, start: real, end: real, k: nat): Tally
    requires k <= |msgs|
  {
    if k == 0 then NOTHING
    else Plus(TallyAll(msgs, start, end, k - 1), TallyMsg(msgs[k - 1], start, end, |msgs[k - 1]|))
  }

  function MeanOf(t: Tally): real {
    if t.count == 0 then 0.0 else t.sum / t.count as real
  }

  // The average of all samples of a history that lie in the window.
  function Mean(msgs: seq<Msg>, start: real, end: real): real {
    MeanOf(TallyAll(msgs, start, end, |msgs|))
  }

  predicate Increasing(msg: Msg) {
    forall i, j :: 0 <= i < j < |msg| ==> msg[i].time < msg[j].time
  }

  function FirstTime(msg: Msg): real
  {
    msg[0].time
  }

  function LastTime(msg: Msg): real
  {
    msg[|msg| - 1].time
  }

  // Messages hold samples, and times increase strictly within and across them.
  predicate Ordered(msgs: seq<Msg>) {
    && (forall i :: 0 <= i < |msgs| ==> Increasing(msgs[i]))
    && (forall i, j :: 0 <= i < j < |msgs| ==> LastTime(msgs[i]) < FirstTime(msgs[j]))
  }

  lemma TimesBetween(msg: Msg, k: nat)
    requires Increasing(msg) && k < |msg|
    ensures FirstTime(msg) <= msg[k].time <= LastTime(msg)
  {
  }

  lemma OneOutside(msg: Msg, start: real, end: real, k: nat)
    requires Increasing(msg) && k < |msg|
    requires LastTime(msg) < start || FirstTime(msg) > end
    ensures One(msg[k], start, end) == NOTHING
  {
    TimesBetween(msg, k);
  }

  lemma {:induction false} MsgOutside(msg: Msg, start: real, end: real, k: nat)
    requires Increasing(msg) && k <= |msg|
    requires LastTime(msg) < start || FirstTime(msg) > end
    ensures TallyMsg(msg, start, end, k) == NOTHING
  {
    hide Increasing, FirstTime, LastTime, One;
    if k > 0 {
      MsgOutside(msg, start, end, k - 1);
      OneOutside(msg, start, end, k - 1);
    }
  }

  lemma {:induction false} TallyAppend(a: seq<Msg>, b: seq<Msg>, start: real, end: real, k: nat)
    requires k <= |b|
    ensures TallyAll(a + b, start, end, |a| + k) == Plus(TallyAll(a, start, end, |a|), TallyAll(b, start, end, k))
  {
    hide TallyMsg, TallyAll;
    if k == 0 {
      TallyPrefix(a, b, start, end, |a|);
      TallyNone(b, start, end);
    } else {
      TallyAppend(a, b, start, end, k - 1);
      assert (a + b)[|a| + k - 1] == b[k - 1];
      TallyOneMore(a + b, |a| + k - 1, start, end);
      TallyOneMore(b, k - 1, start, end);
    }
  }

  lemma TallyOneMore(msgs: seq<Msg>, k: nat, start: real, end: real)
    requires k < |msgs|
    ensures TallyAll(msgs, start, end, k + 1) ==
            Plus(TallyAll(msgs, start, end, k), TallyMsg(msgs[k], start, end, |msgs[k]|))
  {
  }

  lemma {:induction false} TallyPrefix(a: seq<Msg>, b: seq<Msg>, start: real, end: real, k: nat)
    requires k <= |a|
    ensures TallyAll(a + b, start, end, k) == TallyAll(a, start, end, k)
  {
    hide TallyMsg;
    if k > 0 {
      TallyPrefix(a, b, start, end, k - 1);
      assert (a + b)[k - 1] == a[k - 1];
    }
  }

  lemma {:induction false} AllOutside(msgs: seq<Msg>, start: real, end: real, k: nat)
    requires Ordered(msgs) && k <= |msgs|
    requires forall i :: 0 <= i < |msgs| ==> LastTime(msgs[i]) < start || FirstTime(msgs[i]) > end
    ensures TallyAll(msgs, start, end, k) == NOTHING
  {
    hide TallyMsg;
    if k > 0 {
      AllOutside(msgs, start, end, k - 1);
      MsgOutside(msgs[k - 1], start, end, |msgs[k - 1]|);
    }
  }

  // Throwing away messages that end before the window does not change its average.
  lemma DroppingEarlier(dropped: seq<Msg>, kept: seq<Msg>, start: real, end: real)
    requires Ordered(dropped) && forall i :: 0 <= i < |dropped| ==> LastTime(dropped[i]) < start
    ensures Mean(dropped + kept, start, end) == Mean(kept, start, end)
  {
    hide TallyMsg, MeanOf, TallyAll;
    TallyAppend(dropped, kept, start, end, |kept|);
    AllOutside(dropped, start, end, |dropped|);
  }

  // Nor does a message that arrives after the window has closed.
  lemma AddingLater(msgs: seq<Msg>, msg: Msg, start: real, end: real)
    requires Increasing(msg) && FirstTime(msg) > end
    ensures Mean(msgs + [msg], start, end) == Mean(msgs, start, end)
  {
    hide TallyMsg, MeanOf, Increasing;
    TallyAppend(msgs, [msg], start, end, 1);
    MsgOutside(msg, start, end, |msg|);
    assert TallyAll([msg], start, end, 0) == NOTHING;
  }

  // ---------- what an average is ----------

  // The readings of a history, one after the other.
  function Readings(msgs: seq<Msg>): seq<Sample> {
    if msgs == [] then [] else Readings(msgs[..|msgs| - 1]) + msgs[|msgs| - 1]
  }

  // The places of the readings in a window.
  ghost function Inside(readings: seq<Sample>, start: real, end: real): set<nat> {
    set i: nat | i < |readings| && start <= readings[i].time <= end
  }

  ghost function TotalFreq(readings: seq<Sample>, places: set<nat>, k: nat): real
    requires k <= |readings|
  {
    if k == 0 then 0.0
    else TotalFreq(readings, places, k - 1) + if k - 1 in places then readings[k - 1].freq else 0.0
  }

  // v times the number of readings in the window is the sum of their frequencies, and v is 0
  // when there are none.
  ghost predicate IsAverage(v: real, readings: seq<Sample>, start: real, end: real) {
    var places := Inside(readings, start, end);
    if places == {} then v == 0.0 else v * |places| as real == TotalFreq(readings, places, |readings|)
  }

  lemma MeanIsAverage(msgs: seq<Msg>, start: real, end: real)
    ensures IsAverage(Mean(msgs, start, end), Readings(msgs), start, end)
  {
    hide TallyAll, TotalFreq, Inside, Readings;
    TallyCounts(msgs, start, end, |msgs|);
    assert msgs[..|msgs|] == msgs;
    var t := TallyAll(msgs, start, end, |msgs|);
    DivideBack(t.sum, t.count as real);
  }

  lemma DivideBack(x: real, n: real)
    ensures n != 0.0 ==> x / n * n == x
  {
  }

  ghost function Counted(readings: seq<Sample>, start: real, end: real): Tally {
    var places := Inside(readings, start, end);
    Tally(TotalFreq(readings, places, |readings|), |places|)
  }

  // The tally counts the readings in the window and adds up their frequencies.
  lemma {:induction false} TallyCounts(msgs: seq<Msg>, start: real, end: real, k: nat)
    requires k <= |msgs|
    ensures TallyAll(msgs, start, end, k) == Counted(Readings(msgs[..k]), start, end)
  {
    hide TallyMsg, Counted;
    if k == 0 {
      NoReadings(start, end);
    } else {
      TallyCounts(msgs, start, end, k - 1);
      var before, msg := Readings(msgs[..k - 1]), msgs[k - 1];
      assert msgs[..k][..k - 1] == msgs[..k - 1];
      assert before + msg[..|msg|] == before + msg;
      MsgCounts(before, msg, start, end, |msg|);
    }
  }

  lemma NoReadings(start: real, end: real)
    ensures Counted([], start, end) == NOTHING
  {
    assert Inside([], start, end) == {};
  }

  lemma {:induction false} MsgCounts(before: seq<Sample>, msg: Msg, start: real, end: real, k: nat)
    requires k <= |msg|
    ensures Plus(Counted(before, start, end), TallyMsg(msg, start, end, k)) == Counted(before + msg[..k], start, end)
  {
    hide Counted, One;
    if k == 0 {
      assert before + msg[..0] == before;
    } else {
      MsgCounts(before, msg, start, end, k - 1);
      var r := before + msg[..k - 1];
      assert before + msg[..k] == r + [msg[k - 1]];
      OneReading(r, msg[k - 1], start, end);
    }
  }

  lemma OneReading(r: seq<Sample>, s: Sample, start: real, end: real)
    ensures Counted(r + [s], start, end) == Plus(Counted(r, start, end), One(s, start, end))
  {
    hide Inside, TotalFreq;
    var n := |r|;
    OneMoreInside(r, s, start, end);
    var a, b := Inside(r, start, end), Inside(r + [s], start, end);
    SameTotal(r, r + [s], a, b, n);
    TotalNext(r + [s], b, n);
  }

  lemma OneMoreInside(r: seq<Sample>, s: Sample, start: real, end: real)
    ensures var a, b := Inside(r, start, end), Inside(r + [s], start, end);
            && b == a + (if start <= s.time <= end then {|r|} else {}) && |r| !in a
            && |b| == |a| + (if start <= s.time <= end then 1 else 0)
  {
    var a, b := Inside(r, start, end), Inside(r + [s], start, end);
    assert b == a + if start <= s.time <= end then {|r|} else {};
  }

  lemma TotalNext(r: seq<Sample>, places: set<nat>, k: nat)
    requires k < |r|
    ensures TotalFreq(r, places, k + 1) == TotalFreq(r, places, k) + if k in places then r[k].freq else 0.0
  {
  }

  lemma {:induction false} SameTotal(r: seq<Sample>, q: seq<Sample>, a: set<nat>, b: set<nat>, k: nat)
    requires k <= |r| <= |q| && forall i: nat :: i < k ==> r[i] == q[i] && (i in a <==> i in b)
    ensures TotalFreq(r, a, k) == TotalFreq(q, b, k)
  {
    if k > 0 {
      SameTotal(r, q, a, b, k - 1);
    }
  }

  // An average lies between the least and the greatest frequency in its window; so readings
  // that agree are given back.
  lemma AverageBetween(v: real, readings: seq<Sample>, start: real, end: real, lo: real, hi: real)
    requires IsAverage(v, readings, start, end) && Inside(readings, start, end) != {}
    requires forall i :: 0 <= i < |readings| && start <= readings[i].time <= end ==> lo <= readings[i].freq <= hi
    ensures lo <= v <= hi
  {
    hide TotalFreq, Below;
    var places := Inside(readings, start, end);
    var n := |readings|;
    TotalBetween(readings, places, n, lo, hi);
    AllBelow(readings, start, end);
    Squeezed(v, |places| as real, TotalFreq(readings, places, n), lo, hi);
  }

  lemma AllBelow(readings: seq<Sample>, start: real, end: real)
    ensures Below(Inside(readings, start, end), |readings|) == Inside(readings, start, end)
  {
  }

  lemma Squeezed(v: real, count: real, total: real, lo: real, hi: real)
    requires count > 0.0 && v * count == total && lo * count <= total <= hi * count
    ensures lo <= v <= hi
  {
    var above, below := v - lo, hi - v;
    assert above * count == v * count - lo * count && below * count == hi * count - v * count;
    Sign(above, count);
    Sign(below, count);
  }

  ghost function Below(places: set<nat>, k: nat): set<nat> {
    set i | i in places && i < k
  }

  lemma {:induction false} TotalBetween(readings: seq<Sample>, places: set<nat>, k: nat, lo: real, hi: real)
    requires k <= |readings| && forall i: nat :: i in places && i < |readings| ==> lo <= readings[i].freq <= hi
    ensures lo * |Below(places, k)| as real <= TotalFreq(readings, places, k) <= hi * |Below(places, k)| as real
  {
    hide Below;
    BelowNext(places, k);
    if k > 0 {
      TotalBetween(readings, places, k - 1, lo, hi);
      Averages.OneMore(lo, |Below(places, k - 1)|);
      Averages.OneMore(hi, |Below(places, k - 1)|);
    }
  }

  lemma BelowNext(places: set<nat>, k: nat)
    ensures |Below(places, k)| == if k == 0 then 0 else |Below(places, k - 1)| + if k - 1 in places then 1 else 0
  {
    if k == 0 {
      assert Below(places, k) == {};
    } else {
      assert Below(places, k) == Below(places, k - 1) + if k - 1 in places then {k - 1} else {};
    }
  }

  // 0 is the average exactly of windows without readings and of those whose frequencies add up
  // to 0.
  lemma AverageZeroIff(v: real, readings: seq<Sample>, start: real, end: real)
    requires IsAverage(v, readings, start, end)
    ensures v == 0.0 <==> TotalFreq(readings, Inside(readings, start, end), |readings|) == 0.0
  {
    var places := Inside(readings, start, end);
    if places == {} {
      TotalOfNone(readings, |readings|);
    } else {
      var n := |places| as real;
      Sign(v, n);
    }
  }

  lemma {:induction false} TotalOfNone(readings: seq<Sample>, k: nat)
    requires k <= |readings|
    ensures TotalFreq(readings, {}, k) == 0.0
  {
    if k > 0 {
      TotalOfNone(readings, k - 1);
    }
  }

  // ---------- the gatherer on values ----------

  datatype Gather<P> = Gather(samples: seq<Msg>, requests: seq<Request<P>>, answers: seq<Answer<P>>, needStop: bool)

  // How many messages from the i-th on a request leaves behind.
  function LeadingFrom(msgs: seq<Msg>, i: nat, start: real, end: real): (n: nat)
    requires i <= |msgs|
    ensures i + n <= |msgs|
    decreases |msgs| - i
  {
    if i == |msgs| || FirstTime(msgs[i]) > end || LastTime(msgs[i]) >= start then 0
    else 1 + LeadingFrom(msgs, i + 1, start, end)
  }

  function Leading(msgs: seq<Msg>, start: real, end: real): (n: nat)
    ensures n <= |msgs|
  {
    LeadingFrom(msgs, 0, start, end)
  }

  // Answer requests for as long as the readings reach past the end of the next window.
  function Check<P>(g: Gather<P>, lookup: real -> P): Gather<P>
    decreases |g.requests|
  {
    if g.samples == [] || g.requests == [] || LastTime(g.samples[|g.samples| - 1]) < g.requests[0].end then g
    else Check(AnswerFirst(g, lookup), lookup)
  }

  function AnswerFirst<P>(g: Gather<P>, lookup: real -> P): Gather<P>
    requires g.requests != []
  {
    var r := g.requests[0];
    g.(samples := g.samples[Leading(g.samples, r.start, r.end)..],
       requests := g.requests[1..],
       answers := g.answers + [Answer(Mean(g.samples, r.start, r.end), Locate(lookup, r.position))])
  }

  function AddMsg<P>(g: Gather<P>, msg: Msg, lookup: real -> P): Gather<P>
  {
    if g.needStop then g.(samples := []) else Check(g.(samples := g.samples + [msg]), lookup)
  }

  function AddRequest<P>(g: Gather<P>, r: Request<P>, lookup: real -> P): Gather<P>
  {
    Check(g.(requests := g.requests + [r]), lookup)
  }

  // ---------- the class ----------

  class EddyGatherSamples<P> {
    const lookup: real -> P
    var samples: seq<Msg>
    var probeTimes: seq<Request<P>>
    var probeResults: seq<Answer<P>>
    var needStop: bool

    constructor (lookup: real -> P)
      ensures this.lookup == lookup && View() == Gather([], [], [], false)
    {
      this.lookup := lookup;
      samples, probeTimes, probeResults, needStop := [], [], [], false;
    }

    ghost function View(): Gather<P>
      reads this
    {
      Gather(samples, probeTimes, probeResults, needStop)
    }

    method AddMeasurement(msg: Msg) returns (more: bool)
      requires !needStop ==> Ordered(samples + [msg])
      modifies this
      ensures more == !old(needStop)
      ensures View() == AddMsg(old(View()), msg, lookup)
    {
      if needStop {
        samples := [];
        return false;
      }
      samples := samples + [msg];
      CheckSamples();
      return true;
    }

    method Finish()
      modifies this
      ensures View() == old(View()).(needStop := true)
    {
      needStop := true;
    }

    method PullFreq(start: real, end: real) returns (freq: real)
      requires Ordered(samples)
      modifies this`samples
      ensures freq == Mean(old(samples), start, end)
      ensures IsAverage(freq, Readings(old(samples)), start, end)
      ensures samples == old(samples)[Leading(old(samples), start, end)..]
    {
      hide TallyMsg, TallyAll, Increasing, Ordered, LeadingFrom, IsAverage;
      ghost var msgs := samples;
      MeanIsAverage(msgs, start, end);
      ghost var leading := Leading(msgs, start, end);
      var msgNum, discard := 0, 0;
      var total := NOTHING;
      TallyNone(msgs, start, end);
      while msgNum < |samples|
        invariant msgNum <= |samples| && samples == msgs
        invariant total == TallyAll(msgs, start, end, msgNum)
        invariant discard <= msgNum
        invariant discard == msgNum ==> leading == discard + LeadingFrom(msgs, msgNum, start, end)
        invariant discard < msgNum ==> leading == discard && LastTime(msgs[msgNum - 1]) >= start
      {
        var data := samples[msgNum];
        LeadingStep(msgs, msgNum, start, end);
        TallyStep(msgs, msgNum, start, end);
        if msgNum > 0 {
          FirstTimesRise(msgs, msgNum - 1, msgNum);
        }
        msgNum := msgNum + 1;
        if data[0].time > end {
          RestOutside(msgs, start, end, msgNum - 1);
          samples := samples[discard..];
          return MeanOf(total);
        }
        if data[|data| - 1].time < start {
          discard := msgNum;
          continue;
        }
        var part := SumWindow(data, start, end);
        total := Plus(total, part);
      }
      LeadingStep(msgs, msgNum, start, end);
      samples := samples[discard..];
      freq := MeanOf(total);
    }

    // The innermost loop of PullFreq.
    method SumWindow(data: Msg, start: real, end: real) returns (t: Tally)
      ensures t == TallyMsg(data, start, end, |data|)
    {
      t := NOTHING;
      for i := 0 to |data|
        invariant t == TallyMsg(data, start, end, i)
      {
        if data[i].time >= start && data[i].time <= end {
          t := Tally(t.sum + data[i].freq, t.count + 1);
        }
      }
    }

    method CheckSamples()
      requires Ordered(samples)
      modifies this
      ensures View() == Check(old(View()), lookup)
    {
      hide Mean, LeadingFrom, Ordered;
      while |samples| > 0 && |probeTimes| > 0
        invariant Ordered(samples)
        invariant Check(View(), lookup) == Check(old(View()), lookup)
        decreases |probeTimes|
      {
        var r := probeTimes[0];
        var newest := samples[|samples| - 1];
        if newest[|newest| - 1].time < r.end {
          break;
        }
        OrderedSuffix(samples, Leading(samples, r.start, r.end));
        var freq := PullFreq(r.start, r.end);
        probeResults := probeResults + [Answer(freq, Locate(lookup, r.position))];
        probeTimes := probeTimes[1..];
      }
    }

    method NoteProbe(r: Request<P>)
      requires Ordered(samples)
      modifies this
      ensures View() == AddRequest(old(View()), r, lookup)
    {
      probeTimes := probeTimes + [r];
      CheckSamples();
    }
  }

  lemma LeadingStep(msgs: seq<Msg>, i: nat, start: real, end: real)
    requires i <= |msgs|
    ensures LeadingFrom(msgs, i, start, end) ==
            if i == |msgs| || FirstTime(msgs[i]) > end || LastTime(msgs[i]) >= start then 0
            else 1 + LeadingFrom(msgs, i + 1, start, end)
  {
  }

  lemma TallyNone(msgs: seq<Msg>, start: real, end: real)
    ensures TallyAll(msgs, start, end, 0) == NOTHING
  {
  }

  lemma TallyStep(msgs: seq<Msg>, k: nat, start: real, end: real)
    requires Ordered(msgs) && k < |msgs|
    ensures TallyAll(msgs, start, end, k + 1) ==
            if LastTime(msgs[k]) < start then TallyAll(msgs, start, end, k)
            else Plus(TallyAll(msgs, start, end, k), TallyMsg(msgs[k], start, end, |msgs[k]|))
  {
    if LastTime(msgs[k]) < start {
      MsgOutside(msgs[k], start, end, |msgs[k]|);
    }
  }

  // From a message that begins after the window on, nothing is in it.
  lemma RestOutside(msgs: seq<Msg>, start: real, end: real, k: nat)
    requires Ordered(msgs) && k < |msgs| && FirstTime(msgs[k]) > end
    ensures TallyAll(msgs, start, end, |msgs|) == TallyAll(msgs, start, end, k)
  {
    hide TallyAll, Increasing, FirstTime, LastTime;
    var a, b := msgs[..k], msgs[k..];
    assert msgs == a + b;
    TallyAppend(a, b, start, end, |b|);
    TallyPrefix(a, b, start, end, k);
    OrderedSuffix(msgs, k);
    forall i | 0 <= i < |b| ensures FirstTime(b[i]) > end {
      FirstTimesRise(msgs, k, k + i);
    }
    AllOutside(b, start, end, |b|);
  }

  lemma FirstTimesRise(msgs: seq<Msg>, i: nat, j: nat)
    requires Ordered(msgs) && i <= j < |msgs|
    ensures FirstTime(msgs[i]) <= FirstTime(msgs[j]) && LastTime(msgs[i]) <= LastTime(msgs[j])
  {
    TimesBetween(msgs[i], 0);
    TimesBetween(msgs[j], 0);
  }

  // ---------- whole runs ----------

  datatype Step<P> = Message(msg: Msg) | Note(request: Request<P>) | Stop

  // The gatherer with everything it was ever given.
  datatype Run<P> = Run(g: Gather<P>, history: seq<Msg>, noted: seq<Request<P>>)

  ghost predicate Enabled<P>(r: Run<P>, step: Step<P>) {
    match step
    case Message(msg) => !r.g.needStop ==> Ordered(r.history + [msg])
    case Note(request) => r.noted != [] ==> r.noted[|r.noted| - 1].start <= request.start
    case Stop => true
  }

  ghost function Next<P>(r: Run<P>, step: Step<P>, lookup: real -> P): Run<P>
    requires Enabled(r, step)
  {
    match step
    case Message(msg) =>
      Run(AddMsg(r.g, msg, lookup), if r.g.needStop then r.history else r.history + [msg], r.noted)
    case Note(request) => Run(AddRequest(r.g, request, lookup), r.history, r.noted + [request])
    case Stop => r.(g := r.g.(needStop := true))
  }

  // The i-th answer is right for the whole history and will stay right.
  ghost predicate Right<P>(r: Run<P>, i: nat, lookup: real -> P)
    requires i < |r.g.answers| && i < |r.noted| && Ordered(r.history)
  {
    var w := r.noted[i];
    && r.g.answers[i] == Answer(Mean(r.history, w.start, w.end), Locate(lookup, w.position))
    && r.history != [] && w.end <= LastTime(r.history[|r.history| - 1])
  }

  ghost predicate Answered<P>(r: Run<P>, lookup: real -> P) {
    && Ordered(r.history)
    && |r.g.answers| + |r.g.requests| == |r.noted|
    && r.g.requests == r.noted[|r.g.answers|..]
    && (forall i :: 0 <= i < |r.g.answers| ==> Right(r, i, lookup))
  }

  ghost predicate StartsRise<P>(noted: seq<Request<P>>) {
    forall i, j :: 0 <= i <= j < |noted| ==> noted[i].start <= noted[j].start
  }

  // What is left of the history: messages were dropped only if they ended before the start of
  // a window already answered.
  ghost predicate SuffixKept<P>(r: Run<P>)
    requires Ordered(r.history) && |r.g.answers| <= |r.noted|
  {
    || (r.g.needStop && r.g.samples == [])
    || (&& |r.g.samples| <= |r.history|
        && var d := |r.history| - |r.g.samples|;
           && r.g.samples == r.history[d..]
           && (d > 0 ==> |r.g.answers| > 0)
           && (forall i :: 0 <= i < d ==> LastTime(r.history[i]) < r.noted[|r.g.answers| - 1].start))
  }

  ghost predicate Inv<P>(r: Run<P>, lookup: real -> P) {
    Answered(r, lookup) && StartsRise(r.noted) && SuffixKept(r)
  }

  lemma {:induction false} LeadingEarlier(msgs: seq<Msg>, i: nat, start: real, end: real)
    requires i <= |msgs|
    ensures forall j :: i <= j < i + LeadingFrom(msgs, i, start, end) ==> LastTime(msgs[j]) < start
    decreases |msgs| - i
  {
    if i < |msgs| {
      LeadingEarlier(msgs, i + 1, start, end);
    }
  }

  lemma OrderedSuffix(msgs: seq<Msg>, d: nat)
    requires Ordered(msgs) && d <= |msgs|
    ensures Ordered(msgs[..d]) && Ordered(msgs[d..])
  {
  }

  lemma LeadingSplit(msgs: seq<Msg>, d: nat, start: real, end: real)
    requires d <= |msgs| && forall i :: 0 <= i < d ==> LastTime(msgs[i]) < start
    ensures var n := d + Leading(msgs[d..], start, end);
            && n <= |msgs| && msgs[d..][n - d..] == msgs[n..]
            && forall i :: 0 <= i < n ==> LastTime(msgs[i]) < start
  {
    hide LeadingFrom, LastTime;
    var kept := msgs[d..];
    LeadingEarlier(kept, 0, start, end);
    var n := Leading(kept, start, end);
    forall i | 0 <= i < d + n ensures LastTime(msgs[i]) < start {
      if i >= d {
        assert msgs[i] == kept[i - d];
      }
    }
  }

  lemma MeanOfSuffix(msgs: seq<Msg>, d: nat, start: real, end: real)
    requires Ordered(msgs) && d <= |msgs| && forall i :: 0 <= i < d ==> LastTime(msgs[i]) < start
    ensures Mean(msgs[d..], start, end) == Mean(msgs, start, end)
  {
    hide Mean;
    assert msgs == msgs[..d] + msgs[d..];
    OrderedSuffix(msgs, d);
    DroppingEarlier(msgs[..d], msgs[d..], start, end);
  }

  // Answering the first request from what is left gives the average over the whole history.
  lemma AnswerFirstKeepsInv<P>(r: Run<P>, lookup: real -> P)
    requires Inv(r, lookup) && r.g.samples != [] && r.g.requests != []
    requires LastTime(r.g.samples[|r.g.samples| - 1]) >= r.g.requests[0].end
    ensures Inv(r.(g := AnswerFirst(r.g, lookup)), lookup)
  {
    hide Mean, LeadingFrom, LastTime, Ordered, Right, SuffixKept;
    AnswerFirstIsRight(r, lookup);
    AnswerFirstKeepsSuffix(r, lookup);
  }

  lemma AnswerFirstIsRight<P>(r: Run<P>, lookup: real -> P)
    requires Inv(r, lookup) && r.g.samples != [] && r.g.requests != []
    requires LastTime(r.g.samples[|r.g.samples| - 1]) >= r.g.requests[0].end
    ensures Answered(r.(g := AnswerFirst(r.g, lookup)), lookup)
  {
    hide Mean, LeadingFrom, LastTime, Ordered, StartsRise;
    var w, k := r.g.requests[0], |r.g.answers|;
    var d := |r.history| - |r.g.samples|;
    assert w == r.noted[k];
    if k > 0 {
      RisingStarts(r.noted, k);
    }
    MeanOfSuffix(r.history, d, w.start, w.end);
    var r' := r.(g := AnswerFirst(r.g, lookup));
    forall i | 0 <= i < |r'.g.answers| ensures Right(r', i, lookup) {
      if i < k {
        assert Right(r, i, lookup);
      }
    }
    assert r'.g.requests == r.noted[k + 1..];
  }

  lemma RisingStarts<P>(noted: seq<Request<P>>, k: nat)
    requires StartsRise(noted) && 0 < k < |noted|
    ensures noted[k - 1].start <= noted[k].start
  {
  }

  lemma AnswerFirstKeepsSuffix<P>(r: Run<P>, lookup: real -> P)
    requires Inv(r, lookup) && r.g.samples != [] && r.g.requests != []
    ensures Ordered(r.history) && |AnswerFirst(r.g, lookup).answers| <= |r.noted|
    ensures SuffixKept(r.(g := AnswerFirst(r.g, lookup)))
  {
    hide Mean, LeadingFrom, LastTime, Ordered, StartsRise, Right;
    var w, k := r.g.requests[0], |r.g.answers|;
    var d := |r.history| - |r.g.samples|;
    assert w == r.noted[k];
    if k > 0 {
      RisingStarts(r.noted, k);
    }
    LeadingSplit(r.history, d, w.start, w.end);
  }

  lemma {:induction false} CheckKeepsInv<P>(r: Run<P>, lookup: real -> P)
    requires Inv(r, lookup)
    ensures Inv(r.(g := Check(r.g, lookup)), lookup)
    decreases |r.g.requests|
  {
    hide Inv;
    if !(r.g.samples == [] || r.g.requests == [] || LastTime(r.g.samples[|r.g.samples| - 1]) < r.g.requests[0].end) {
      AnswerFirstKeepsInv(r, lookup);
      CheckKeepsInv(r.(g := AnswerFirst(r.g, lookup)), lookup);
    }
  }

  lemma MessageKeepsInv<P>(r: Run<P>, msg: Msg, lookup: real -> P)
    requires Inv(r, lookup) && Enabled(r, Message(msg))
    ensures Inv(Next(r, Message(msg), lookup), lookup)
  {
    hide Check, Ordered, Right, LastTime;
    if !r.g.needStop {
      var t := Run(r.g.(samples := r.g.samples + [msg]), r.history + [msg], r.noted);
      forall i | 0 <= i < |t.g.answers| ensures Right(t, i, lookup) {
        StaysRight(r, t, msg, i, lookup);
      }
      SuffixGrows(r, t, msg);
      CheckKeepsInv(t, lookup);
    } else {
      var t := Next(r, Message(msg), lookup);
      forall i | 0 <= i < |t.g.answers| ensures Right(t, i, lookup) {
        SameRight(r, t, i, lookup);
      }
    }
  }

  // An answer stays right when a later message arrives.
  lemma StaysRight<P>(r: Run<P>, t: Run<P>, msg: Msg, i: nat, lookup: real -> P)
    requires i < |r.g.answers| && i < |r.noted| && Ordered(r.history) && Right(r, i, lookup)
    requires Ordered(t.history) && t.history == r.history + [msg] && t.noted == r.noted && t.g.answers == r.g.answers
    ensures Right(t, i, lookup)
  {
    hide Mean;
    var w, n := r.noted[i], |r.history|;
    assert t.history[n - 1] == r.history[n - 1] && t.history[n] == msg;
    AddingLater(r.history, msg, w.start, w.end);
  }

  lemma SameRight<P>(r: Run<P>, t: Run<P>, i: nat, lookup: real -> P)
    requires i < |r.g.answers| && i < |r.noted| && Ordered(r.history) && Right(r, i, lookup)
    requires t.history == r.history && t.noted == r.noted && t.g.answers == r.g.answers
    ensures Right(t, i, lookup)
  {
    hide Mean;
  }

  lemma SuffixGrows<P>(r: Run<P>, t: Run<P>, msg: Msg)
    requires Ordered(r.history) && |r.g.answers| <= |r.noted| && SuffixKept(r) && !r.g.needStop
    requires Ordered(t.history) && t == Run(r.g.(samples := r.g.samples + [msg]), r.history + [msg], r.noted)
    ensures SuffixKept(t)
  {
    hide Ordered, LastTime;
    var d := |r.history| - |r.g.samples|;
    assert r.history[d..] + [msg] == t.history[d..];
  }

  lemma NoteKeepsInv<P>(r: Run<P>, request: Request<P>, lookup: real -> P)
    requires Inv(r, lookup) && Enabled(r, Note(request))
    ensures Inv(Next(r, Note(request), lookup), lookup)
  {
    hide Check, Ordered, Mean, LastTime;
    var t := Run(r.g.(requests := r.g.requests + [request]), r.history, r.noted + [request]);
    forall i | 0 <= i < |t.g.answers| ensures Right(t, i, lookup) {
      assert Right(r, i, lookup);
    }
    StartsGoOn(r.noted, request);
    CheckKeepsInv(t, lookup);
  }

  lemma StartsGoOn<P>(noted: seq<Request<P>>, request: Request<P>)
    requires StartsRise(noted) && (noted != [] ==> noted[|noted| - 1].start <= request.start)
    ensures StartsRise(noted + [request])
  {
    var all := noted + [request];
    forall i, j | 0 <= i <= j < |all| ensures all[i].start <= all[j].start {
      if i < j == |noted| {
        assert noted[i].start <= noted[|noted| - 1].start;
      }
    }
  }

  lemma StepKeepsInv<P>(r: Run<P>, step: Step<P>, lookup: real -> P)
    requires Inv(r, lookup) && Enabled(r, step)
    ensures Inv(Next(r, step, lookup), lookup)
  {
    match step
    case Message(msg) => MessageKeepsInv(r, msg, lookup);
    case Note(request) => NoteKeepsInv(r, request, lookup);
    case Stop =>
      var t := Next(r, step, lookup);
      forall i | 0 <= i < |t.g.answers| ensures Right(t, i, lookup) {
        assert Right(r, i, lookup);
      }
  }

  ghost predicate Legal<P>(r: Run<P>, steps: seq<Step<P>>, lookup: real -> P)
    decreases |steps|
  {
    steps == [] || (Enabled(r, steps[0]) && Legal(Next(r, steps[0], lookup), steps[1..], lookup))
  }

  ghost function After<P>(r: Run<P>, steps: seq<Step<P>>, lookup: real -> P): Run<P>
    requires Legal(r, steps, lookup)
    decreases |steps|
  {
    if steps == [] then r else After(Next(r, steps[0], lookup), steps[1..], lookup)
  }

  lemma {:induction false} RunKeepsInv<P>(r: Run<P>, steps: seq<Step<P>>, lookup: real -> P)
    requires Inv(r, lookup) && Legal(r, steps, lookup)
    ensures Inv(After(r, steps, lookup), lookup)
    decreases |steps|
  {
    hide Inv;
    if steps != [] {
      StepKeepsInv(r, steps[0], lookup);
      RunKeepsInv(Next(r, steps[0], lookup), steps[1..], lookup);
    }
  }

  // The requests of a run, and the messages it received before it was stopped.
  ghost function Requests<P>(steps: seq<Step<P>>): seq<Request<P>> {
    if steps == [] then [] else (if steps[0].Note? then [steps[0].request] else []) + Requests(steps[1..])
  }

  ghost function Received<P>(steps: seq<Step<P>>, stopped: bool): seq<Msg> {
    if steps == [] || stopped then []
    else (if steps[0].Message? then [steps[0].msg] else []) + Received(steps[1..], steps[0].Stop?)
  }

  lemma {:induction false} RunRecords<P>(r: Run<P>, steps: seq<Step<P>>, lookup: real -> P)
    requires Legal(r, steps, lookup)
    ensures var t := After(r, steps, lookup);
            t.noted == r.noted + Requests(steps) && t.history == r.history + Received(steps, r.g.needStop)
    decreases |steps|
  {
    hide Next, Enabled;
    if steps != [] {
      var t, rest := Next(r, steps[0], lookup), steps[1..];
      StepRecords(r, steps[0], lookup);
      RunRecords(t, rest, lookup);
      Joined(r.noted, if steps[0].Note? then [steps[0].request] else [], Requests(rest));
      var received := if steps[0].Message? && !r.g.needStop then [steps[0].msg] else [];
      Joined(r.history, received, Received(rest, t.g.needStop));
      NoneReceived(rest);
    }
  }

  lemma Joined<T>(a: seq<T>, b: seq<T>, c: seq<T>)
    ensures a + b + c == a + (b + c)
  {
  }

  lemma NoneReceived<P>(steps: seq<Step<P>>)
    ensures Received(steps, true) == []
  {
  }

  lemma StepRecords<P>(r: Run<P>, step: Step<P>, lookup: real -> P)
    requires Enabled(r, step)
    ensures var t := Next(r, step, lookup);
            && t.noted == r.noted + (if step.Note? then [step.request] else [])
            && t.history == r.history + (if step.Message? && !r.g.needStop then [step.msg] else [])
            && t.g.needStop == (r.g.needStop || step.Stop?)
  {
    hide Check, Ordered;
    match step
    case Message(msg) => CheckKeepsStop(r.g.(samples := r.g.samples + [msg]), lookup);
    case Note(request) => CheckKeepsStop(r.g.(requests := r.g.requests + [request]), lookup);
    case Stop =>
  }

  lemma {:induction false} CheckKeepsStop<P>(g: Gather<P>, lookup: real -> P)
    ensures Check(g, lookup).needStop == g.needStop
    decreases |g.requests|
  {
    if !Settled(g) {
      CheckKeepsStop(AnswerFirst(g, lookup), lookup);
    }
  }

  predicate Empty<P>(r: Run<P>) {
    r == Run(Gather([], [], [], false), [], [])
  }

  lemma EmptyKeepsInv<P>(r: Run<P>, lookup: real -> P)
    requires Empty(r)
    ensures Inv(r, lookup)
  {
  }

  // Over every run, the k-th answer is the average of all samples ever received in the k-th
  // requested window, at the position asked for, although messages were thrown away.
  lemma StreamingEqualsFullHistory<P>(start: Run<P>, steps: seq<Step<P>>, lookup: real -> P)
    requires Empty(start) && Legal(start, steps, lookup)
    ensures var g, noted := After(start, steps, lookup).g, Requests(steps);
            && |g.answers| <= |noted| && g.requests == noted[|g.answers|..]
            && forall i :: 0 <= i < |g.answers| ==>
                 && IsAverage(g.answers[i].freq, Readings(Received(steps, false)), noted[i].start, noted[i].end)
                 && g.answers[i].position ==
                    match noted[i].position { case Given(p) => p case AtTime(time) => lookup(time) }
  {
    hide Mean, IsAverage, After, Ordered, LastTime, StartsRise, SuffixKept;
    EmptyKeepsInv(start, lookup);
    RunKeepsInv(start, steps, lookup);
    RunRecords(start, steps, lookup);
    var r := After(start, steps, lookup);
    assert r.noted == Requests(steps) && r.history == Received(steps, false);
    forall i | 0 <= i < |r.g.answers|
      ensures && IsAverage(r.g.answers[i].freq, Readings(r.history), r.noted[i].start, r.noted[i].end)
              && r.g.answers[i].position == Locate(lookup, r.noted[i].position)
    {
      assert Right(r, i, lookup);
      MeanIsAverage(r.history, r.noted[i].start, r.noted[i].end);
    }
  }

  // ---------- promptness ----------

  // No request is left that the readings at hand could answer.
  predicate Settled<P>(g: Gather<P>) {
    g.samples == [] || g.requests == [] || LastTime(g.samples[|g.samples| - 1]) < g.requests[0].end
  }

  lemma {:induction false} CheckSettles<P>(g: Gather<P>, lookup: real -> P)
    ensures Settled(Check(g, lookup))
    decreases |g.requests|
  {
    if !Settled(g) {
      CheckSettles(AnswerFirst(g, lookup), lookup);
    }
  }

  lemma {:induction false} RunSettles<P>(r: Run<P>, steps: seq<Step<P>>, lookup: real -> P)
    requires Settled(r.g) && Legal(r, steps, lookup)
    ensures Settled(After(r, steps, lookup).g)
    decreases |steps|
  {
    hide Settled, Check;
    if steps != [] {
      match steps[0] {
        case Message(msg) =>
          CheckSettles(r.g.(samples := r.g.samples + [msg]), lookup);
          ClearedSettles(r.g);
        case Note(request) => CheckSettles(r.g.(requests := r.g.requests + [request]), lookup);
        case Stop => StoppedSettles(r.g);
      }
      RunSettles(Next(r, steps[0], lookup), steps[1..], lookup);
    }
  }

  lemma ClearedSettles<P>(g: Gather<P>)
    ensures Settled(g.(samples := []))
  {
  }

  lemma StoppedSettles<P>(g: Gather<P>)
    requires Settled(g)
    ensures Settled(g.(needStop := true))
  {
  }

  // While gathering goes on, a proper window is answered as soon as a reading at or after its
  // end has arrived: the oldest request still open ends after every reading so far.
  lemma OpenRequestsEndLater<P>(start: Run<P>, steps: seq<Step<P>>, lookup: real -> P)
    requires Empty(start) && Legal(start, steps, lookup)
    requires !After(start, steps, lookup).g.needStop
    requires forall w :: w in After(start, steps, lookup).noted ==> w.start <= w.end
    ensures var r := After(start, steps, lookup);
            r.g.requests != [] && r.history != [] ==> LastTime(r.history[|r.history| - 1]) < r.g.requests[0].end
  {
    RunKeepsInv(start, steps, lookup);
    RunSettles(start, steps, lookup);
    var r := After(start, steps, lookup);
    if r.g.requests != [] && r.history != [] {
      var k := |r.g.answers|;
      if k > 0 {
        assert r.noted[k - 1] in r.noted;
        assert Right(r, k - 1, lookup);
      }
    }
  }

  // ---------- calibration ----------

  const OUT_OF_RANGE: real := 99.9

  datatype Calibration = Calibration(freqs: seq<real>, zpos: seq<real>)

  // Frequencies rise as the probe comes down; this is what calibrating checks.
  predicate Monotone(c: Calibration) {
    && |c.freqs| == |c.zpos| > 2
    && Rising(c.freqs)
    && Rising(Reversed(c.zpos))
  }

  // What loading a calibration leaves, whatever it holds: pairs in order of frequency.
  predicate Sorted(c: Calibration) {
    && |c.freqs| == |c.zpos|
    && forall i, j :: 0 <= i < j < |c.freqs| ==> c.freqs[i] <= c.freqs[j]
  }

  predicate Rising(xs: seq<real>) {
    forall i, j :: 0 <= i < j < |xs| ==> xs[i] < xs[j]
  }

  function Reversed(xs: seq<real>): (r: seq<real>)
    ensures |r| == |xs| && forall i :: 0 <= i < |xs| ==> r[i] == xs[|xs| - 1 - i]
  {
    if xs == [] then [] else [xs[|xs| - 1]] + Reversed(xs[..|xs| - 1])
  }

  // The line through two points, as gain and offset.
  function Line(x0: real, y0: real, x1: real, y1: real, x: real): real
    requires x0 != x1
  {
    var gain := (y1 - y0) / (x1 - x0);
    var offset := y0 - x0 * gain;
    x * gain + offset
  }

  // No division by zero: the frequency lies between two different ones.
  function FreqToHeight(c: Calibration, freq: real): real
    requires Sorted(c)
  {
    BisectBounds(c.freqs, freq);
    var pos := Bisect(c.freqs, freq);
    if pos >= |c.zpos| then -OUT_OF_RANGE
    else if pos == 0 then OUT_OF_RANGE
    else Line(c.freqs[pos - 1], c.zpos[pos - 1], c.freqs[pos], c.zpos[pos], freq)
  }

  function HeightToFreq(c: Calibration, height: real): Option<real>
    requires Monotone(c)
  {
    var revZ, revF := Reversed(c.zpos), Reversed(c.freqs);
    var pos := Bisect(revZ, height);
    if pos == 0 || pos >= |revZ| then None
    else Some(Line(revZ[pos - 1], revF[pos - 1], revZ[pos], revF[pos], height))
  }

  datatype Reading = Reading(time: real, freq: real, z: real)

  method ApplyCalibration(c: Calibration, samples: array<Reading>)
    requires Sorted(c)
    modifies samples
    ensures forall i :: 0 <= i < samples.Length ==>
              samples[i] == old(samples[i]).(z := FreqToHeight(c, old(samples[i].freq)))
  {
    for i := 0 to samples.Length
      invariant forall j :: 0 <= j < i ==>
                  samples[j] == old(samples[j]).(z := FreqToHeight(c, old(samples[j].freq)))
      invariant forall j :: i <= j < samples.Length ==> samples[j] == old(samples[j])
    {
      samples[i] := Reading(samples[i].time, samples[i].freq, FreqToHeight(c, samples[i].freq));
    }
  }

  lemma BisectIs(xs: seq<real>, x: real, p: nat)
    requires Rising(xs) && p <= |xs| && (p > 0 ==> xs[p - 1] <= x) && (p < |xs| ==> x < xs[p])
    ensures Bisect(xs, x) == p
  {
    BisectBounds(xs, x);
  }

  // The value at the fraction t of the way from a to b.
  ghost function Mix(a: real, b: real, t: real): real {
    a + t * (b - a)
  }

  lemma LineAt(x0: real, y0: real, x1: real, y1: real, t: real)
    requires x0 != x1
    ensures Line(x0, y0, x1, y1, Mix(x0, x1, t)) == Mix(y0, y1, t)
  {
    var dx, dy := x1 - x0, y1 - y0;
    var gain := dy / dx;
    assert gain * dx == dy;
    Scale(t, dx, gain, dy);
    var x := Mix(x0, x1, t);
    assert x * gain == x0 * gain + t * dx * gain;
  }

  lemma Scale(t: real, dx: real, gain: real, dy: real)
    requires gain * dx == dy
    ensures t * dx * gain == t * dy
  {
    assert t * dx * gain == t * (dx * gain);
  }

  lemma Parts(t: real, u: real, d: real)
    requires t + u == 1.0
    ensures t * d + u * d == d
  {
    assert (t + u) * d == d;
  }

  lemma MixMirror(a: real, b: real, t: real)
    ensures Mix(a, b, 1.0 - t) == Mix(b, a, t)
  {
    assert (1.0 - t) * (b - a) == (b - a) - t * (b - a);
    assert t * (a - b) == -(t * (b - a));
  }

  lemma MixBounds(a: real, b: real, t: real)
    requires a < b && 0.0 <= t < 1.0
    ensures a <= Mix(a, b, t) < b && (Mix(a, b, t) == a <==> t == 0.0)
    ensures a < Mix(b, a, t) <= b && (Mix(b, a, t) == b <==> t == 0.0)
  {
    MixProduct(a, b, t, b - a);
  }

  lemma MixProduct(a: real, b: real, t: real, d: real)
    requires d == b - a > 0.0 && 0.0 <= t < 1.0
    ensures a <= Mix(a, b, t) < b && (Mix(a, b, t) == a <==> t == 0.0)
    ensures a < Mix(b, a, t) <= b && (Mix(b, a, t) == b <==> t == 0.0)
  {
    var u := 1.0 - t;
    var p, q := t * d, u * d;
    Sign(t, d);
    Sign(u, d);
    Parts(t, u, d);
    assert p >= 0.0 && q > 0.0 && p + q == d && (p == 0.0 <==> t == 0.0);
    assert Mix(a, b, t) == a + p;
    assert Mix(b, a, t) == b - p;
  }

  lemma Fraction(a: real, b: real, x: real) returns (t: real)
    requires a <= x < b
    ensures 0.0 <= t < 1.0 && x == Mix(a, b, t)
  {
    t := FractionOf(x - a, b - a);
    assert t * (b - a) == x - a;
  }

  lemma FractionOf(p: real, d: real) returns (t: real)
    requires 0.0 <= p < d
    ensures 0.0 <= t < 1.0 && t * d == p
  {
    t := p / d;
    assert t * d == p;
    Sign(t, d);
    var u := 1.0 - t;
    Sign(u, d);
    Parts(t, u, d);
  }

  // The point at x is on the line through (x0, y0) and (x1, y1).
  ghost predicate OnChord(x0: real, y0: real, x1: real, y1: real, x: real, y: real) {
    (y - y0) * (x1 - x0) == (y1 - y0) * (x - x0)
  }

  lemma LineIsChord(x0: real, y0: real, x1: real, y1: real, x: real)
    requires x0 != x1
    ensures OnChord(x0, y0, x1, y1, x, Line(x0, y0, x1, y1, x))
  {
    var dx, dy := x1 - x0, y1 - y0;
    var gain := dy / dx;
    assert gain * dx == dy;
    var rise := Line(x0, y0, x1, y1, x) - y0;
    assert rise == (x - x0) * gain;
    assert rise * dx == (x - x0) * (gain * dx);
  }

  // The height of any frequency: out of range below the lowest calibrated frequency and from
  // the highest on, and between them on the chord of the two around it.
  lemma HeightOfFreq(c: Calibration, freq: real) returns (k: nat)
    requires Sorted(c)
    ensures var n, z := |c.freqs|, FreqToHeight(c, freq);
            if n == 0 || freq >= c.freqs[n - 1] then z == -99.9
            else if freq < c.freqs[0] then z == 99.9
            else
              && k + 1 < n && c.freqs[k] <= freq < c.freqs[k + 1]
              && OnChord(c.freqs[k], c.zpos[k], c.freqs[k + 1], c.zpos[k + 1], freq, z)
  {
    hide Bisect, Line, OnChord;
    BisectBounds(c.freqs, freq);
    var pos := Bisect(c.freqs, freq);
    k := if pos == 0 then 0 else pos - 1;
    if 0 < pos < |c.freqs| {
      LineIsChord(c.freqs[k], c.zpos[k], c.freqs[pos], c.zpos[pos], freq);
    }
  }

  // Converting a height to a frequency and back gives the height again, except at the lowest
  // calibrated height: its frequency is reported as out of range.
  lemma HeightRoundTripIff(c: Calibration, height: real)
    requires Monotone(c) && HeightToFreq(c, height).Some?
    ensures FreqToHeight(c, HeightToFreq(c, height).value) == height
            <==> height != c.zpos[|c.zpos| - 1] || height == -OUT_OF_RANGE
  {
    hide Line, Mix, Bisect;
    var n := |c.freqs|;
    var revZ, revF := Reversed(c.zpos), Reversed(c.freqs);
    BisectBounds(revZ, height);
    var p := Bisect(revZ, height);
    var i := n - 1 - p;
    assert revZ[p] == c.zpos[i] && revZ[p - 1] == c.zpos[i + 1];
    assert revF[p] == c.freqs[i] && revF[p - 1] == c.freqs[i + 1];
    HeightsFall(c, i);
    var t := Fraction(c.zpos[i + 1], c.zpos[i], height);
    LineAt(c.zpos[i + 1], c.freqs[i + 1], c.zpos[i], c.freqs[i], t);
    HeightBack(c, i, t);
  }

  lemma HeightBack(c: Calibration, i: nat, t: real)
    requires Monotone(c) && i + 1 < |c.freqs| && 0.0 <= t < 1.0
    ensures var f, height := Mix(c.freqs[i + 1], c.freqs[i], t), Mix(c.zpos[i + 1], c.zpos[i], t);
            FreqToHeight(c, f) == height <==> height != c.zpos[|c.zpos| - 1] || height == -OUT_OF_RANGE
  {
    hide Bisect, Line, Mix;
    var n := |c.freqs|;
    var f0, f1, z0, z1 := c.freqs[i], c.freqs[i + 1], c.zpos[i], c.zpos[i + 1];
    HeightsFall(c, i);
    MixBounds(f0, f1, t);
    MixBounds(z1, z0, t);
    if t == 0.0 {
      BisectIs(c.freqs, f1, i + 2);
      if i + 2 < n {
        MixBounds(f1, c.freqs[i + 2], 0.0);
        LineAt(f1, z1, c.freqs[i + 2], c.zpos[i + 2], 0.0);
        HeightsFall(c, i + 1);
        MixZero(z1, c.zpos[i + 2]);
      }
    } else {
      BisectIs(c.freqs, Mix(f1, f0, t), i + 1);
      MixMirror(f0, f1, t);
      MixMirror(z0, z1, t);
      LineAt(f0, z0, f1, z1, 1.0 - t);
    }
  }

  lemma MixZero(a: real, b: real)
    ensures Mix(a, b, 0.0) == a
  {
  }

  lemma HeightsFall(c: Calibration, i: nat)
    requires Monotone(c) && i + 1 < |c.zpos|
    ensures c.zpos[i] > c.zpos[i + 1] >= c.zpos[|c.zpos| - 1]
    ensures i + 2 < |c.zpos| ==> c.zpos[i + 1] > c.zpos[|c.zpos| - 1]
  {
    var n, rev := |c.zpos|, Reversed(c.zpos);
    assert rev[n - 1 - i] == c.zpos[i] && rev[n - 2 - i] == c.zpos[i + 1] && rev[0] == c.zpos[n - 1];
  }
}
