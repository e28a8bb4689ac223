/** Clock synchronisation and time stamps of bulk sensor data
    (software/klipper/extras/bulk_sensor.py).

    A regression relates the sensor's sample counter ("chip clock") to the micro-controller's
    clock.  Clocks are exact reals here; the 16-bit counters of the messages are not. */
module BulkSensor {
  import opened Support

  // ---------- the regression on values ----------

  datatype Regression = Regression(mcuAvg: real, mcuVar: real, chipAvg: real, chipCov: real,
                                   lastChip: real, lastExpMcu: real)

  // Base points of both clocks and micro-controller ticks per sample.
  datatype Translation = Translation(mcu: real, chip: real, invFreq: real)

  function Reset(mcuClock: real, chipClock: real): Regression {
    Regression(mcuClock, 0.0, chipClock, 0.0, 0.0, 0.0)
  }

  function Update(r: Regression, decay: real, mcuClock: real, chipClock: real): Regression {
    UpdateBy(r, decay, mcuClock - r.mcuAvg, chipClock - r.chipAvg)
  }

  function UpdateBy(r: Regression, decay: real, diffMcu: real, diffChip: real): Regression {
    r.(mcuAvg := r.mcuAvg + decay * diffMcu,
       mcuVar := (1.0 - decay) * (r.mcuVar + diffMcu * diffMcu * decay),
       chipAvg := r.chipAvg + decay * diffChip,
       chipCov := (1.0 - decay) * (r.chipCov + diffMcu * diffChip * decay))
  }

  // base + (x - from) * slope
  function Extrapolate(base: real, from: real, slope: real, x: real): real {
    base + (x - from) * slope
  }

  // None stands for the division by zero of a regression that has not moved.
  function GetTranslation(r: Regression, smooth: real): Option<Translation>
    requires smooth != 0.0
  {
    if r.chipCov == 0.0 then None
    else
      var inv := r.mcuVar / r.chipCov;
      if r.lastChip == 0.0 then Some(Translation(r.mcuAvg, r.chipAvg, inv))
      else
        var ahead := Extrapolate(r.mcuAvg, r.chipAvg, inv, r.lastChip + smooth);
        Some(Translation(r.lastExpMcu, r.lastChip, (ahead - r.lastExpMcu) / smooth))
  }

  function Convert(t: Translation, chipClock: real): real {
    Extrapolate(t.mcu, t.chip, t.invFreq, chipClock)
  }

  function SetLast(r: Regression, smooth: real, chipClock: real): Option<Regression>
    requires smooth != 0.0
  {
    var t := GetTranslation(r, smooth);
    if t.None? then None else Some(r.(lastChip := chipClock, lastExpMcu := Convert(t.value, chipClock)))
  }

  class ClockSyncRegression {
    const smooth: real
    const decay: real
    var lastChipClock: real
    var lastExpMcuClock: real
    var mcuClockAvg: real
    var mcuClockVariance: real
    var chipClockAvg: real
    var chipClockCovariance: real

    constructor (smooth: real, decay: real)
      requires smooth != 0.0
      ensures this.smooth == smooth && this.decay == decay && View() == Reset(0.0, 0.0)
    {
      this.smooth, this.decay := smooth, decay;
      lastChipClock, lastExpMcuClock := 0.0, 0.0;
      mcuClockAvg, mcuClockVariance := 0.0, 0.0;
      chipClockAvg, chipClockCovariance := 0.0, 0.0;
    }

    ghost function View(): Regression
      reads this
    {
      Regression(mcuClockAvg, mcuClockVariance, chipClockAvg, chipClockCovariance, lastChipClock, lastExpMcuClock)
    }

    method ResetTo(mcuClock: real, chipClock: real)
      modifies this
      ensures View() == Reset(mcuClock, chipClock)
    {
      mcuClockAvg := mcuClock;
      chipClockAvg := chipClock;
      mcuClockVariance, chipClockCovariance := 0.0, 0.0;
      lastChipClock, lastExpMcuClock := 0.0, 0.0;
    }

    method UpdateWith(mcuClock: real, chipClock: real)
      modifies this
      ensures View() == Update(old(View()), decay, mcuClock, chipClock)
    {
      var diffMcu := mcuClock - mcuClockAvg;
      mcuClockAvg := mcuClockAvg + decay * diffMcu;
      mcuClockVariance := (1.0 - decay) * (mcuClockVariance + diffMcu * diffMcu * decay);
      var diffChip := chipClock - chipClockAvg;
      chipClockAvg := chipClockAvg + decay * diffChip;
      chipClockCovariance := (1.0 - decay) * (chipClockCovariance + diffMcu * diffChip * decay);
    }

    method GetClockTranslation() returns (t: Option<Translation>)
      requires smooth != 0.0
      ensures t == GetTranslation(View(), smooth)
    {
      if chipClockCovariance == 0.0 {
        return None;
      }
      var inv := mcuClockVariance / chipClockCovariance;
      if lastChipClock == 0.0 {
        return Some(Translation(mcuClockAvg, chipClockAvg, inv));
      }
      var ahead := Extrapolate(mcuClockAvg, chipClockAvg, inv, lastChipClock + smooth);
      return Some(Translation(lastExpMcuClock, lastChipClock, (ahead - lastExpMcuClock) / smooth));
    }

    method SetLastChipClock(chipClock: real) returns (ok: bool)
      requires smooth != 0.0
      modifies this
      ensures ok == SetLast(old(View()), smooth, chipClock).Some?
      ensures View() == if ok then SetLast(old(View()), smooth, chipClock).value else old(View())
    {
      var t := GetClockTranslation();
      if t.None? {
        return false;
      }
      lastChipClock := chipClock;
      lastExpMcuClock := Convert(t.value, chipClock);
      return true;
    }
  }

  // ---------- clocks on one line ----------

  // The micro-controller clock of a chip clock on the line with slope a.
  ghost function Line(a: real, b: real, chip: real): real {
    a * chip + b
  }

  // The averages lie on the line and the two moments have its slope as their ratio.
  ghost predicate OnLine(r: Regression, a: real, b: real) {
    && r.mcuAvg == Line(a, b, r.chipAvg)
    && r.mcuVar == a * r.chipCov && r.chipCov >= 0.0
    && (r.lastChip != 0.0 ==> r.lastExpMcu == Line(a, b, r.lastChip))
  }

  lemma LineDifference(a: real, b: real, x: real, y: real)
    ensures Line(a, b, x) - Line(a, b, y) == a * (x - y)
  {
  }

  lemma LineStep(a: real, b: real, x: real, d: real)
    ensures Line(a, b, x + d) - Line(a, b, x) == a * d
  {
  }

  // The line is found from any of its points.
  lemma ExtrapolateOnLine(a: real, b: real, from: real, x: real)
    ensures Extrapolate(Line(a, b, from), from, a, x) == Line(a, b, x)
  {
    LineDifference(a, b, x, from);
  }

  lemma LineShift(a: real, b: real, x: real, d: real, e: real)
    requires e == a * d
    ensures Line(a, b, x) + e == Line(a, b, x + d)
  {
  }

  lemma Swap(a: real, d: real, x: real, y: real)
    requires x == a * y
    ensures d * x == a * (d * y)
  {
  }

  // One step of the moments, for differences dm == a * dc.
  lemma MomentStep(a: real, w: real, decay: real, dm: real, dc: real, v: real, c: real)
    requires dm == a * dc && v == a * c
    ensures w * (v + dm * dm * decay) == a * (w * (c + dm * dc * decay))
  {
    var p, q := dm * dm * decay, dm * dc * decay;
    assert dm * dm == a * (dm * dc) by { Swap(a, dm, dm, dc); }
    assert p == a * q by { Swap(a, decay, dm * dm, dm * dc); }
    assert v + p == a * (c + q);
    Swap(a, w, v + p, c + q);
  }

  lemma MomentSign(a: real, decay: real, dm: real, dc: real, c: real)
    requires dm == a * dc && a > 0.0 && 0.0 < decay < 1.0 && c >= 0.0
    ensures var c' := (1.0 - decay) * (c + dm * dc * decay);
            c' >= 0.0 && (c' == 0.0 <==> c == 0.0 && dc == 0.0)
  {
    SquareSign(dc);
    var sq := dc * dc;
    ProductSign(a, sq);
    assert dm * dc == a * sq;
    var prod := dm * dc;
    ProductSign(prod, decay);
    var q := prod * decay;
    var w := 1.0 - decay;
    ProductSign(w, c + q);
  }

  // A pair on the line keeps the regression on it; it leaves the covariance at zero exactly
  // when it was zero and the pair is the average.
  lemma UpdateStaysOnLine(r: Regression, decay: real, a: real, b: real, chip: real)
    requires OnLine(r, a, b) && a > 0.0 && 0.0 < decay < 1.0
    ensures var r' := Update(r, decay, Line(a, b, chip), chip);
            OnLine(r', a, b) && (r'.chipCov == 0.0 <==> r.chipCov == 0.0 && chip == r.chipAvg)
  {
    hide Line, UpdateBy;
    LineDifference(a, b, chip, r.chipAvg);
    UpdateByStaysOnLine(r, decay, a, b, Line(a, b, chip) - r.mcuAvg, chip - r.chipAvg);
  }

  lemma UpdateByStaysOnLine(r: Regression, decay: real, a: real, b: real, dm: real, dc: real)
    requires OnLine(r, a, b) && a > 0.0 && 0.0 < decay < 1.0 && dm == a * dc
    ensures var r' := UpdateBy(r, decay, dm, dc);
            OnLine(r', a, b) && (r'.chipCov == 0.0 <==> r.chipCov == 0.0 && dc == 0.0)
  {
    hide Line;
    Swap(a, decay, dm, dc);
    LineShift(a, b, r.chipAvg, decay * dc, decay * dm);
    MomentStep(a, 1.0 - decay, decay, dm, dc, r.mcuVar, r.chipCov);
    MomentSign(a, decay, dm, dc, r.chipCov);
  }

  lemma Ratio(a: real, v: real, c: real)
    requires v == a * c && c != 0.0
    ensures v / c == a
  {
  }

  // Every translation of a moved regression is the line itself, smoothed or not.
  lemma TranslationIsLine(r: Regression, smooth: real, a: real, b: real)
    requires OnLine(r, a, b) && smooth != 0.0
    ensures GetTranslation(r, smooth).None? <==> r.chipCov == 0.0
    ensures r.chipCov != 0.0 ==>
              var t := GetTranslation(r, smooth).value;
              t.invFreq == a && t.mcu == Line(a, b, t.chip)
  {
    hide Line, Extrapolate;
    if r.chipCov != 0.0 {
      Ratio(a, r.mcuVar, r.chipCov);
      if r.lastChip != 0.0 {
        var ahead := r.lastChip + smooth;
        ExtrapolateOnLine(a, b, r.chipAvg, ahead);
        LineStep(a, b, r.lastChip, smooth);
        var rise := Line(a, b, ahead) - r.lastExpMcu;
        assert rise == a * smooth;
        Ratio(a, rise, smooth);
      }
    }
  }

  lemma ConvertOnLine(t: Translation, a: real, b: real, chip: real)
    requires t.invFreq == a && t.mcu == Line(a, b, t.chip)
    ensures Convert(t, chip) == Line(a, b, chip)
  {
    LineDifference(a, b, chip, t.chip);
  }

  lemma SetLastStaysOnLine(r: Regression, smooth: real, a: real, b: real, chip: real)
    requires OnLine(r, a, b) && smooth != 0.0 && r.chipCov != 0.0
    ensures SetLast(r, smooth, chip).Some?
    ensures OnLine(SetLast(r, smooth, chip).value, a, b) && SetLast(r, smooth, chip).value.chipCov == r.chipCov
  {
    TranslationIsLine(r, smooth, a, b);
    ConvertOnLine(GetTranslation(r, smooth).value, a, b, chip);
  }

  // ---------- whole runs ----------

  datatype Step = Pair(chip: real) | Anchor(chip: real)

  ghost function StepOn(r: Regression, smooth: real, decay: real, a: real, b: real, s: Step): Option<Regression>
    requires smooth != 0.0
  {
    match s
    case Pair(chip) => Some(Update(r, decay, Line(a, b, chip), chip))
    case Anchor(chip) => SetLast(r, smooth, chip)
  }

  // A run of updates with pairs of one line and of set_last_chip_clock calls; None when a call
  // divides by zero.
  ghost function RunOn(r: Regression, smooth: real, decay: real, a: real, b: real, steps: seq<Step>): Option<Regression>
    requires smooth != 0.0
    decreases |steps|
  {
    if steps == [] then Some(r)
    else
      var next := StepOn(r, smooth, decay, a, b, steps[0]);
      if next.None? then None else RunOn(next.value, smooth, decay, a, b, steps[1..])
  }

  // Whether some update of the run was off the average at its time.
  ghost predicate Moves(r: Regression, smooth: real, decay: real, a: real, b: real, steps: seq<Step>)
    requires smooth != 0.0
    decreases |steps|
  {
    steps != [] &&
    ((steps[0].Pair? && steps[0].chip != r.chipAvg) ||
     var next := StepOn(r, smooth, decay, a, b, steps[0]);
     next.Some? && Moves(next.value, smooth, decay, a, b, steps[1..]))
  }

  lemma {:induction false} RunStaysOnLine(r: Regression, smooth: real, decay: real, a: real, b: real, steps: seq<Step>)
    requires OnLine(r, a, b) && a > 0.0 && 0.0 < decay < 1.0 && smooth != 0.0
    requires RunOn(r, smooth, decay, a, b, steps).Some?
    ensures var last := RunOn(r, smooth, decay, a, b, steps).value;
            && OnLine(last, a, b)
            && (last.chipCov == 0.0 <==> r.chipCov == 0.0 && !Moves(r, smooth, decay, a, b, steps))
    decreases |steps|
  {
    hide OnLine, Line, Update, GetTranslation;
    if steps != [] {
      var next := StepOn(r, smooth, decay, a, b, steps[0]).value;
      match steps[0] {
        case Pair(chip) => UpdateStaysOnLine(r, decay, a, b, chip);
        case Anchor(chip) =>
          NotMovedFails(r, smooth, a, b);
          SetLastStaysOnLine(r, smooth, a, b, chip);
      }
      RunStaysOnLine(next, smooth, decay, a, b, steps[1..]);
    }
  }

  lemma NotMovedFails(r: Regression, smooth: real, a: real, b: real)
    requires OnLine(r, a, b) && smooth != 0.0
    ensures GetTranslation(r, smooth).None? <==> r.chipCov == 0.0
  {
  }

  // After a reset with a pair of the line, over every run: a translation is available exactly
  // when some update was off the average, and then it is the line itself.
  lemma RegressionFindsLine(smooth: real, decay: real, a: real, b: real, first: real, steps: seq<Step>)
    requires a > 0.0 && 0.0 < decay < 1.0 && smooth != 0.0
    requires RunOn(Reset(Line(a, b, first), first), smooth, decay, a, b, steps).Some?
    ensures var start := Reset(Line(a, b, first), first);
            var t := GetTranslation(RunOn(start, smooth, decay, a, b, steps).value, smooth);
            && (t.Some? <==> Moves(start, smooth, decay, a, b, steps))
            && (t.Some? ==> t.value.invFreq == a && t.value.mcu == Line(a, b, t.value.chip))
  {
    hide Line, GetTranslation, RunOn, Moves;
    var start := Reset(Line(a, b, first), first);
    RunStaysOnLine(start, smooth, decay, a, b, steps);
    TranslationIsLine(RunOn(start, smooth, decay, a, b, steps).value, smooth, a, b);
  }

  // ---------- 16-bit counters ----------

  // last + ((counter - last) & 0xffff)
  function Advance(last: int, counter: int): int {
    last + (counter - last) % 65536
  }

  // The nearest value to last with the counter's low bits.
  function Nearest(last: int, counter: int): int {
    var d := (counter - last) % 65536;
    last + if d >= 32768 then d - 65536 else d
  }

  lemma CounterMod(x: int, last: int)
    ensures (x % 65536 - last) % 65536 == (x - last) % 65536
  {
    var k, m := x / 65536, x % 65536;
    assert x - last == (m - last) + 65536 * k;
    AddMultiple(m - last, k);
  }

  lemma AddMultiple(y: int, k: int)
    ensures (y + 65536 * k) % 65536 == y % 65536
  {
    var q, m := y / 65536, y % 65536;
    assert y + 65536 * k == 65536 * (q + k) + m;
  }

  // The counters are unwrapped exactly within these distances, and not beyond.
  lemma UnwrapIff(last: int, x: int)
    ensures Advance(last, x % 65536) == x <==> 0 <= x - last < 65536
    ensures Nearest(last, x % 65536) == x <==> -32768 <= x - last < 32768
  {
    CounterMod(x, last);
    var k, m := (x - last) / 65536, (x - last) % 65536;
    assert x - last == 65536 * k + m;
  }

  // ---------- the reader ----------

  // The answer to a status query; the clock is already 64 bits wide.
  datatype Status = Status(clock: int, queryTicks: nat, nextSequence: int, buffered: nat)

  // A block of samples and its 16-bit sequence number.
  datatype Block<V> = Block(sequence: int, values: seq<V>)

  datatype Stamped<V> = Stamped(time: real, value: V)

  datatype Reader = Reader(reg: Regression, lastSequence: int, maxDuration: int)

  // Sizes fixed by the sensor: samples in a full block, bytes in a sample, and the
  // conversion of the micro-controller's clock to print time.
  datatype Config = Config(perBlock: nat, perSample: nat, smooth: real, decay: real,
                           minDuration: nat, tick: real, origin: real)

  ghost predicate ValidConfig(c: Config) {
    c.perBlock > 0 && c.perSample > 0 && c.smooth != 0.0 && 0.0 < c.decay < 1.0
  }

  function PrintTime(c: Config, clock: real): real {
    c.tick * clock + c.origin
  }

  function ChipClock(c: Config, sequence: int, buffered: nat): int
    requires c.perSample > 0
  {
    sequence * c.perBlock + buffered / c.perSample + 1
  }

  // What the reported bytes mean: full blocks, further whole samples, and part of one more.
  lemma ChipClockCounts(c: Config, sequence: int, buffered: nat, taken: nat, rest: nat)
    requires buffered == taken * c.perSample + rest && rest < c.perSample
    ensures ChipClock(c, sequence, buffered) == sequence * c.perBlock + taken + 1
  {
    var q, m := buffered / c.perSample, buffered % c.perSample;
    assert (q - taken) * c.perSample == rest - m;
    AtLeastOne(q - taken, c.perSample);
  }

  lemma AtLeastOne(x: int, n: int)
    requires n > 0
    ensures (x >= 1 ==> x * n >= n) && (x <= -1 ==> x * n <= -n)
  {
  }

  function UpdateClock(r: Reader, c: Config, s: Status, isReset: bool): Reader
    requires c.perSample > 0
  {
    var sequence := Advance(r.lastSequence, s.nextSequence);
    if s.queryTicks > r.maxDuration then
      Reader(r.reg, sequence, if 2 * r.maxDuration >= c.minDuration then 2 * r.maxDuration else c.minDuration)
    else
      var mcu := (s.clock + s.queryTicks / 2) as real;
      var chip := ChipClock(c, sequence, s.buffered) as real;
      Reader(if isReset then Reset(mcu, chip) else Update(r.reg, c.decay, mcu, chip), sequence, 2 * s.queryTicks)
  }

  // get_time_translation, and the time of one sample
  function TimeOf(c: Config, t: Translation, chip: real): real {
    var base := PrintTime(c, t.mcu);
    var invFreq := PrintTime(c, t.mcu + t.invFreq) - base;
    Extrapolate(base, t.chip, invFreq, chip)
  }

  function StampBlock<V>(c: Config, t: Translation, sequence: int, values: seq<V>, n: nat): seq<Stamped<V>>
    requires n <= |values|
  {
    if n == 0 then []
    else StampBlock(c, t, sequence, values, n - 1) +
         [Stamped(TimeOf(c, t, (sequence * c.perBlock + (n - 1)) as real), values[n - 1])]
  }

  function StampAll<V>(c: Config, t: Translation, last: int, blocks: seq<Block<V>>, n: nat): seq<Stamped<V>>
    requires n <= |blocks|
  {
    if n == 0 then []
    else
      var block := blocks[n - 1];
      StampAll(c, t, last, blocks, n - 1) +
      StampBlock(c, t, Nearest(last, block.sequence), block.values, |block.values|)
  }

  lemma NearestIs(last: int, counter: int)
    ensures var d := (counter - last) % 65536; Nearest(last, counter) == last + if d >= 32768 then d - 65536 else d
  {
  }

  lemma NoStamps<V>(c: Config, last: int, blocks: seq<Block<V>>)
    ensures forall t :: StampAll(c, t, last, blocks, 0) == []
  {
  }

  lemma StampNext<V>(c: Config, t: Translation, last: int, blocks: seq<Block<V>>, k: nat)
    requires k < |blocks|
    ensures var m := blocks[k];
            StampAll(c, t, last, blocks, k + 1) ==
            StampAll(c, t, last, blocks, k) + StampBlock(c, t, Nearest(last, m.sequence), m.values, |m.values|)
  {
  }

  // The loop index after the first n blocks: that of the last sample, from whichever block.
  function LastIndex<V>(blocks: seq<Block<V>>, n: nat): Option<int>
    requires n <= |blocks|
  {
    if n == 0 then None
    else if blocks[n - 1].values != [] then Some(|blocks[n - 1].values| - 1)
    else LastIndex(blocks, n - 1)
  }

  class FixedFreqReader<V> {
    const config: Config
    const clockSync: ClockSyncRegression
    var lastSequence: int
    var maxQueryDuration: int

    ghost predicate Valid() {
      ValidConfig(config) && clockSync.smooth == config.smooth && clockSync.decay == config.decay
    }

    ghost function View(): Reader
      reads this, clockSync
    {
      Reader(clockSync.View(), lastSequence, maxQueryDuration)
    }

    constructor (config: Config)
      requires ValidConfig(config)
      ensures Valid() && this.config == config && fresh(clockSync)
      ensures lastSequence == 0 && maxQueryDuration == 0
    {
      this.config := config;
      clockSync := new ClockSyncRegression(config.smooth, config.decay);
      lastSequence, maxQueryDuration := 0, 0;
    }

    method UpdateClockWith(s: Status, isReset: bool)
      requires Valid()
      modifies this, clockSync
      ensures View() == UpdateClock(old(View()), config, s, isReset)
    {
      lastSequence := lastSequence + (s.nextSequence - lastSequence) % 65536;
      if s.queryTicks > maxQueryDuration {
        maxQueryDuration :=
          if 2 * maxQueryDuration >= config.minDuration then 2 * maxQueryDuration else config.minDuration;
        return;
      }
      maxQueryDuration := 2 * s.queryTicks;
      var msgCount := lastSequence * config.perBlock + s.buffered / config.perSample;
      var chipClock := msgCount + 1;
      var avgMcuClock := s.clock + s.queryTicks / 2;
      if isReset {
        clockSync.ResetTo(avgMcuClock as real, chipClock as real);
      } else {
        clockSync.UpdateWith(avgMcuClock as real, chipClock as real);
      }
    }

    // None stands for an exception: of a regression that has not moved, or of a loop index
    // that is not set because no block holds a sample.
    method PullSamples(s: Status, blocks: seq<Block<V>>) returns (samples: Option<seq<Stamped<V>>>)
      requires Valid()
      modifies this, clockSync
      ensures var r := UpdateClock(old(View()), config, s, false);
              var t := GetTranslation(r.reg, config.smooth);
              if blocks == [] then View() == r && samples == Some([])
              else if t.None? || LastIndex(blocks, |blocks|).None? then View() == r && samples == None
              else
                var last := Nearest(r.lastSequence, blocks[|blocks| - 1].sequence) * config.perBlock
                            + LastIndex(blocks, |blocks|).value;
                && samples == Some(StampAll(config, t.value, r.lastSequence, blocks, |blocks|))
                && SetLast(r.reg, config.smooth, last as real).Some?
                && View() == r.(reg := SetLast(r.reg, config.smooth, last as real).value)
    {
      hide StampAll, StampBlock, Nearest, UpdateClock, GetTranslation;
      UpdateClockWith(s, false);
      NoStamps<V>(config, lastSequence, blocks);
      if |blocks| == 0 {
        return Some([]);
      }
      var t := clockSync.GetClockTranslation();
      if t.None? {
        return None;
      }
      var out: seq<Stamped<V>> := [];
      var sequence := 0;
      var index: Option<int> := None;
      ghost var updated := View();
      for k := 0 to |blocks|
        invariant View() == updated
        invariant out == StampAll(config, t.value, lastSequence, blocks, k)
        invariant index == LastIndex(blocks, k)
        invariant k > 0 ==> sequence == Nearest(lastSequence, blocks[k - 1].sequence)
      {
        var seqDiff := (blocks[k].sequence - lastSequence) % 65536;
        if seqDiff >= 32768 {
          seqDiff := seqDiff - 65536;
        }
        NearestIs(lastSequence, blocks[k].sequence);
        StampNext(config, t.value, lastSequence, blocks, k);
        sequence := lastSequence + seqDiff;
        var part := StampOne(t.value, sequence, blocks[k].values);
        out := out + part;
        if blocks[k].values != [] {
          index := Some(|blocks[k].values| - 1);
        }
      }
      if index.None? {
        return None;
      }
      var ok := clockSync.SetLastChipClock((sequence * config.perBlock + index.value) as real);
      return Some(out);
    }

    // The loop over the samples of one block.
    method StampOne(t: Translation, sequence: int, values: seq<V>) returns (out: seq<Stamped<V>>)
      ensures out == StampBlock(config, t, sequence, values, |values|)
    {
      var base := PrintTime(config, t.mcu);
      var invFreq := PrintTime(config, t.mcu + t.invFreq) - base;
      out := [];
      for i := 0 to |values|
        invariant out == StampBlock(config, t, sequence, values, i)
      {
        out := out + [Stamped(Extrapolate(base, t.chip, invFreq, (sequence * config.perBlock + i) as real), values[i])];
      }
    }
  }

  // ---------- exact time stamps ----------

  // The time of the sample with a given number, if the chip's clock is the line.
  ghost function TrueTime(c: Config, a: real, b: real, number: int): real {
    c.tick * Line(a, b, number as real) + c.origin
  }

  lemma TimeOnLine(c: Config, t: Translation, a: real, b: real, chip: real)
    requires t.invFreq == a && t.mcu == Line(a, b, t.chip)
    ensures TimeOf(c, t, chip) == c.tick * Line(a, b, chip) + c.origin
  {
    hide Line;
    var d := chip - t.chip;
    LineDifference(a, b, chip, t.chip);
    assert PrintTime(c, t.mcu + a) - PrintTime(c, t.mcu) == c.tick * a;
    Rearrange(c.tick, a, d);
    assert PrintTime(c, t.mcu + a * d) == PrintTime(c, t.mcu) + c.tick * (a * d);
  }

  lemma Rearrange(k: real, a: real, d: real)
    ensures d * (k * a) == k * (a * d)
  {
  }

  ghost function TrueBlock<V>(c: Config, a: real, b: real, sequence: int, values: seq<V>, n: nat): seq<Stamped<V>>
    requires n <= |values|
  {
    if n == 0 then []
    else TrueBlock(c, a, b, sequence, values, n - 1) +
         [Stamped(TrueTime(c, a, b, sequence * c.perBlock + (n - 1)), values[n - 1])]
  }

  ghost function TrueStamps<V>(c: Config, a: real, b: real, sequences: seq<int>, blocks: seq<Block<V>>, n: nat): seq<Stamped<V>>
    requires n <= |blocks| == |sequences|
  {
    if n == 0 then []
    else TrueStamps(c, a, b, sequences, blocks, n - 1) +
         TrueBlock(c, a, b, sequences[n - 1], blocks[n - 1].values, |blocks[n - 1].values|)
  }

  lemma {:induction false} BlockStampsTrue<V>(c: Config, t: Translation, a: real, b: real, sequence: int, values: seq<V>, n: nat)
    requires t.invFreq == a && t.mcu == Line(a, b, t.chip) && n <= |values|
    ensures StampBlock(c, t, sequence, values, n) == TrueBlock(c, a, b, sequence, values, n)
  {
    hide Line, TimeOf;
    if n > 0 {
      BlockStampsTrue(c, t, a, b, sequence, values, n - 1);
      TimeOnLine(c, t, a, b, (sequence * c.perBlock + (n - 1)) as real);
    }
  }

  // Blocks whose true numbers are known are unwrapped to them when they are close enough.
  ghost predicate Numbered<V>(blocks: seq<Block<V>>, sequences: seq<int>, last: int) {
    && |blocks| == |sequences|
    && forall k :: 0 <= k < |blocks| ==>
         blocks[k].sequence == sequences[k] % 65536 && -32768 <= sequences[k] - last < 32768
  }

  lemma {:induction false} StampsTrue<V>(c: Config, t: Translation, a: real, b: real, last: int,
                                         blocks: seq<Block<V>>, sequences: seq<int>, n: nat)
    requires t.invFreq == a && t.mcu == Line(a, b, t.chip)
    requires Numbered(blocks, sequences, last) && n <= |blocks|
    ensures StampAll(c, t, last, blocks, n) == TrueStamps(c, a, b, sequences, blocks, n)
  {
    hide Line, StampBlock, TrueBlock;
    if n > 0 {
      StampsTrue(c, t, a, b, last, blocks, sequences, n - 1);
      UnwrapIff(last, sequences[n - 1]);
      BlockStampsTrue(c, t, a, b, sequences[n - 1], blocks[n - 1].values, |blocks[n - 1].values|);
    }
  }

  // What one pull produces: every sample stamped with its own true time, and a reader that
  // goes on being exact.  The sensor's buffer holds the whole samples taken since the last block
  // and part of the next; the middle of the query is on the line one count past them, or the
  // reply is skipped.
  lemma PullIsExact<V>(r: Reader, c: Config, s: Status, trueNext: int, taken: nat, rest: nat, a: real, b: real,
                       blocks: seq<Block<V>>, sequences: seq<int>)
    requires ValidConfig(c) && a > 0.0 && OnLine(r.reg, a, b) && r.reg.chipCov > 0.0
    requires s.nextSequence == trueNext % 65536 && 0 <= trueNext - r.lastSequence < 65536
    requires s.buffered == taken * c.perSample + rest && rest < c.perSample
    requires s.queryTicks <= r.maxDuration ==>
               (s.clock + s.queryTicks / 2) as real == Line(a, b, (trueNext * c.perBlock + taken + 1) as real)
    requires Numbered(blocks, sequences, trueNext)
    ensures var u := UpdateClock(r, c, s, false);
            var t := GetTranslation(u.reg, c.smooth);
            && u.lastSequence == trueNext && OnLine(u.reg, a, b) && u.reg.chipCov > 0.0
            && t.Some?
            && StampAll(c, t.value, u.lastSequence, blocks, |blocks|) == TrueStamps(c, a, b, sequences, blocks, |blocks|)
    ensures forall chip :: var u := UpdateClock(r, c, s, false);
              var w := SetLast(u.reg, c.smooth, chip);
              w.Some? && OnLine(w.value, a, b) && w.value.chipCov > 0.0
  {
    hide Line, GetTranslation, StampAll, Update, ChipClock;
    UnwrapIff(r.lastSequence, trueNext);
    ChipClockCounts(c, trueNext, s.buffered, taken, rest);
    var u := UpdateClock(r, c, s, false);
    if s.queryTicks <= r.maxDuration {
      UpdateStaysOnLine(r.reg, c.decay, a, b, (trueNext * c.perBlock + taken + 1) as real);
    }
    TranslationIsLine(u.reg, c.smooth, a, b);
    StampsTrue(c, GetTranslation(u.reg, c.smooth).value, a, b, trueNext, blocks, sequences, |blocks|);
    forall chip ensures var w := SetLast(u.reg, c.smooth, chip);
                        w.Some? && OnLine(w.value, a, b) && w.value.chipCov > 0.0
    {
      SetLastStaysOnLine(u.reg, c.smooth, a, b, chip);
    }
  }
}
