/** A bit-banged I2C master (software/klipper/extras/mcp4018.py), checked against an observer of
    the two bus lines written from sections 3.1.3 to 3.1.5 of UM10204.

    The master drives both lines all the time and never reads the acknowledge bit, so nothing
    is said about acknowledgement. */
module SoftwareI2C {
  import opened Support

  datatype Event = Sda(level: bool) | Scl(level: bool)

  // ---------- the master ----------

  // data >> k
  function Shift(data: int, k: nat): int {
    if k == 0 then data else Shift(data, k - 1) / 2
  }

  // not not (data & (0x80 >> i))
  function Bit(data: int, i: nat): bool
    requires i < 8
  {
    Shift(data, 7 - i) % 2 == 1
  }

  // One clock pulse with the data line at `next`, having been at `last`.
  function Pulse(last: bool, next: bool): seq<Event> {
    (if last != next then [Sda(next)] else []) + [Scl(true), Scl(false)]
  }

  // The data line after the first i bits of a byte.
  function LineAfter(last: bool, data: int, i: nat): bool
    requires i <= 8
  {
    if i == 0 then last else Bit(data, i - 1)
  }

  function BitPulses(last: bool, data: int, i: nat): seq<Event>
    requires i <= 8
  {
    if i == 0 then []
    else BitPulses(last, data, i - 1) + Pulse(LineAfter(last, data, i - 1), Bit(data, i - 1))
  }

  function LineAfterBytes(bytes: seq<int>, n: nat): bool
    requires n <= |bytes|
  {
    n > 0 && Bit(bytes[n - 1], 7)
  }

  // A byte and its ninth clock.
  function BytePulse(last: bool, data: int): seq<Event> {
    BitPulses(last, data, 8) + [Scl(true), Scl(false)]
  }

  function BytePulses(bytes: seq<int>, n: nat): seq<Event>
    requires n <= |bytes|
  {
    if n == 0 then []
    else BytePulses(bytes, n - 1) + BytePulse(LineAfterBytes(bytes, n - 1), bytes[n - 1])
  }

  function StartPulse(): seq<Event> {
    [Sda(false), Scl(false)]
  }

  function StopPulse(last: bool): seq<Event> {
    (if last then [Sda(false)] else []) + [Scl(true), Sda(true)]
  }

  function Wave(bytes: seq<int>): seq<Event> {
    StartPulse() + BytePulses(bytes, |bytes|) + StopPulse(LineAfterBytes(bytes, |bytes|))
  }

  class Master {
    const addr: int
    var wire: seq<Event>

    constructor (addr: int)
      ensures this.addr == addr * 2 && wire == []
    {
      this.addr, wire := addr * 2, [];
    }

    method I2cWrite(msg: seq<int>)
      modifies this
      ensures wire == old(wire) + Wave([addr] + msg)
    {
      var bytes := [addr] + msg;
      ghost var was := wire;
      wire := wire + [Sda(false)];
      wire := wire + [Scl(false)];
      var sdaLast := false;
      for n := 0 to |bytes|
        invariant sdaLast == LineAfterBytes(bytes, n)
        invariant wire == was + [Sda(false), Scl(false)] + BytePulses(bytes, n)
      {
        sdaLast := SendByte(sdaLast, bytes[n]);
      }
      if sdaLast {
        wire := wire + [Sda(false)];
      }
      wire := wire + [Scl(true)];
      wire := wire + [Sda(true)];
    }

    // The body of the loop over the message.
    method SendByte(last: bool, data: int) returns (sdaLast: bool)
      modifies this
      ensures sdaLast == Bit(data, 7)
      ensures wire == old(wire) + BytePulse(last, data)
    {
      sdaLast := last;
      for i := 0 to 8
        invariant sdaLast == LineAfter(last, data, i)
        invariant wire == old(wire) + BitPulses(last, data, i)
      {
        var sdaNext := Bit(data, i);
        if sdaLast != sdaNext {
          sdaLast := sdaNext;
          wire := wire + [Sda(sdaLast)];
        }
        wire := wire + [Scl(true)];
        wire := wire + [Scl(false)];
      }
      wire := wire + [Scl(true)];
      wire := wire + [Scl(false)];
    }
  }

  // ---------- the observer ----------

  // The lines, whether a transfer is open, the bit sampled in the present clock pulse, the
  // bits of the open transfer, and the finished transfers.  `starts` and `stops` count every
  // change of the data line while the clock is high.
  datatype Bus = Bus(sda: bool, scl: bool, open: bool, pending: Option<bool>, bits: seq<bool>,
                     frames: seq<seq<bool>>, starts: nat, stops: nat)

  function Observe(b: Bus, e: Event): Bus {
    match e
    case Sda(level) =>
      if level == b.sda then b
      else if !b.scl then b.(sda := level)
      else if !level then b.(sda := level, open := true, pending := None, bits := [], starts := b.starts + 1)
      else b.(sda := level, open := false, pending := None, bits := [],
              frames := if b.open then b.frames + [b.bits] else b.frames, stops := b.stops + 1)
    case Scl(level) =>
      if level == b.scl then b
      else if level then b.(scl := true, pending := if b.open then Some(b.sda) else None)
      else b.(scl := false, pending := None, bits := if b.pending.Some? then b.bits + [b.pending.value] else b.bits)
  }

  function ObserveAll(b: Bus, events: seq<Event>): Bus {
    if events == [] then b else Observe(ObserveAll(b, events[..|events| - 1]), events[|events| - 1])
  }

  predicate Idle(b: Bus) {
    b.sda && b.scl && !b.open && b.pending == None && b.bits == []
  }

  lemma {:induction false} ObserveAppend(b: Bus, a: seq<Event>, c: seq<Event>)
    ensures ObserveAll(b, a + c) == ObserveAll(ObserveAll(b, a), c)
    decreases |c|
  {
    if c == [] {
      assert a + c == a;
    } else {
      assert (a + c)[..|a + c| - 1] == a + c[..|c| - 1];
      ObserveAppend(b, a, c[..|c| - 1]);
    }
  }

  lemma ObserveNone(b: Bus)
    ensures ObserveAll(b, []) == b
  {
  }

  lemma ObserveOne(b: Bus, e: Event)
    ensures ObserveAll(b, [e]) == Observe(b, e)
  {
    assert ObserveAll(b, [e][..0]) == b;
  }

  lemma ObserveTwo(b: Bus, e: Event, f: Event)
    ensures ObserveAll(b, [e, f]) == Observe(Observe(b, e), f)
  {
    ObserveOne(b, e);
    assert [e, f][..1] == [e];
  }

  // In the middle of a transfer, between clock pulses.
  predicate Listening(b: Bus) {
    b.open && !b.scl && b.pending == None
  }

  lemma ClockSamples(b: Bus)
    requires Listening(b)
    ensures ObserveAll(b, [Scl(true), Scl(false)]) == b.(bits := b.bits + [b.sda])
  {
    ObserveTwo(b, Scl(true), Scl(false));
  }

  lemma PulseSamples(b: Bus, next: bool)
    requires Listening(b)
    ensures ObserveAll(b, Pulse(b.sda, next)) == b.(sda := next, bits := b.bits + [next])
  {
    var clock := [Scl(true), Scl(false)];
    if b.sda != next {
      ObserveAppend(b, [Sda(next)], clock);
      ObserveOne(b, Sda(next));
      ClockSamples(b.(sda := next));
    } else {
      assert Pulse(b.sda, next) == clock;
      ClockSamples(b);
    }
  }

  function Bits(data: int, i: nat): seq<bool>
    requires i <= 8
  {
    if i == 0 then [] else Bits(data, i - 1) + [Bit(data, i - 1)]
  }

  lemma {:induction false} BitsObserved(b: Bus, data: int, i: nat)
    requires i <= 8 && Listening(b)
    ensures ObserveAll(b, BitPulses(b.sda, data, i)) ==
            b.(sda := LineAfter(b.sda, data, i), bits := b.bits + Bits(data, i))
  {
    if i == 0 {
      assert b.bits + [] == b.bits;
    } else {
      BitsObserved(b, data, i - 1);
      var mid := b.(sda := LineAfter(b.sda, data, i - 1), bits := b.bits + Bits(data, i - 1));
      PulseSamples(mid, Bit(data, i - 1));
      ObserveAppend(b, BitPulses(b.sda, data, i - 1), Pulse(mid.sda, Bit(data, i - 1)));
      assert mid.bits + [Bit(data, i - 1)] == b.bits + Bits(data, i);
    }
  }

  // The samples of a byte: its bits, and the line as the master leaves it.
  function ByteSamples(data: int): seq<bool> {
    Bits(data, 8) + [Bit(data, 7)]
  }

  function Samples(bytes: seq<int>, n: nat): seq<bool>
    requires n <= |bytes|
  {
    if n == 0 then [] else Samples(bytes, n - 1) + ByteSamples(bytes[n - 1])
  }

  lemma ByteObserved(b: Bus, data: int)
    requires Listening(b)
    ensures ObserveAll(b, BytePulse(b.sda, data)) ==
            b.(sda := Bit(data, 7), bits := b.bits + ByteSamples(data))
  {
    hide Bit;
    BitsObserved(b, data, 8);
    var mid := b.(sda := Bit(data, 7), bits := b.bits + Bits(data, 8));
    ClockSamples(mid);
    ObserveAppend(b, BitPulses(b.sda, data, 8), [Scl(true), Scl(false)]);
    assert mid.bits + [Bit(data, 7)] == b.bits + ByteSamples(data);
  }

  lemma {:induction false} BytesObserved(b: Bus, bytes: seq<int>, n: nat)
    requires n <= |bytes| && Listening(b) && !b.sda
    ensures ObserveAll(b, BytePulses(bytes, n)) ==
            b.(sda := LineAfterBytes(bytes, n), bits := b.bits + Samples(bytes, n))
  {
    hide Bit, ObserveAll, BytePulse, ByteSamples;
    if n == 0 {
      ObserveNone(b);
      assert b.bits + [] == b.bits;
    } else {
      BytesObserved(b, bytes, n - 1);
      var mid := b.(sda := LineAfterBytes(bytes, n - 1), bits := b.bits + Samples(bytes, n - 1));
      ByteObserved(mid, bytes[n - 1]);
      ObserveAppend(b, BytePulses(bytes, n - 1), BytePulse(mid.sda, bytes[n - 1]));
      assert mid.bits + ByteSamples(bytes[n - 1]) == b.bits + Samples(bytes, n);
    }
  }

  lemma StartObserved(b: Bus)
    requires Idle(b)
    ensures ObserveAll(b, StartPulse()) ==
            b.(sda := false, scl := false, open := true, starts := b.starts + 1)
  {
    ObserveTwo(b, Sda(false), Scl(false));
  }

  lemma StopObserved(b: Bus)
    requires Listening(b)
    ensures ObserveAll(b, StopPulse(b.sda)) ==
            b.(sda := true, scl := true, open := false, bits := [], frames := b.frames + [b.bits], stops := b.stops + 1)
  {
    var last := [Scl(true), Sda(true)];
    var low := b.(sda := false);
    ObserveTwo(low, Scl(true), Sda(true));
    if b.sda {
      ObserveOne(b, Sda(false));
      ObserveAppend(b, [Sda(false)], last);
    } else {
      assert [] + last == last;
    }
  }

  // From an idle bus, one write is one START, one STOP, one transfer, and an idle bus again:
  // the data line changes at no other moment while the clock is high.
  lemma WriteObserved(b: Bus, bytes: seq<int>)
    requires Idle(b)
    ensures ObserveAll(b, Wave(bytes)) ==
            b.(frames := b.frames + [Samples(bytes, |bytes|)], starts := b.starts + 1, stops := b.stops + 1)
  {
    hide Bit, BytePulses, ObserveAll, Samples, StartPulse, StopPulse, LineAfterBytes;
    var n := |bytes|;
    var begun := b.(sda := false, scl := false, open := true, starts := b.starts + 1);
    var sent := begun.(sda := LineAfterBytes(bytes, n), bits := Samples(bytes, n));
    StartObserved(b);
    BytesObserved(begun, bytes, n);
    assert [] + Samples(bytes, n) == Samples(bytes, n);
    StopObserved(sent);
    ObserveAppend(b, StartPulse(), BytePulses(bytes, n));
    ObserveAppend(b, StartPulse() + BytePulses(bytes, n), StopPulse(sent.sda));
  }

  // ---------- decoding ----------

  function Value(bits: seq<bool>): nat {
    if bits == [] then 0 else 2 * Value(bits[..|bits| - 1]) + if bits[|bits| - 1] then 1 else 0
  }

  // Bytes of a transfer: eight samples, then one that belongs to the acknowledge clock.
  function Decode(bits: seq<bool>): seq<nat> {
    if |bits| < 9 then [] else Decode(bits[..|bits| - 9]) + [Value(bits[|bits| - 9..|bits| - 1])]
  }

  function Power(k: nat): nat {
    if k == 0 then 1 else 2 * Power(k - 1)
  }

  lemma {:induction false} BitsValue(data: int, i: nat)
    requires i <= 8
    ensures |Bits(data, i)| == i
    ensures Value(Bits(data, i)) == Shift(data, 8 - i) - Power(i) * Shift(data, 8)
    ensures Value(Bits(data, i)) < Power(i)
  {
    if i > 0 {
      BitsValue(data, i - 1);
      var before := Bits(data, i - 1);
      assert Bits(data, i)[..i - 1] == before;
      var high, low := Shift(data, 9 - i), Shift(data, 8 - i);
      assert high == low / 2;
      assert low == 2 * high + low % 2;
      PowerDouble(i, Shift(data, 8));
    }
  }

  lemma PowerDouble(i: nat, x: int)
    requires i > 0
    ensures Power(i) * x == 2 * (Power(i - 1) * x)
  {
    assert Power(i) == 2 * Power(i - 1);
  }

  lemma ByteValue(data: int)
    ensures |Bits(data, 8)| == 8 && Value(Bits(data, 8)) == data % 256
  {
    BitsValue(data, 8);
    assert Power(8) == 256 by {
      assert Power(4) == 16;
    }
    assert Shift(data, 0) == data;
  }

  function LowBytes(bytes: seq<int>): seq<nat> {
    if bytes == [] then [] else LowBytes(bytes[..|bytes| - 1]) + [bytes[|bytes| - 1] % 256]
  }

  lemma {:induction false} SamplesDecode(bytes: seq<int>, n: nat)
    requires n <= |bytes|
    ensures Decode(Samples(bytes, n)) == LowBytes(bytes[..n])
  {
    hide Bits, Bit;
    if n > 0 {
      SamplesDecode(bytes, n - 1);
      ByteValue(bytes[n - 1]);
      var s, before := Samples(bytes, n), Samples(bytes, n - 1);
      assert s[..|s| - 9] == before;
      assert s[|s| - 9..|s| - 1] == Bits(bytes[n - 1], 8);
      assert bytes[..n][..n - 1] == bytes[..n - 1];
    }
  }

  // Everything a bus master has written, decoded from the wire.
  function Waves(addr: int, messages: seq<seq<int>>): seq<Event> {
    if messages == [] then [] else
      Waves(addr, messages[..|messages| - 1]) + Wave([addr] + messages[|messages| - 1])
  }

  function DecodeAll(frames: seq<seq<bool>>): seq<seq<nat>> {
    if frames == [] then [] else DecodeAll(frames[..|frames| - 1]) + [Decode(frames[|frames| - 1])]
  }

  function Expected(addr: int, messages: seq<seq<int>>): seq<seq<nat>> {
    if messages == [] then [] else
      Expected(addr, messages[..|messages| - 1]) + [LowBytes([addr] + messages[|messages| - 1])]
  }

  // Any series of writes from an idle bus decodes to the address byte and message of each, in
  // order, with one START and one STOP apiece, and leaves the bus idle.
  lemma {:induction false} WritesDecode(b: Bus, addr: int, messages: seq<seq<int>>)
    requires Idle(b) && b.frames == [] && b.starts == b.stops == 0
    ensures var last := ObserveAll(b, Waves(addr, messages));
            && Idle(last) && DecodeAll(last.frames) == Expected(addr, messages)
            && last.starts == last.stops == |messages|
    decreases |messages|
  {
    if messages != [] {
      var before := messages[..|messages| - 1];
      var bytes := [addr] + messages[|messages| - 1];
      WritesDecode(b, addr, before);
      var mid := ObserveAll(b, Waves(addr, before));
      ObserveAppend(b, Waves(addr, before), Wave(bytes));
      WriteObserved(mid, bytes);
      SamplesDecode(bytes, |bytes|);
      assert bytes[..|bytes|] == bytes;
      var frames := mid.frames + [Samples(bytes, |bytes|)];
      assert frames[..|frames| - 1] == mid.frames;
    }
  }
}
