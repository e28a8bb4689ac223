/** Button state tracking between the host and the micro-controller
    (software/klipper/extras/buttons.py).

    The micro-controller queues debounced button states and repeats them, tagged with an
    8-bit acknowledgement counter, until the host acknowledges them.  The host expands the
    counter, keeps the states it has not seen and turns them into callbacks.  The
    micro-controller's half is a small step relation; history that only the proofs need is
    kept in fields of the model's states. */
module Buttons {

  // A byte of pin states, as the set of bit positions that are one.
  type Bits = set<nat>

  function Xor(a: Bits, b: Bits): Bits {
    (a - b) + (b - a)
  }

  // (button & mask) >> shift
  function Extract(button: Bits, mask: Bits, shift: nat): Bits {
    set i | i in button * mask && i >= shift :: i - shift
  }

  // A registered callback: the pins it watches and where they start.
  datatype Group = Group(mask: Bits, shift: nat)

  // One asynchronous callback: which group, and the value passed to it.
  datatype Event = Event(group: nat, state: Bits)

  const REPORT_CAPACITY: nat := 8

  // ---------- what the host should report for a stream of states ----------

  function LastOr(first: Bits, states: seq<Bits>): Bits {
    if states == [] then first else states[|states| - 1]
  }

  // The callbacks fired by one state change, restricted to the first k groups.
  function Edges(groups: seq<Group>, prev: Bits, cur: Bits, k: nat): seq<Event>
    requires k <= |groups|
  {
    if k == 0 then []
    else
      var g := groups[k - 1];
      Edges(groups, prev, cur, k - 1) +
      if Xor(cur, prev) * g.mask != {} then [Event(k - 1, Extract(cur, g.mask, g.shift))] else []
  }

  // The callbacks fired by a whole stream of states.
  function Trace(groups: seq<Group>, first: Bits, states: seq<Bits>): seq<Event> {
    if states == [] then []
    else
      var before := states[..|states| - 1];
      Trace(groups, first, before) + Edges(groups, LastOr(first, before), states[|states| - 1], |groups|)
  }

  function Invert(states: seq<Bits>, mask: Bits): seq<Bits> {
    seq(|states|, i requires 0 <= i < |states| => Xor(states[i], mask))
  }

  lemma InvertLength(states: seq<Bits>, mask: Bits)
    ensures |Invert(states, mask)| == |states|
  {
  }

  lemma InvertAt(states: seq<Bits>, mask: Bits, i: nat)
    requires i < |states|
    ensures i < |Invert(states, mask)| && Invert(states, mask)[i] == Xor(states[i], mask)
  {
  }

  // Splitting a stream into messages does not change what is reported.
  lemma {:induction false} TraceAppend(groups: seq<Group>, first: Bits, a: seq<Bits>, b: seq<Bits>)
    ensures Trace(groups, first, a + b) == Trace(groups, first, a) + Trace(groups, LastOr(first, a), b)
    decreases |b|
  {
    hide Edges, Trace;
    if b == [] {
      assert a + b == a;
      TraceNone(groups, LastOr(first, a));
    } else {
      var n := |b| - 1;
      TraceAppend(groups, first, a, b[..n]);
      assert (a + b)[..|a| + n] == a + b[..n] && (a + b)[..|a| + n + 1] == a + b && b[..n + 1] == b;
      TraceNext(groups, first, a + b, |a| + n);
      TraceNext(groups, LastOr(first, a), b, n);
    }
  }

  lemma TraceNone(groups: seq<Group>, first: Bits)
    ensures Trace(groups, first, []) == [] && LastOr(first, []) == first
  {
  }

  lemma TraceNext(groups: seq<Group>, first: Bits, states: seq<Bits>, i: nat)
    requires i < |states|
    ensures LastOr(first, states[..i + 1]) == states[i]
    ensures Trace(groups, first, states[..i + 1]) ==
            Trace(groups, first, states[..i]) + Edges(groups, LastOr(first, states[..i]), states[i], |groups|)
  {
    assert states[..i + 1][..i] == states[..i];
  }

  // The values passed to one group's callback, in order.
  function Calls(events: seq<Event>, k: nat): seq<Bits> {
    if events == [] then []
    else
      var e := events[|events| - 1];
      Calls(events[..|events| - 1], k) + if e.group == k then [e.state] else []
  }

  // What a callback watching one group alone would have been told.
  function Changes(g: Group, first: Bits, states: seq<Bits>): seq<Bits> {
    if states == [] then []
    else
      var before := states[..|states| - 1];
      var cur := states[|states| - 1];
      Changes(g, first, before) +
      if LastOr(first, before) * g.mask != cur * g.mask then [Extract(cur, g.mask, g.shift)] else []
  }

  lemma {:induction false} CallsAppend(a: seq<Event>, b: seq<Event>, k: nat)
    ensures Calls(a + b, k) == Calls(a, k) + Calls(b, k)
    decreases |b|
  {
    if b == [] {
      assert a + b == a;
    } else {
      assert (a + b)[..|a + b| - 1] == a + b[..|b| - 1];
      CallsAppend(a, b[..|b| - 1], k);
    }
  }

  lemma MaskedDifference(a: Bits, b: Bits, mask: Bits)
    ensures Xor(a, b) * mask == {} <==> a * mask == b * mask
  {
    if Xor(a, b) * mask == {} {
      forall i ensures i in a * mask <==> i in b * mask {
        assert i !in Xor(a, b) * mask;
      }
    } else {
      var i :| i in Xor(a, b) * mask;
      assert i in a * mask <==> i !in b * mask;
    }
  }

  lemma {:induction false} CallsOfEdges(groups: seq<Group>, prev: Bits, cur: Bits, k: nat, n: nat)
    requires k < |groups| && n <= |groups|
    ensures Calls(Edges(groups, prev, cur, n), k) ==
            if k < n && prev * groups[k].mask != cur * groups[k].mask
            then [Extract(cur, groups[k].mask, groups[k].shift)] else []
  {
    hide Extract, Xor;
    if n > 0 {
      CallsOfEdges(groups, prev, cur, k, n - 1);
      var g := groups[n - 1];
      MaskedDifference(cur, prev, g.mask);
      var tail := if Xor(cur, prev) * g.mask != {} then [Event(n - 1, Extract(cur, g.mask, g.shift))] else [];
      CallsAppend(Edges(groups, prev, cur, n - 1), tail, k);
      if tail != [] {
        assert tail[..|tail| - 1] == [];
        assert Calls(tail, k) == if n - 1 == k then [tail[0].state] else [];
      }
    }
  }

  // Groups do not disturb one another: each callback sees exactly the changes of its own pins.
  lemma {:induction false} GroupSeesItsChanges(groups: seq<Group>, first: Bits, states: seq<Bits>, k: nat)
    requires k < |groups|
    ensures Calls(Trace(groups, first, states), k) == Changes(groups[k], first, states)
    decreases |states|
  {
    if states != [] {
      var before := states[..|states| - 1];
      GroupSeesItsChanges(groups, first, before, k);
      CallsOfEdges(groups, LastOr(first, before), states[|states| - 1], k, |groups|);
      CallsAppend(Trace(groups, first, before),
                  Edges(groups, LastOr(first, before), states[|states| - 1], |groups|), k);
    }
  }

  // ---------- what a callback is told, bit by bit ----------

  // Whether a pin is active: the inverted pins are active at zero.
  predicate Active(state: Bits, invert: Bits, pin: nat) {
    (pin in state) != (pin in invert)
  }

  // Bit i of a reported value is the pin i places above the group's first.
  ghost predicate ShowsPins(value: Bits, g: Group, invert: Bits, state: Bits) {
    forall i: nat :: i in value <==> i + g.shift in g.mask && Active(state, invert, i + g.shift)
  }

  // Whether some pin of the group differs from the state before; at first none is active.
  ghost predicate GroupChanged(g: Group, invert: Bits, states: seq<Bits>)
    requires states != []
  {
    var n := |states| - 1;
    exists pin: nat :: pin in g.mask &&
      Active(states[n], invert, pin) != (n > 0 && Active(states[n - 1], invert, pin))
  }

  // The values a callback must be given for a series of raw states: one for every state in
  // which a pin of its group changes, showing the group's pins as they are then.
  ghost predicate IsTold(g: Group, invert: Bits, states: seq<Bits>, calls: seq<Bits>)
    decreases |states|
  {
    if states == [] then calls == []
    else if !GroupChanged(g, invert, states) then IsTold(g, invert, states[..|states| - 1], calls)
    else
      && calls != []
      && ShowsPins(calls[|calls| - 1], g, invert, states[|states| - 1])
      && IsTold(g, invert, states[..|states| - 1], calls[..|calls| - 1])
  }

  lemma XorBits(a: Bits, b: Bits, i: nat)
    ensures i in Xor(a, b) <==> Active(a, b, i)
  {
  }

  lemma ExtractBits(button: Bits, mask: Bits, shift: nat, i: nat)
    ensures i in Extract(button, mask, shift) <==> i + shift in button && i + shift in mask
  {
    var j := i + shift;
    if j in button * mask {
      assert j - shift in Extract(button, mask, shift);
    }
  }

  lemma ExtractShows(g: Group, invert: Bits, state: Bits)
    ensures ShowsPins(Extract(Xor(state, invert), g.mask, g.shift), g, invert, state)
  {
    forall i: nat
      ensures i in Extract(Xor(state, invert), g.mask, g.shift) <==>
              i + g.shift in g.mask && Active(state, invert, i + g.shift)
    {
      XorBits(state, invert, i + g.shift);
      ExtractBits(Xor(state, invert), g.mask, g.shift, i);
    }
  }

  lemma MaskedLevels(g: Group, invert: Bits, states: seq<Bits>)
    requires states != []
    ensures var n := |states| - 1;
            var before := if n == 0 then {} else Xor(states[n - 1], invert);
            before * g.mask != Xor(states[n], invert) * g.mask <==> GroupChanged(g, invert, states)
  {
    hide Xor;
    var n := |states| - 1;
    var before := if n == 0 then {} else Xor(states[n - 1], invert);
    var now := Xor(states[n], invert);
    forall pin: nat
      ensures (pin in now <==> Active(states[n], invert, pin)) && (pin in before <==> n > 0 && Active(states[n - 1], invert, pin))
    {
      XorBits(states[n], invert, pin);
      if n > 0 {
        XorBits(states[n - 1], invert, pin);
      }
    }
    if before * g.mask != now * g.mask {
      var pin :| pin in before * g.mask + now * g.mask && !(pin in before * g.mask && pin in now * g.mask);
      assert pin in g.mask && (pin in now) != (pin in before);
    }
    if GroupChanged(g, invert, states) {
      var pin: nat :| pin in g.mask && Active(states[n], invert, pin) != (n > 0 && Active(states[n - 1], invert, pin));
      assert (pin in now * g.mask) != (pin in before * g.mask);
    }
  }

  lemma {:induction false} ChangesAreTold(g: Group, invert: Bits, states: seq<Bits>)
    ensures IsTold(g, invert, states, Changes(g, {}, Invert(states, invert)))
    decreases |states|
  {
    hide Xor, Extract, ShowsPins, GroupChanged;
    if states != [] {
      var n := |states| - 1;
      ChangesAreTold(g, invert, states[..n]);
      MaskedLevels(g, invert, states);
      ExtractShows(g, invert, states[n]);
      ChangesNext(g, invert, states);
      var before, calls := Changes(g, {}, Invert(states[..n], invert)), Changes(g, {}, Invert(states, invert));
      assert calls != before ==> calls[..|calls| - 1] == before;
    }
  }

  lemma ChangesNext(g: Group, invert: Bits, states: seq<Bits>)
    requires states != []
    ensures var n := |states| - 1;
            var before := if n == 0 then {} else Xor(states[n - 1], invert);
            var now := Xor(states[n], invert);
            Changes(g, {}, Invert(states, invert)) ==
            Changes(g, {}, Invert(states[..n], invert)) +
            if before * g.mask != now * g.mask then [Extract(now, g.mask, g.shift)] else []
  {
    hide Xor, Extract;
    var n := |states| - 1;
    assert Invert(states, invert)[..n] == Invert(states[..n], invert);
  }

  // The last value a callback was given shows its pins as they are now; without any call, none
  // of them is active.
  lemma {:induction false} LastCallIsCurrent(g: Group, invert: Bits, states: seq<Bits>, calls: seq<Bits>)
    requires IsTold(g, invert, states, calls)
    ensures calls == [] ==> forall pin: nat :: pin in g.mask ==> states == [] || !Active(states[|states| - 1], invert, pin)
    ensures calls != [] ==> states != [] && ShowsPins(calls[|calls| - 1], g, invert, states[|states| - 1])
    decreases |states|
  {
    if states != [] {
      var n := |states| - 1;
      if !GroupChanged(g, invert, states) {
        LastCallIsCurrent(g, invert, states[..n], calls);
      }
    }
  }

  // Groups registered in turn: each has the block of pins that starts where the last one ends.
  function Pins(from: nat, to: nat): (pins: Bits)
    ensures forall i: nat :: i in pins <==> from <= i < to
  {
    if to <= from then {} else Pins(from, to - 1) + {to - 1}
  }

  predicate InTurn(groups: seq<Group>, pinCount: nat) {
    if groups == [] then pinCount == 0
    else
      var g := groups[|groups| - 1];
      g.shift <= pinCount && g.mask == Pins(g.shift, pinCount) && InTurn(groups[..|groups| - 1], g.shift)
  }

  // The number of pins of a group.
  lemma {:induction false} GroupSize(groups: seq<Group>, pinCount: nat, k: nat) returns (size: nat)
    requires InTurn(groups, pinCount) && k < |groups|
    ensures groups[k].mask == Pins(groups[k].shift, groups[k].shift + size) && groups[k].shift + size <= pinCount
  {
    var last := groups[|groups| - 1];
    if k == |groups| - 1 {
      size := pinCount - last.shift;
    } else {
      size := GroupSize(groups[..|groups| - 1], last.shift, k);
    }
  }

  // A callback of such a group is told all its pins and nothing else.
  lemma TellsAllPins(value: Bits, g: Group, size: nat, invert: Bits, state: Bits)
    requires g.mask == Pins(g.shift, g.shift + size) && ShowsPins(value, g, invert, state)
    ensures forall i: nat :: i in value <==> i < size && Active(state, invert, i + g.shift)
  {
  }

  // ---------- the host's message handler ----------

  // The signed distance of an 8-bit counter from the host's unbounded one.
  function SignedDiff(msgAck: int, ackCount: int): int {
    var d := (msgAck - ackCount) % 256;
    if d >= 128 then d - 256 else d
  }

  function NewCount(ackCount: int, msgAck: int, len: nat): int {
    ackCount + SignedDiff(msgAck, ackCount) + len - ackCount
  }

  // The last n entries, or everything when there are fewer, like a negative slice start.
  function Suffix(states: seq<Bits>, n: int): seq<Bits>
    requires n > 0
  {
    if n >= |states| then states else states[|states| - n..]
  }

  datatype Host = Host(ackCount: int, lastButton: Bits, processed: seq<Bits>, fired: seq<Event>, acks: seq<int>)

  // Take the last n states of a message, when n is positive.
  function Accept(groups: seq<Group>, invert: Bits, h: Host, state: seq<Bits>, n: int): Host {
    if n <= 0 then h
    else
      var added := Suffix(state, n);
      var seen := Invert(added, invert);
      Host(h.ackCount + n, LastOr(h.lastButton, seen), h.processed + added,
           h.fired + Trace(groups, h.lastButton, seen), h.acks + [n])
  }

  function Handle(groups: seq<Group>, invert: Bits, h: Host, msgAck: int, state: seq<Bits>): Host {
    Accept(groups, invert, h, state, NewCount(h.ackCount, msgAck, |state|))
  }

  class McuButtons {
    var invert: Bits
    var lastButton: Bits
    var ackCount: int
    var callbacks: seq<Group>
    var acksSent: seq<int>
    var fired: seq<Event>
    ghost var processed: seq<Bits>
    var pinCount: nat

    constructor ()
      ensures invert == {} && callbacks == [] && pinCount == 0 && InTurn(callbacks, pinCount)
      ensures View() == Host(0, {}, [], [], [])
    {
      invert, callbacks, pinCount := {}, [], 0;
      lastButton, ackCount := {}, 0;
      acksSent, fired, processed := [], [], [];
    }

    ghost function View(): Host
      reads this
    {
      Host(ackCount, lastButton, processed, fired, acksSent)
    }

    // Registers a callback for some pins, each inverted or not.
    method SetupButtons(inverted: seq<bool>)
      requires InTurn(callbacks, pinCount)
      modifies this`invert, this`callbacks, this`pinCount
      ensures InTurn(callbacks, pinCount) && pinCount == old(pinCount) + |inverted|
      ensures |callbacks| == |old(callbacks)| + 1 && callbacks[..|old(callbacks)|] == old(callbacks)
      ensures callbacks[|old(callbacks)|] == Group(Pins(old(pinCount), pinCount), old(pinCount))
      ensures forall pin: nat ::
                pin in invert <==> pin in old(invert) || (old(pinCount) <= pin < pinCount && inverted[pin - old(pinCount)])
    {
      var mask: Bits := {};
      var shift := pinCount;
      for k := 0 to |inverted|
        invariant pinCount == shift + k && mask == Pins(shift, pinCount) && callbacks == old(callbacks)
        invariant forall pin: nat ::
                    pin in invert <==> pin in old(invert) || (shift <= pin < pinCount && inverted[pin - shift])
      {
        if inverted[k] {
          invert := invert + {pinCount};
        }
        mask := mask + {pinCount};
        pinCount := pinCount + 1;
      }
      callbacks := callbacks + [Group(mask, shift)];
      assert callbacks[..|callbacks| - 1] == old(callbacks);
    }

    method HandleButtonsState(msgAck: int, state: seq<Bits>)
      requires 0 <= msgAck < 256
      modifies this
      ensures invert == old(invert) && callbacks == old(callbacks)
      ensures View() == Handle(callbacks, invert, old(View()), msgAck, state)
    {
      // Expand the message counter from 8 bits
      var ackDiff := (msgAck - ackCount) % 256;
      if ackDiff >= 128 {
        ackDiff := ackDiff - 256;
      }
      assert ackDiff == SignedDiff(msgAck, ackCount);
      var msgAckCount := ackCount + ackDiff;
      // Determine the new buttons
      var newCount := msgAckCount + |state| - ackCount;
      assert newCount == NewCount(ackCount, msgAck, |state|);
      ProcessNew(state, newCount);
    }

    // The rest of HandleButtonsState, once the number of new states is known.
    method ProcessNew(state: seq<Bits>, newCount: int)
      modifies this
      ensures invert == old(invert) && callbacks == old(callbacks)
      ensures View() == Accept(callbacks, invert, old(View()), state, newCount)
    {
      hide Edges, Trace, LastOr, Xor, Invert, Suffix;
      if newCount <= 0 {
        return;
      }
      var newButtons := Suffix(state, newCount);
      acksSent := acksSent + [newCount];
      ackCount := ackCount + newCount;
      processed := processed + newButtons;
      ghost var first, before, seen := lastButton, fired, Invert(newButtons, invert);
      TraceNone(callbacks, first);
      for i := 0 to |newButtons|
        invariant invert == old(invert) && callbacks == old(callbacks)
        invariant ackCount == old(ackCount) + newCount && acksSent == old(acksSent) + [newCount]
        invariant processed == old(processed) + newButtons
        invariant i <= |seen| && lastButton == LastOr(first, seen[..i]) && fired == before + Trace(callbacks, first, seen[..i])
      {
        InvertAt(newButtons, invert, i);
        TraceNext(callbacks, first, seen, i);
        NoteButton(Xor(newButtons[i], invert));
      }
      InvertLength(newButtons, invert);
      assert seen[..|newButtons|] == seen;
    }

    // The inner loop of HandleButtonsState.
    method NoteButton(button: Bits)
      modifies this`lastButton, this`fired
      ensures lastButton == button
      ensures fired == old(fired) + Edges(callbacks, old(lastButton), button, |callbacks|)
    {
      var changed := Xor(button, lastButton);
      lastButton := button;
      for k := 0 to |callbacks|
        invariant lastButton == button
        invariant fired == old(fired) + Edges(callbacks, old(lastButton), button, k)
      {
        if changed * callbacks[k].mask != {} {
          fired := fired + [Event(k, Extract(button, callbacks[k].mask, callbacks[k].shift))];
        }
      }
    }
  }

  // ---------- the protocol ----------

  // A message on the wire; `base` is the true count its 8-bit counter stands for.
  datatype Packet = Packet(ackByte: int, state: seq<Bits>, base: int)

  datatype System = System(
    produced: seq<Bits>,      // every state the micro-controller ever queued
    released: int,           // how many of them it has dropped as acknowledged
    ackByte: int,            // its 8-bit counter
    reports: seq<Bits>,       // its queue
    sent: set<Packet>,       // every message ever sent; any of them may arrive, at any time, repeatedly
    acks: seq<int>,          // acknowledgements under way to the micro-controller, in order
    host: Host)

  predicate Init(s: System) {
    s == System([], 0, 0, [], {}, [], Host(0, {}, [], [], []))
  }

  datatype Step =
    | Report(button: Bits)
    | Transmit
    | Arrive(packet: Packet)
    | Acknowledge

  // How many acknowledgements behind the host a message is when it arrives.
  function Staleness(s: System, p: Packet): int {
    s.host.ackCount - p.base
  }

  predicate Enabled(s: System, step: Step) {
    match step
    case Report(_) => |s.reports| < REPORT_CAPACITY
    case Transmit => true
    case Arrive(p) => p in s.sent && Staleness(s, p) <= 128
    case Acknowledge => s.acks != []
  }

  function Next(groups: seq<Group>, invert: Bits, s: System, step: Step): System
    requires Enabled(s, step)
  {
    match step
    case Report(b) => s.(produced := s.produced + [b], reports := s.reports + [b])
    case Transmit => s.(sent := s.sent + {Packet(s.ackByte, s.reports, s.released)})
    case Arrive(p) =>
      var h := Handle(groups, invert, s.host, p.ackByte, p.state);
      // the host sends an acknowledgement, its count in one byte, when it took new states
      var n := NewCount(s.host.ackCount, p.ackByte, |p.state|);
      s.(host := h, acks := if n <= 0 then s.acks else s.acks + [n % 256])
    case Acknowledge =>
      var count := s.acks[0];
      s.(acks := s.acks[1..], released := s.released + count, ackByte := (s.ackByte + count) % 256,
         reports := if count >= |s.reports| then [] else s.reports[if count < 0 then 0 else count..])
  }

  function Sum(xs: seq<int>): int {
    if xs == [] then 0 else xs[0] + Sum(xs[1..])
  }

  lemma {:induction false} SumAppend(xs: seq<int>, x: int)
    ensures Sum(xs + [x]) == Sum(xs) + x
  {
    if xs != [] {
      assert (xs + [x])[1..] == xs[1..] + [x];
      SumAppend(xs[1..], x);
    }
  }

  lemma {:induction false} SumPositive(xs: seq<int>)
    requires forall i :: 0 <= i < |xs| ==> xs[i] > 0
    ensures Sum(xs) >= |xs|
  {
    if xs != [] {
      SumPositive(xs[1..]);
    }
  }

  ghost predicate GoodPacket(s: System, p: Packet) {
    && p.ackByte == p.base % 256
    && 0 <= p.base <= s.released && p.base + |p.state| <= |s.produced|
    && p.state == s.produced[p.base..p.base + |p.state|] && |p.state| <= REPORT_CAPACITY
  }

  ghost predicate HostAgrees(groups: seq<Group>, invert: Bits, h: Host, produced: seq<Bits>) {
    && 0 <= h.ackCount <= |produced|
    && h.processed == produced[..h.ackCount]
    && h.lastButton == LastOr({}, Invert(h.processed, invert))
    && h.fired == Trace(groups, {}, Invert(h.processed, invert))
  }

  // The micro-controller's queue holds exactly the states it has not released.
  ghost predicate QueueAgrees(s: System) {
    && |s.reports| <= REPORT_CAPACITY
    && 0 <= s.released <= |s.produced| && s.reports == s.produced[s.released..]
    && s.ackByte == s.released % 256
  }

  // Acknowledgements under way account for the difference between the two counters.
  ghost predicate AcksAgree(s: System) {
    && (forall i :: 0 <= i < |s.acks| ==> s.acks[i] > 0)
    && s.released + Sum(s.acks) == s.host.ackCount
  }

  ghost predicate PacketsGood(s: System) {
    forall p :: p in s.sent ==> GoodPacket(s, p)
  }

  ghost predicate Inv(groups: seq<Group>, invert: Bits, s: System) {
    HostAgrees(groups, invert, s.host, s.produced) && QueueAgrees(s) && AcksAgree(s) && PacketsGood(s)
  }

  // The counter expands to the true count exactly when it is within half its range.
  lemma CounterExpands(base: nat, ackCount: int)
    ensures ackCount + SignedDiff(base % 256, ackCount) == base <==> -128 <= base - ackCount <= 127
  {
    var k := (base - ackCount) / 256;
    assert (base % 256 - ackCount) % 256 == (base - ackCount) % 256 by {
      assert base == base / 256 * 256 + base % 256;
      ModShift(base % 256 - ackCount, base / 256);
    }
    assert base - ackCount == k * 256 + (base - ackCount) % 256;
  }

  lemma ModShift(x: int, k: int)
    ensures (x + k * 256) % 256 == x % 256
  {
    var q, r := x / 256, x % 256;
    assert x + k * 256 == (q + k) * 256 + r;
  }

  // Taking the states from the host's count up to `upto` extends the processed prefix.
  lemma AcceptExtendsPrefix(groups: seq<Group>, invert: Bits, h: Host, produced: seq<Bits>, state: seq<Bits>, upto: int)
    requires HostAgrees(groups, invert, h, produced)
    requires h.ackCount < upto <= |produced| && upto - |state| <= h.ackCount
    requires 0 <= upto - |state| && state == produced[upto - |state|..upto]
    ensures var h' := Accept(groups, invert, h, state, upto - h.ackCount);
            && HostAgrees(groups, invert, h', produced)
            && h'.ackCount == upto && h'.acks == h.acks + [upto - h.ackCount]
  {
    hide Trace, Edges;
    var n := upto - h.ackCount;
    var added := Suffix(state, n);
    assert added == produced[h.ackCount..upto];
    assert h.processed + added == produced[..upto];
    var a, b := Invert(h.processed, invert), Invert(added, invert);
    assert Invert(h.processed + added, invert) == a + b;
    TraceAppend(groups, {}, a, b);
  }

  // A true message at most 128 acknowledgements stale is expanded to its true end.
  lemma NewCountIsTrue(ackCount: int, base: nat, len: nat)
    requires base <= ackCount <= base + 128
    ensures NewCount(ackCount, base % 256, len) == base + len - ackCount
  {
    CounterExpands(base, ackCount);
  }

  // A true message at most 128 acknowledgements stale adds exactly the states not yet seen.
  lemma HandleExtendsPrefix(groups: seq<Group>, invert: Bits, h: Host, produced: seq<Bits>, base: nat, state: seq<Bits>)
    requires HostAgrees(groups, invert, h, produced)
    requires base <= h.ackCount <= base + 128
    requires base + |state| <= |produced| && state == produced[base..base + |state|]
    ensures var h' := Handle(groups, invert, h, base % 256, state);
            && HostAgrees(groups, invert, h', produced)
            && (base + |state| <= h.ackCount ==> h' == h)
            && (base + |state| > h.ackCount ==>
                  h'.ackCount == base + |state| && h'.acks == h.acks + [base + |state| - h.ackCount])
  {
    NewCountIsTrue(h.ackCount, base, |state|);
    if base + |state| > h.ackCount {
      AcceptExtendsPrefix(groups, invert, h, produced, state, base + |state|);
    }
  }

  lemma ReportKeepsInv(groups: seq<Group>, invert: Bits, s: System, b: Bits)
    requires Inv(groups, invert, s) && Enabled(s, Report(b))
    ensures Inv(groups, invert, Next(groups, invert, s, Report(b)))
  {
    var s' := Next(groups, invert, s, Report(b));
    assert s'.produced[..s.host.ackCount] == s.produced[..s.host.ackCount];
    forall p | p in s.sent ensures GoodPacket(s', p) {
      assert GoodPacket(s, p);
      assert s'.produced[p.base..p.base + |p.state|] == s.produced[p.base..p.base + |p.state|];
    }
  }

  // Accepting n new states and sending their acknowledgement keeps the invariant.
  lemma AcceptKeepsInv(groups: seq<Group>, invert: Bits, s: System, h: Host, n: int)
    requires Inv(groups, invert, s)
    requires HostAgrees(groups, invert, h, s.produced)
    requires n > 0 && h.ackCount == s.host.ackCount + n
    ensures n <= REPORT_CAPACITY && Inv(groups, invert, s.(host := h, acks := s.acks + [n]))
  {
    hide Trace, Invert;
    SumPositive(s.acks);
    SumAppend(s.acks, n);
    assert |s.reports| == |s.produced| - s.released;
    var s' := s.(host := h, acks := s.acks + [n]);
    forall q | q in s'.sent ensures GoodPacket(s', q) {
      assert GoodPacket(s, q);
    }
  }

  // What the arrival of a true message does, without the 8-bit arithmetic.
  lemma ArriveEffect(groups: seq<Group>, invert: Bits, s: System, p: Packet)
    requires Enabled(s, Arrive(p)) && GoodPacket(s, p) && p.base <= s.host.ackCount
    ensures var n := p.base + |p.state| - s.host.ackCount;
            Next(groups, invert, s, Arrive(p)) ==
            if n <= 0 then s
            else s.(host := Accept(groups, invert, s.host, p.state, n), acks := s.acks + [n])
  {
    hide Trace, NewCount;
    NewCountIsTrue(s.host.ackCount, p.base, |p.state|);
    var n := p.base + |p.state| - s.host.ackCount;
    assert NewCount(s.host.ackCount, p.ackByte, |p.state|) == n;
    assert n > 0 ==> n % 256 == n;
    if n > 0 {
      assert Next(groups, invert, s, Arrive(p)).host == Accept(groups, invert, s.host, p.state, n);
      assert Next(groups, invert, s, Arrive(p)).acks == s.acks + [n];
    }
  }

  lemma ArriveKeepsInv(groups: seq<Group>, invert: Bits, s: System, p: Packet)
    requires Inv(groups, invert, s) && Enabled(s, Arrive(p))
    ensures Inv(groups, invert, Next(groups, invert, s, Arrive(p)))
  {
    hide Trace, Accept, Invert, NewCount, Sum, Next;
    assert GoodPacket(s, p);
    SumPositive(s.acks);
    ArriveEffect(groups, invert, s, p);
    var upto := p.base + |p.state|;
    if upto > s.host.ackCount {
      AcceptExtendsPrefix(groups, invert, s.host, s.produced, p.state, upto);
      var n := upto - s.host.ackCount;
      AcceptKeepsInv(groups, invert, s, Accept(groups, invert, s.host, p.state, n), n);
    }
  }

  lemma AcknowledgeKeepsInv(groups: seq<Group>, invert: Bits, s: System)
    requires Inv(groups, invert, s) && Enabled(s, Acknowledge)
    ensures Inv(groups, invert, Next(groups, invert, s, Acknowledge))
  {
    hide Trace, Invert;
    var s' := Next(groups, invert, s, Acknowledge);
    SumPositive(s.acks[1..]);
    AddModulo(s.released, s.acks[0]);
    assert s.acks[0] <= |s.reports| by {
      assert |s.reports| == |s.produced| - s.released;
    }
    forall q | q in s'.sent ensures GoodPacket(s', q) {
      assert GoodPacket(s, q);
    }
  }

  lemma StepKeepsInv(groups: seq<Group>, invert: Bits, s: System, step: Step)
    requires Inv(groups, invert, s) && Enabled(s, step)
    ensures Inv(groups, invert, Next(groups, invert, s, step))
  {
    match step
    case Report(b) => ReportKeepsInv(groups, invert, s, b);
    case Transmit =>
      var s' := Next(groups, invert, s, Transmit);
      forall q | q in s'.sent ensures GoodPacket(s', q) {
        if q in s.sent {
          assert GoodPacket(s, q);
        }
      }
    case Arrive(p) => ArriveKeepsInv(groups, invert, s, p);
    case Acknowledge => AcknowledgeKeepsInv(groups, invert, s);
  }

  lemma AddModulo(a: int, b: int)
    ensures (a % 256 + b) % 256 == (a + b) % 256
  {
    ModShift(a % 256 + b, a / 256);
  }

  // A run is any sequence of steps each of which is enabled when it is taken.
  predicate Legal(groups: seq<Group>, invert: Bits, s: System, steps: seq<Step>)
    decreases |steps|
  {
    steps == [] || (Enabled(s, steps[0]) && Legal(groups, invert, Next(groups, invert, s, steps[0]), steps[1..]))
  }

  function After(groups: seq<Group>, invert: Bits, s: System, steps: seq<Step>): System
    requires Legal(groups, invert, s, steps)
    decreases |steps|
  {
    if steps == [] then s else After(groups, invert, Next(groups, invert, s, steps[0]), steps[1..])
  }

  lemma InitInv(groups: seq<Group>, invert: Bits, s: System)
    requires Init(s)
    ensures Inv(groups, invert, s)
  {
    assert Invert(s.host.processed, invert) == [];
  }

  lemma {:induction false} RunKeepsInv(groups: seq<Group>, invert: Bits, s: System, steps: seq<Step>)
    requires Inv(groups, invert, s) && Legal(groups, invert, s, steps)
    ensures Inv(groups, invert, After(groups, invert, s, steps))
    decreases |steps|
  {
    if steps != [] {
      StepKeepsInv(groups, invert, s, steps[0]);
      RunKeepsInv(groups, invert, Next(groups, invert, s, steps[0]), steps[1..]);
    }
  }

  // Exactly-once delivery over every run, and each callback sees exactly its own pins' changes.
  lemma ExactlyOnceDelivery(groups: seq<Group>, invert: Bits, start: System, steps: seq<Step>)
    requires Init(start) && Legal(groups, invert, start, steps)
    ensures var s := After(groups, invert, start, steps);
            && s.host.processed <= s.produced && |s.host.processed| == s.host.ackCount
            && s.released <= s.host.ackCount <= s.released + REPORT_CAPACITY
            && forall k :: 0 <= k < |groups| ==> IsTold(groups[k], invert, s.host.processed, Calls(s.host.fired, k))
  {
    hide Init, Legal, After, Next, Trace, Changes, Calls, Invert, PacketsGood, IsTold;
    var s := After(groups, invert, start, steps);
    InitInv(groups, invert, start);
    RunKeepsInv(groups, invert, start, steps);
    SumPositive(s.acks);
    forall k | 0 <= k < |groups| ensures IsTold(groups[k], invert, s.host.processed, Calls(s.host.fired, k)) {
      GroupSeesItsChanges(groups, {}, Invert(s.host.processed, invert), k);
      ChangesAreTold(groups[k], invert, s.host.processed);
    }
  }

  // One fresh transmission is enough to catch up, however many earlier ones were lost,
  // and once its acknowledgements arrive the micro-controller's queue is empty.
  lemma RetransmitCatchesUp(groups: seq<Group>, invert: Bits, start: System, steps: seq<Step>)
    requires Init(start) && Legal(groups, invert, start, steps)
    ensures var s := After(groups, invert, start, steps);
            var p := Packet(s.ackByte, s.reports, s.released);
            var t := Next(groups, invert, s, Transmit);
            && Enabled(t, Arrive(p))
            && Next(groups, invert, t, Arrive(p)).host.processed == s.produced
  {
    hide Init, Legal, After, Trace, Invert, NewCount, Handle, PacketsGood;
    var s := After(groups, invert, start, steps);
    InitInv(groups, invert, start);
    RunKeepsInv(groups, invert, start, steps);
    SumPositive(s.acks);
    StepKeepsInv(groups, invert, s, Transmit);
    HandleExtendsPrefix(groups, invert, s.host, s.produced, s.released, s.reports);
  }

  lemma QuiescentQueueIsEmpty(groups: seq<Group>, invert: Bits, start: System, steps: seq<Step>)
    requires Init(start) && Legal(groups, invert, start, steps)
    ensures var s := After(groups, invert, start, steps);
            s.acks == [] && s.host.processed == s.produced ==> s.reports == []
  {
    hide Init, Legal, After, Next, Trace, Invert, PacketsGood;
    var s := After(groups, invert, start, steps);
    InitInv(groups, invert, start);
    RunKeepsInv(groups, invert, start, steps);
  }

  // Why the bound of 128: an old duplicate, all of whose states were processed long ago, is
  // ignored exactly when its staleness modulo 256 lies between its length and 128.
  lemma DuplicateIgnoredIff(groups: seq<Group>, invert: Bits, h: Host, base: nat, state: seq<Bits>)
    requires base + |state| <= h.ackCount && |state| <= REPORT_CAPACITY
    ensures Handle(groups, invert, h, base % 256, state) == h
            <==> |state| <= (h.ackCount - base) % 256 <= 128
  {
    var k := h.ackCount - base;
    var r := k % 256;
    assert (base % 256 - h.ackCount) % 256 == (-r) % 256 by {
      ModShift(base % 256 - h.ackCount, base / 256);
      assert base % 256 - h.ackCount + base / 256 * 256 == -k;
      ModShift(-r, -(k / 256));
      assert -k == -r + -(k / 256) * 256;
    }
    assert SignedDiff(base % 256, h.ackCount) == if r <= 128 then -r else 256 - r;
  }

  lemma {:induction false} RunAppend(groups: seq<Group>, invert: Bits, s: System, a: seq<Step>, b: seq<Step>)
    requires Legal(groups, invert, s, a) && Legal(groups, invert, After(groups, invert, s, a), b)
    ensures Legal(groups, invert, s, a + b)
    ensures After(groups, invert, s, a + b) == After(groups, invert, After(groups, invert, s, a), b)
    decreases |a|
  {
    hide Enabled, Next;
    if a == [] {
      assert a + b == b;
    } else {
      assert (a + b)[0] == a[0] && (a + b)[1..] == a[1..] + b;
      RunAppend(groups, invert, Next(groups, invert, s, a[0]), a[1..], b);
    }
  }

  lemma RunOne(groups: seq<Group>, invert: Bits, s: System, step: Step)
    requires Enabled(s, step)
    ensures Legal(groups, invert, s, [step]) && After(groups, invert, s, [step]) == Next(groups, invert, s, step)
  {
    hide Enabled, Next;
    assert [step][1..] == [];
  }

  // Nothing is under way: the micro-controller has released all it produced.
  ghost predicate Quiet(s: System) {
    s.acks == [] && s.reports == [] && s.released == |s.produced|
  }

  // One state is produced, sent, received and acknowledged.
  function Round(s: System, b: Bits): seq<Step> {
    [Report(b), Transmit, Arrive(Packet(s.ackByte, [b], s.released)), Acknowledge]
  }

  lemma RoundIsQuiet(groups: seq<Group>, invert: Bits, s: System, b: Bits)
    requires Inv(groups, invert, s) && Quiet(s)
    ensures Legal(groups, invert, s, Round(s, b))
    ensures var t := After(groups, invert, s, Round(s, b));
            && Inv(groups, invert, t) && Quiet(t) && t.produced == s.produced + [b]
            && t.sent == s.sent + {Packet(s.ackByte, [b], s.released)}
  {
    hide Inv, Accept, Legal, After;
    var p := Packet(s.ackByte, [b], s.released);
    assert s.reports + [b] == [b] && s.acks + [1] == [1] && [b][1..] == [];
    var r := Next(groups, invert, s, Report(b));
    StepKeepsInv(groups, invert, s, Report(b));
    var sent := Next(groups, invert, r, Transmit);
    StepKeepsInv(groups, invert, r, Transmit);
    QuietHost(groups, invert, s);
    ReceiveOne(groups, invert, sent, p);
    var got := Next(groups, invert, sent, Arrive(p));
    StepKeepsInv(groups, invert, sent, Arrive(p));
    StepKeepsInv(groups, invert, got, Acknowledge);
    FourSteps(groups, invert, s, Report(b), Transmit, Arrive(p), Acknowledge);
  }

  lemma QuietHost(groups: seq<Group>, invert: Bits, s: System)
    requires Inv(groups, invert, s) && Quiet(s)
    ensures s.host.ackCount == s.released && s.host.processed == s.produced && s.ackByte == s.released % 256
  {
    hide Trace, Invert, PacketsGood;
  }

  lemma ReceiveOne(groups: seq<Group>, invert: Bits, s: System, p: Packet)
    requires Inv(groups, invert, s) && p in s.sent && s.host.ackCount == p.base && |p.state| == 1
    ensures Enabled(s, Arrive(p)) && Next(groups, invert, s, Arrive(p)).acks == s.acks + [1]
    ensures var t := Next(groups, invert, s, Arrive(p));
            t.produced == s.produced && t.reports == s.reports && t.released == s.released && t.sent == s.sent
  {
    hide Trace, Accept, Invert, NewCount, Next;
    assert GoodPacket(s, p);
    ArriveEffect(groups, invert, s, p);
  }

  lemma FourSteps(groups: seq<Group>, invert: Bits, s: System, a: Step, b: Step, c: Step, d: Step)
    requires Enabled(s, a)
    requires var s1 := Next(groups, invert, s, a);
             && Enabled(s1, b)
             && var s2 := Next(groups, invert, s1, b);
                Enabled(s2, c) && Enabled(Next(groups, invert, s2, c), d)
    ensures Legal(groups, invert, s, [a, b, c, d])
    ensures After(groups, invert, s, [a, b, c, d]) ==
            Next(groups, invert, Next(groups, invert, Next(groups, invert, Next(groups, invert, s, a), b), c), d)
  {
    hide Enabled, Next;
    var s1 := Next(groups, invert, s, a);
    var s2 := Next(groups, invert, s1, b);
    var s3 := Next(groups, invert, s2, c);
    RunOne(groups, invert, s3, d);
    RunOne(groups, invert, s2, c);
    RunAppend(groups, invert, s2, [c], [d]);
    RunOne(groups, invert, s1, b);
    RunAppend(groups, invert, s1, [b], [c] + [d]);
    RunOne(groups, invert, s, a);
    RunAppend(groups, invert, s, [a], [b] + ([c] + [d]));
    assert [a] + ([b] + ([c] + [d])) == [a, b, c, d];
  }

  // Every series of states can be delivered one at a time.
  lemma {:induction false} Rounds(groups: seq<Group>, invert: Bits, start: System, states: seq<Bits>)
    returns (steps: seq<Step>)
    requires Init(start)
    ensures Legal(groups, invert, start, steps)
    ensures var s := After(groups, invert, start, steps);
            && Inv(groups, invert, s) && Quiet(s) && s.produced == states
            && (states != [] ==> Packet(0, [states[0]], 0) in s.sent)
  {
    hide Inv, Enabled, Next;
    if states == [] {
      steps := [];
      InitInv(groups, invert, start);
    } else {
      var n := |states| - 1;
      var before := Rounds(groups, invert, start, states[..n]);
      var s := After(groups, invert, start, before);
      QuietHost(groups, invert, s);
      RoundIsQuiet(groups, invert, s, states[n]);
      RunAppend(groups, invert, start, before, Round(s, states[n]));
      steps := before + Round(s, states[n]);
    }
  }

  // A message 129 acknowledgements old that can arise: after 129 states were delivered in turn,
  // the very first message arrives once more.  Its state is handled again and the host's
  // counter runs ahead of the micro-controller.
  lemma StaleMessageIsReplayed(groups: seq<Group>, invert: Bits, start: System, states: seq<Bits>)
    returns (steps: seq<Step>, p: Packet)
    requires Init(start) && |states| == 129
    ensures Legal(groups, invert, start, steps)
    ensures var s := After(groups, invert, start, steps);
            && s.produced == states == s.host.processed
            && p in s.sent && Staleness(s, p) == 129
            && var h := Handle(groups, invert, s.host, p.ackByte, p.state);
               h.processed == states + [states[0]] && h.ackCount == 257
  {
    hide Inv, Legal, After, Trace;
    steps := Rounds(groups, invert, start, states);
    p := Packet(0, [states[0]], 0);
    QuietHost(groups, invert, After(groups, invert, start, steps));
  }
}
