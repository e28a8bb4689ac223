/** Looping over a section of a print file (software/klipper/extras/sdcard_loop.py), driven by
    the file reader of software/klipper/extras/virtual_sdcard.py.

    A file is a sequence of lines and a file position is a line number.  The loop commands are
    a stack machine over positions; the theorems relate it to structured loops. */
module SdcardLoop {

  datatype Line = Command(text: string) | LoopBegin(count: nat) | LoopEnd

  // A pending loop: repetitions left (0 for ever) and the position to return to.
  datatype Frame = Frame(count: nat, position: nat)

  datatype Machine = Machine(pos: nat, stack: seq<Frame>, output: seq<string>)

  // ---------- one line of the flat machine ----------

  function Step(file: seq<Line>, m: Machine): Machine
    requires m.pos < |file|
  {
    match file[m.pos]
    case Command(text) => m.(pos := m.pos + 1, output := m.output + [text])
    case LoopBegin(count) => m.(pos := m.pos + 1, stack := m.stack + [Frame(count, m.pos + 1)])
    case LoopEnd =>
      if m.stack == [] then m.(pos := m.pos + 1)
      else
        var top := m.stack[|m.stack| - 1];
        var below := m.stack[..|m.stack| - 1];
        if top.count == 0 then m.(pos := top.position)
        else if top.count == 1 then m.(pos := m.pos + 1, stack := below)
        else m.(pos := top.position, stack := below + [Frame(top.count - 1, top.position)])
  }

  // At most n lines, stopping at the end of the file.
  function Run(file: seq<Line>, m: Machine, n: nat): Machine
    decreases n
  {
    if n == 0 || m.pos >= |file| then m else Run(file, Step(file, m), n - 1)
  }

  // ---------- the classes ----------

  class VirtualSd {
    var cmdFromSd: bool
    var filePosition: nat
    var nextFilePosition: nat
    var executed: seq<string>

    constructor ()
      ensures !cmdFromSd && filePosition == 0 && executed == []
    {
      cmdFromSd, filePosition, nextFilePosition, executed := false, 0, 0, [];
    }
  }

  class SDCardLoop {
    const sdcard: VirtualSd
    var loopStack: seq<Frame>

    constructor (sdcard: VirtualSd)
      ensures this.sdcard == sdcard && loopStack == []
    {
      this.sdcard, loopStack := sdcard, [];
    }

    ghost function View(): Machine
      reads this, sdcard
    {
      Machine(sdcard.filePosition, loopStack, sdcard.executed)
    }

    method LoopBegin(count: nat) returns (ok: bool)
      modifies this
      ensures ok == sdcard.cmdFromSd
      ensures loopStack == old(loopStack) + if ok then [Frame(count, sdcard.nextFilePosition)] else []
    {
      if !sdcard.cmdFromSd {
        return false;
      }
      loopStack := loopStack + [Frame(count, sdcard.nextFilePosition)];
      return true;
    }

    method LoopEnd() returns (ok: bool)
      modifies this, sdcard`nextFilePosition
      ensures ok == sdcard.cmdFromSd
      ensures !ok || old(loopStack) == [] ==>
                loopStack == old(loopStack) && sdcard.nextFilePosition == old(sdcard.nextFilePosition)
      ensures ok && old(loopStack) != [] ==>
                var top := old(loopStack)[|old(loopStack)| - 1];
                && loopStack == old(loopStack)[..|old(loopStack)| - 1] +
                                (if top.count == 1 then []
                                 else [Frame(if top.count == 0 then 0 else top.count - 1, top.position)])
                && sdcard.nextFilePosition ==
                   if top.count == 1 then old(sdcard.nextFilePosition) else top.position
    {
      if !sdcard.cmdFromSd {
        return false;
      }
      if |loopStack| == 0 {
        return true;
      }
      var top := loopStack[|loopStack| - 1];
      loopStack := loopStack[..|loopStack| - 1];
      if top.count == 0 {
        sdcard.nextFilePosition := top.position;
        loopStack := loopStack + [Frame(0, top.position)];
      } else if top.count == 1 {
      } else {
        sdcard.nextFilePosition := top.position;
        loopStack := loopStack + [Frame(top.count - 1, top.position)];
      }
      return true;
    }

    method LoopDesist() returns (ok: bool)
      modifies this
      ensures ok == !sdcard.cmdFromSd
      ensures loopStack == if ok then [] else old(loopStack)
    {
      if sdcard.cmdFromSd {
        return false;
      }
      loopStack := [];
      return true;
    }

    // The reader's loop; a pause request arrives after `budget` lines.
    method WorkHandler(file: seq<Line>, budget: nat)
      requires !sdcard.cmdFromSd
      modifies this, sdcard
      ensures !sdcard.cmdFromSd
      ensures View() == Run(file, old(View()), budget)
    {
      var left := budget;
      while left > 0 && sdcard.filePosition < |file|
        invariant !sdcard.cmdFromSd
        invariant Run(file, View(), left) == Run(file, old(View()), budget)
      {
        DispatchLine(file);
        left := left - 1;
      }
    }

    // One pass of the reader's loop.
    method DispatchLine(file: seq<Line>)
      requires !sdcard.cmdFromSd && sdcard.filePosition < |file|
      modifies this, sdcard
      ensures !sdcard.cmdFromSd
      ensures View() == Step(file, old(View()))
    {
      sdcard.cmdFromSd := true;
      var line := file[sdcard.filePosition];
      sdcard.nextFilePosition := sdcard.filePosition + 1;
      match line {
        case Command(text) => sdcard.executed := sdcard.executed + [text];
        case LoopBegin(count) => var _ := LoopBegin(count);
        case LoopEnd => var _ := LoopEnd();
      }
      sdcard.cmdFromSd := false;
      sdcard.filePosition := sdcard.nextFilePosition;
    }
  }

  // ---------- structured programs ----------

  datatype Prog = Done | Do(text: string, rest: Prog) | Loop(count: nat, body: Prog, rest: Prog)

  function Flatten(p: Prog): seq<Line> {
    match p
    case Done => []
    case Do(text, rest) => [Command(text)] + Flatten(rest)
    case Loop(count, body, rest) => [LoopBegin(count)] + Flatten(body) + [LoopEnd] + Flatten(rest)
  }

  predicate Finite(p: Prog) {
    match p
    case Done => true
    case Do(_, rest) => Finite(rest)
    case Loop(count, body, rest) => count >= 1 && Finite(body) && Finite(rest)
  }

  function Repeat(n: nat, s: seq<string>): seq<string> {
    if n == 0 then [] else s + Repeat(n - 1, s)
  }

  // The commands a program stands for.
  function Unroll(p: Prog): seq<string> {
    match p
    case Done => []
    case Do(text, rest) => [text] + Unroll(rest)
    case Loop(count, body, rest) => Repeat(count, Unroll(body)) + Unroll(rest)
  }

  // The number of lines read while running a program.
  function Cost(p: Prog): nat {
    match p
    case Done => 0
    case Do(_, rest) => 1 + Cost(rest)
    case Loop(count, body, rest) => 1 + Times(count, Cost(body) + 1) + Cost(rest)
  }

  function Times(n: nat, each: nat): nat {
    if n == 0 then 0 else each + Times(n - 1, each)
  }

  lemma {:induction false} RunAdd(file: seq<Line>, m: Machine, a: nat, b: nat)
    ensures Run(file, m, a + b) == Run(file, Run(file, m, a), b)
    decreases a
  {
    if a > 0 && m.pos < |file| {
      RunAdd(file, Step(file, m), a - 1, b);
    }
  }

  lemma AppendAssoc<T>(a: seq<T>, b: seq<T>, c: seq<T>)
    ensures a + b + c == a + (b + c)
  {
  }

  lemma RepeatOnce(output: seq<string>, n: nat, s: seq<string>)
    requires n > 0
    ensures output + s + Repeat(n - 1, s) == output + Repeat(n, s)
  {
  }

  // The end of a loop whose frame is on top of the stack.
  lemma StepEnd(file: seq<Line>, pos: nat, below: seq<Frame>, top: Frame, output: seq<string>)
    requires pos < |file| && file[pos] == LoopEnd
    ensures Step(file, Machine(pos, below + [top], output)) ==
            if top.count == 1 then Machine(pos + 1, below, output)
            else Machine(top.position, below + [Frame(if top.count == 0 then 0 else top.count - 1, top.position)], output)
  {
    assert (below + [top])[..|below + [top]| - 1] == below;
  }

  lemma RunChain(file: seq<Line>, m: Machine, a: nat, mid: Machine, b: nat, last: Machine)
    requires Run(file, m, a) == mid && Run(file, mid, b) == last
    ensures Run(file, m, a + b) == last
  {
    RunAdd(file, m, a, b);
  }

  lemma RunNone(file: seq<Line>, m: Machine)
    ensures Run(file, m, 0) == m
  {
  }

  lemma RunStep(file: seq<Line>, m: Machine, next: Machine, n: nat, last: Machine)
    requires m.pos < |file| && Step(file, m) == next && Run(file, next, n) == last
    ensures Run(file, m, 1 + n) == last
  {
  }

  // The program's lines stand in the file from position `at` on.
  predicate PlacedAt(file: seq<Line>, at: nat, p: Prog) {
    at + |Flatten(p)| <= |file| && file[at..at + |Flatten(p)|] == Flatten(p)
  }

  lemma PlacedDo(file: seq<Line>, at: nat, p: Prog)
    requires p.Do? && PlacedAt(file, at, p)
    ensures file[at] == Command(p.text) && PlacedAt(file, at + 1, p.rest)
  {
    var s := Flatten(p);
    assert file[at] == file[at..at + |s|][0];
    assert file[at + 1..at + |s|] == file[at..at + |s|][1..] == Flatten(p.rest);
  }

  lemma SliceOfSlice<T>(s: seq<T>, at: nat, n: nat, i: nat, j: nat)
    requires at + n <= |s| && i <= j <= n
    ensures s[at..at + n][i..j] == s[at + i..at + j]
  {
    var a, b := s[at..at + n][i..j], s[at + i..at + j];
    assert |a| == |b| && forall k :: 0 <= k < |a| ==> a[k] == b[k];
  }

  lemma FlattenLoop(p: Prog)
    requires p.Loop?
    ensures var s, n := Flatten(p), |Flatten(p.body)|;
            && |s| == 2 + n + |Flatten(p.rest)| && s[0] == LoopBegin(p.count) && s[1 + n] == LoopEnd
            && s[1..1 + n] == Flatten(p.body) && s[2 + n..] == Flatten(p.rest)
  {
    Bracketed([LoopBegin(p.count)], Flatten(p.body), [LoopEnd], Flatten(p.rest));
  }

  lemma Bracketed<T>(a: seq<T>, b: seq<T>, c: seq<T>, d: seq<T>)
    requires |a| == |c| == 1
    ensures var s := a + b + c + d;
            s[0] == a[0] && s[1..1 + |b|] == b && s[1 + |b|] == c[0] && s[2 + |b|..] == d
  {
  }

  lemma PlacedLoop(file: seq<Line>, at: nat, p: Prog)
    requires p.Loop? && PlacedAt(file, at, p)
    ensures file[at] == LoopBegin(p.count) && PlacedAt(file, at + 1, p.body)
    ensures file[at + 1 + |Flatten(p.body)|] == LoopEnd
    ensures PlacedAt(file, at + 2 + |Flatten(p.body)|, p.rest)
  {
    var s, n := Flatten(p), |Flatten(p.body)|;
    FlattenLoop(p);
    var here := file[at..at + |s|];
    SliceOfSlice(file, at, |s|, 1, 1 + n);
    SliceOfSlice(file, at, |s|, 2 + n, |s|);
    assert here[0] == file[at] && here[1 + n] == file[at + 1 + n];
  }

  // Where running a finite program leaves the machine.
  function Finished(m: Machine, p: Prog): Machine {
    Machine(m.pos + |Flatten(p)|, m.stack, m.output + Unroll(p))
  }

  lemma FinishedLoop(m: Machine, p: Prog)
    requires p.Loop?
    ensures Finished(Machine(m.pos + 2 + |Flatten(p.body)|, m.stack, m.output + Repeat(p.count, Unroll(p.body))), p.rest)
            == Finished(m, p)
  {
    AppendAssoc(m.output, Repeat(p.count, Unroll(p.body)), Unroll(p.rest));
  }

  // The stack machine runs exactly the structured unrolling, wherever the program stands.
  lemma {:induction false} RunsUnrolling(file: seq<Line>, m: Machine, p: Prog)
    requires PlacedAt(file, m.pos, p) && Finite(p)
    ensures Run(file, m, Cost(p)) == Finished(m, p)
    decreases p, 2
  {
    match p
    case Done =>
      assert m.output + [] == m.output;
    case Do(text, rest) =>
      PlacedDo(file, m.pos, p);
      var next := Machine(m.pos + 1, m.stack, m.output + [text]);
      RunsUnrolling(file, next, rest);
      AppendAssoc(m.output, [text], Unroll(rest));
      RunStep(file, m, next, Cost(rest), Finished(m, p));
    case Loop(_, _, _) =>
      RunsLoop(file, m, p);
  }

  lemma {:induction false} RunsLoop(file: seq<Line>, m: Machine, p: Prog)
    requires p.Loop? && PlacedAt(file, m.pos, p) && Finite(p)
    ensures Run(file, m, Cost(p)) == Finished(m, p)
    decreases p, 1
  {
    hide Run, Repeat, Unroll, Flatten;
    PlacedLoop(file, m.pos, p);
    var inside := Machine(m.pos + 1, m.stack + [Frame(p.count, m.pos + 1)], m.output);
    var after := Machine(m.pos + 2 + |Flatten(p.body)|, m.stack, m.output + Repeat(p.count, Unroll(p.body)));
    var passes := Times(p.count, Cost(p.body) + 1);
    LoopPasses(file, m.pos + 1, m.stack, m.output, p.count, p.body);
    RunsUnrolling(file, after, p.rest);
    FinishedLoop(m, p);
    RunChain(file, inside, passes, after, Cost(p.rest), Finished(m, p));
    RunStep(file, m, inside, passes + Cost(p.rest), Finished(m, p));
  }

  // The remaining passes of one loop, from the top of its body.
  lemma {:induction false} LoopPasses(file: seq<Line>, at: nat, below: seq<Frame>, output: seq<string>,
                                      count: nat, body: Prog)
    requires count >= 1 && PlacedAt(file, at, body) && Finite(body)
    requires at + |Flatten(body)| < |file| && file[at + |Flatten(body)|] == LoopEnd
    ensures Run(file, Machine(at, below + [Frame(count, at)], output), Times(count, Cost(body) + 1)) ==
            Machine(at + |Flatten(body)| + 1, below, output + Repeat(count, Unroll(body)))
    decreases body, 4, count
  {
    var m := Machine(at, below + [Frame(count, at)], output);
    hide Run;
    var e := Finished(m, body);
    OnePass(file, m, body);
    var onward := Times(count - 1, Cost(body) + 1);
    RunAdd(file, m, Cost(body) + 1, onward);
    StepEnd(file, e.pos, below, Frame(count, at), e.output);
    RepeatOnce(output, count, Unroll(body));
    if count == 1 {
      assert e.output + Repeat(0, Unroll(body)) == e.output;
    } else {
      LoopPasses(file, at, below, e.output, count - 1, body);
    }
  }

  // The body and then the line after it.
  lemma {:induction false} OnePass(file: seq<Line>, m: Machine, body: Prog)
    requires PlacedAt(file, m.pos, body) && Finite(body)
    requires m.pos + |Flatten(body)| < |file|
    ensures Run(file, m, Cost(body) + 1) == Step(file, Finished(m, body))
    decreases body, 3
  {
    RunsUnrolling(file, m, body);
    RunAdd(file, m, Cost(body), 1);
    var e := Finished(m, body);
    assert Run(file, e, 1) == Run(file, Step(file, e), 0);
  }

  // ---------- infinite loops ----------

  ghost predicate NeverEnds(file: seq<Line>, m: Machine) {
    forall n: nat :: Run(file, m, n).pos < |file|
  }

  lemma EndIsFinal(file: seq<Line>, m: Machine, a: nat, b: nat)
    requires a <= b && Run(file, m, a).pos >= |file|
    ensures Run(file, m, b) == Run(file, m, a)
  {
    RunAdd(file, m, a, b - a);
  }

  lemma NeverEndsEarlier(file: seq<Line>, m: Machine, k: nat)
    requires NeverEnds(file, Run(file, m, k))
    ensures NeverEnds(file, m)
  {
    var later := Run(file, m, k);
    assert Run(file, later, 0) == later;
    forall n: nat ensures Run(file, m, n).pos < |file| {
      if Run(file, m, n).pos >= |file| {
        if n <= k {
          EndIsFinal(file, m, n, k);
        } else {
          RunAdd(file, m, k, n - k);
        }
      }
    }
  }

  // A loop without a count repeats its body for ever and keeps its place on the stack.
  lemma {:induction false} ForeverPasses(file: seq<Line>, at: nat, below: seq<Frame>, output: seq<string>,
                                         body: Prog, n: nat)
    requires PlacedAt(file, at, body) && Finite(body)
    requires at + |Flatten(body)| < |file| && file[at + |Flatten(body)|] == LoopEnd
    ensures Run(file, Machine(at, below + [Frame(0, at)], output), Times(n, Cost(body) + 1)) ==
            Machine(at, below + [Frame(0, at)], output + Repeat(n, Unroll(body)))
    decreases n
  {
    hide Run;
    var m := Machine(at, below + [Frame(0, at)], output);
    if n == 0 {
      RunNone(file, m);
      assert output + [] == output;
    } else {
      OnePass(file, m, body);
      var onward := Times(n - 1, Cost(body) + 1);
      RunAdd(file, m, Cost(body) + 1, onward);
      StepEnd(file, at + |Flatten(body)|, below, Frame(0, at), output + Unroll(body));
      ForeverPasses(file, at, below, output + Unroll(body), body, n - 1);
      RepeatOnce(output, n, Unroll(body));
    }
  }

  lemma TimesAtLeast(n: nat, each: nat)
    requires each >= 1
    ensures Times(n, each) >= n
  {
  }

  lemma ForeverNeverEnds(file: seq<Line>, at: nat, below: seq<Frame>, output: seq<string>, body: Prog)
    requires PlacedAt(file, at, body) && Finite(body)
    requires at + |Flatten(body)| < |file| && file[at + |Flatten(body)|] == LoopEnd
    ensures NeverEnds(file, Machine(at, below + [Frame(0, at)], output))
  {
    var m := Machine(at, below + [Frame(0, at)], output);
    forall n: nat ensures Run(file, m, n).pos < |file| {
      if Run(file, m, n).pos >= |file| {
        ForeverPasses(file, at, below, output, body, n);
        TimesAtLeast(n, Cost(body) + 1);
        EndIsFinal(file, m, n, Times(n, Cost(body) + 1));
      }
    }
  }

  lemma {:induction false} InfiniteNeverEnds(file: seq<Line>, m: Machine, p: Prog)
    requires PlacedAt(file, m.pos, p) && !Finite(p)
    ensures NeverEnds(file, m)
    decreases p
  {
    if p.Do? {
      PlacedDo(file, m.pos, p);
    } else {
      PlacedLoop(file, m.pos, p);
    }
    var next := Step(file, m);
    assert Run(file, m, 1) == Run(file, next, 0);
    if p.Do? {
      InfiniteNeverEnds(file, next, p.rest);
    } else if !Finite(p.body) {
      InfiniteNeverEnds(file, next, p.body);
    } else if p.count == 0 {
      ForeverNeverEnds(file, m.pos + 1, m.stack, m.output, p.body);
    } else {
      var passes := Times(p.count, Cost(p.body) + 1);
      LoopPasses(file, m.pos + 1, m.stack, m.output, p.count, p.body);
      InfiniteNeverEnds(file, Run(file, next, passes), p.rest);
      NeverEndsEarlier(file, next, passes);
    }
    NeverEndsEarlier(file, m, 1);
  }

  // ---------- flat files ----------

  // Reading the lines closes `depth` loops that are open before them, and all their own.
  predicate Balanced(lines: seq<Line>, depth: nat) {
    if lines == [] then depth == 0
    else match lines[0]
      case Command(_) => Balanced(lines[1..], depth)
      case LoopBegin(_) => Balanced(lines[1..], depth + 1)
      case LoopEnd => depth > 0 && Balanced(lines[1..], depth - 1)
  }

  // Programs separated by the ends of loops that were opened earlier.
  function FlattenTail(ps: seq<Prog>): seq<Line>
    requires ps != []
  {
    if |ps| == 1 then Flatten(ps[0]) else Flatten(ps[0]) + [LoopEnd] + FlattenTail(ps[1..])
  }

  // Every balanced text is structured.
  lemma {:induction false} Decompose(lines: seq<Line>, depth: nat) returns (ps: seq<Prog>)
    requires Balanced(lines, depth)
    ensures |ps| == depth + 1 && FlattenTail(ps) == lines
  {
    if lines == [] {
      ps := [Done];
    } else {
      match lines[0]
      case Command(text) =>
        var qs := Decompose(lines[1..], depth);
        ps := [Do(text, qs[0])] + qs[1..];
        assert ps[1..] == qs[1..];
      case LoopBegin(count) =>
        var qs := Decompose(lines[1..], depth + 1);
        ps := [Loop(count, qs[0], qs[1])] + qs[2..];
        assert ps[1..] == qs[1..][1..];
      case LoopEnd =>
        var qs := Decompose(lines[1..], depth - 1);
        ps := [Done] + qs;
        assert ps[1..] == qs;
    }
  }

  lemma {:induction false} FlattenBalanced(p: Prog, post: seq<Line>, depth: nat)
    ensures Balanced(Flatten(p) + post, depth) == Balanced(post, depth)
    decreases p
  {
    match p
    case Done =>
      assert Flatten(p) + post == post;
    case Do(_, rest) =>
      assert (Flatten(p) + post)[1..] == Flatten(rest) + post;
      FlattenBalanced(rest, post, depth);
    case Loop(_, body, rest) =>
      var tail := [LoopEnd] + (Flatten(rest) + post);
      assert (Flatten(p) + post)[1..] == Flatten(body) + tail;
      FlattenBalanced(body, tail, depth + 1);
      assert tail[1..] == Flatten(rest) + post;
      FlattenBalanced(rest, post, depth);
  }

  // The well-nested files are exactly the structured ones.
  lemma WellNestedIffStructured(lines: seq<Line>)
    ensures Balanced(lines, 0) <==> exists p :: Flatten(p) == lines
  {
    if Balanced(lines, 0) {
      var ps := Decompose(lines, 0);
      assert Flatten(ps[0]) == lines;
    }
    if p :| Flatten(p) == lines {
      FlattenBalanced(p, [], 0);
      assert Flatten(p) + [] == lines;
    }
  }

  predicate AllCounted(lines: seq<Line>) {
    forall i :: 0 <= i < |lines| && lines[i].LoopBegin? ==> lines[i].count >= 1
  }

  lemma {:induction false} CountedIffFinite(p: Prog)
    ensures AllCounted(Flatten(p)) <==> Finite(p)
  {
    match p
    case Done =>
    case Do(text, rest) =>
      CountedIffFinite(rest);
      CountedAppend([Command(text)], Flatten(rest));
    case Loop(count, body, rest) =>
      CountedIffFinite(body);
      CountedIffFinite(rest);
      CountedAppend([LoopBegin(count)], Flatten(body));
      CountedAppend([LoopBegin(count)] + Flatten(body), [LoopEnd]);
      CountedAppend([LoopBegin(count)] + Flatten(body) + [LoopEnd], Flatten(rest));
      assert [LoopBegin(count)][0].count == count;
  }

  lemma CountedAppend(a: seq<Line>, b: seq<Line>)
    ensures AllCounted(a + b) <==> AllCounted(a) && AllCounted(b)
  {
    if AllCounted(a + b) {
      forall i | 0 <= i < |a| && a[i].LoopBegin? ensures a[i].count >= 1 {
        assert (a + b)[i] == a[i];
      }
      forall i | 0 <= i < |b| && b[i].LoopBegin? ensures b[i].count >= 1 {
        assert (a + b)[|a| + i] == b[i];
      }
    }
  }

  // A well-nested file ends exactly when every loop has a count, and then the flat machine
  // has run the structured unrolling and its stack is what it was.
  lemma WellNestedFile(file: seq<Line>, stack: seq<Frame>)
    requires Balanced(file, 0)
    ensures var m := Machine(0, stack, []);
            if AllCounted(file)
            then exists p :: Flatten(p) == file && Run(file, m, Cost(p)) == Machine(|file|, stack, Unroll(p))
            else NeverEnds(file, m)
  {
    var ps := Decompose(file, 0);
    var p := ps[0];
    CountedIffFinite(p);
    var m := Machine(0, stack, []);
    assert file[0..|file|] == file;
    if Finite(p) {
      RunsUnrolling(file, m, p);
      assert [] + Unroll(p) == Unroll(p);
      assert Flatten(p) == file;
    } else {
      InfiniteNeverEnds(file, m, p);
    }
  }

  // ---------- desisting ----------

  function UnrollTail(ps: seq<Prog>): seq<string> {
    if ps == [] then [] else Unroll(ps[0]) + UnrollTail(ps[1..])
  }

  function CostTail(ps: seq<Prog>): nat
    requires ps != []
  {
    if |ps| == 1 then Cost(ps[0]) else Cost(ps[0]) + 1 + CostTail(ps[1..])
  }

  lemma TailParts(file: seq<Line>, at: nat, ps: seq<Prog>)
    requires |ps| > 1 && at <= |file| && file[at..] == FlattenTail(ps)
    ensures var n := |Flatten(ps[0])|;
            && PlacedAt(file, at, ps[0]) && at + n < |file| && file[at + n] == LoopEnd
            && file[at + n + 1..] == FlattenTail(ps[1..])
  {
    var n := |Flatten(ps[0])|;
    var here := file[at..];
    assert file[at..at + n] == here[..n] == Flatten(ps[0]);
    assert file[at + n] == here[n];
    assert file[at + n + 1..] == here[n + 1..] == FlattenTail(ps[1..]);
  }

  // With the stack emptied, the rest of the file runs once: loops already entered finish
  // their current pass, later loops are repeated as usual.
  lemma {:induction false} DesistedRun(file: seq<Line>, m: Machine, ps: seq<Prog>)
    requires ps != [] && m.stack == [] && m.pos <= |file| && file[m.pos..] == FlattenTail(ps)
    requires forall p :: p in ps ==> Finite(p)
    ensures Run(file, m, CostTail(ps)) == Machine(|file|, [], m.output + UnrollTail(ps))
    decreases |ps|
  {
    hide Run;
    var p := ps[0];
    if |ps| == 1 {
      assert file[m.pos..m.pos + |Flatten(p)|] == file[m.pos..];
      RunsUnrolling(file, m, p);
      AppendAssoc(m.output, Unroll(p), []);
    } else {
      TailParts(file, m.pos, ps);
      var next := Machine(m.pos + |Flatten(p)| + 1, [], m.output + Unroll(p));
      OnePass(file, m, p);
      DesistedRun(file, next, ps[1..]);
      AppendAssoc(m.output, Unroll(p), UnrollTail(ps[1..]));
      RunChain(file, m, Cost(p) + 1, next, CostTail(ps[1..]), Machine(|file|, [], next.output + UnrollTail(ps[1..])));
    }
  }

  lemma {:induction false} FiniteTail(ps: seq<Prog>)
    requires ps != [] && AllCounted(FlattenTail(ps))
    ensures forall p :: p in ps ==> Finite(p)
  {
    if |ps| == 1 {
      CountedIffFinite(ps[0]);
    } else {
      CountedAppend(Flatten(ps[0]) + [LoopEnd], FlattenTail(ps[1..]));
      CountedAppend(Flatten(ps[0]), [LoopEnd]);
      CountedIffFinite(ps[0]);
      FiniteTail(ps[1..]);
      assert forall p :: p in ps ==> p == ps[0] || p in ps[1..];
    }
  }

  // Desisting anywhere inside a well-nested file, however many loops are open there, makes
  // the print end.
  lemma DesistEnds(file: seq<Line>, at: nat, depth: nat, output: seq<string>)
    requires at <= |file| && Balanced(file[at..], depth) && AllCounted(file[at..])
    ensures exists ps | |ps| == depth + 1 ::
              && FlattenTail(ps) == file[at..]
              && Run(file, Machine(at, [], output), CostTail(ps)) == Machine(|file|, [], output + UnrollTail(ps))
  {
    var ps := Decompose(file[at..], depth);
    FiniteTail(ps);
    DesistedRun(file, Machine(at, [], output), ps);
  }
}
