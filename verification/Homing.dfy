/** The multi-sample Z homing loop (software/klipper/extras/homing.py, home_rails_z).

    After the first home the axis is homed slowly until three samples agree.  What each slow
    homing attempt turns out to be is a parameter: the machine is not part of this model. */
module Homing {
  import opened Support

  const SAMPLE_COUNT: nat := 3
  const QUERY_LIMIT: nat := 6

  // The trigger position of every stepper, in a fixed order.
  type Sample = seq<int>

  // One pass of the loop: how often the endstop read as triggered beforehand, then the move.
  datatype Attempt = Attempt(stuckQueries: nat, move: Move)

  datatype Move = Failed | NoMovement | Triggered(positions: Sample)

  datatype Error = StuckBeforeMove | MoveError | StillTriggered | Inconsistent(stepper: nat) | LastIsOutlier

  datatype Verdict = Agree | Disagree(stepper: nat) | Outlier

  // ---------- the vote ----------

  function Others(vals: seq<int>, i: nat, tolerance: nat, j: nat): seq<int>
    requires i < |vals| && j < |vals|
  {
    if j != i && AbsInt(vals[j] - vals[i]) <= tolerance then [vals[j]] else []
  }

  // vals[i], then every other of the first k values within tolerance of it.
  function Group(vals: seq<int>, i: nat, tolerance: nat, k: nat): seq<int>
    requires i < |vals| && k <= |vals|
  {
    if k == 0 then [vals[i]]
    else Group(vals, i, tolerance, k - 1) + Others(vals, i, tolerance, k - 1)
  }

  // The first of the longest groups around the first k values.
  function BestGroup(vals: seq<int>, tolerance: nat, k: nat): seq<int>
    requires k <= |vals|
  {
    if k == 0 then []
    else
      var best, group := BestGroup(vals, tolerance, k - 1), Group(vals, k - 1, tolerance, |vals|);
      if |group| > |best| then group else best
  }

  function Column(samples: seq<Sample>, stepper: nat): (vals: seq<int>)
    requires forall s :: s in samples ==> stepper < |s|
    ensures |vals| == |samples|
  {
    seq(|samples|, i requires 0 <= i < |samples| => assert samples[i] in samples; samples[i][stepper])
  }

  predicate Rectangular(samples: seq<Sample>, steppers: nat) {
    forall s :: s in samples ==> |s| == steppers
  }

  // The first k steppers: stop at the first whose samples have no two alike, and remember
  // whether the last sample was out of its best group.
  function Vote(samples: seq<Sample>, steppers: nat, tolerance: nat, k: nat): Verdict
    requires Rectangular(samples, steppers) && samples != [] && k <= steppers
  {
    if k == 0 then Agree
    else
      var before := Vote(samples, steppers, tolerance, k - 1);
      if before.Disagree? then before
      else
        var vals := Column(samples, k - 1);
        var best := BestGroup(vals, tolerance, |vals|);
        if |best| < 2 then Disagree(k - 1)
        else if vals[|vals| - 1] !in best then Outlier
        else before
  }

  method Decide(samples: seq<Sample>, steppers: nat, tolerance: nat) returns (verdict: Verdict)
    requires Rectangular(samples, steppers) && samples != []
    ensures verdict == Vote(samples, steppers, tolerance, steppers)
  {
    hide BestGroup;
    var lastOutlier := false;
    for s := 0 to steppers
      invariant Vote(samples, steppers, tolerance, s) == if lastOutlier then Outlier else Agree
    {
      var vals := Column(samples, s);
      var best := FindBestGroup(vals, tolerance);
      if |best| < 2 {
        VoteStops(samples, steppers, tolerance, s + 1, steppers);
        return Disagree(s);
      }
      if vals[|vals| - 1] !in best {
        lastOutlier := true;
      }
    }
    return if lastOutlier then Outlier else Agree;
  }

  method FindBestGroup(vals: seq<int>, tolerance: nat) returns (best: seq<int>)
    ensures best == BestGroup(vals, tolerance, |vals|)
  {
    best := [];
    for i := 0 to |vals|
      invariant best == BestGroup(vals, tolerance, i)
    {
      var group := [vals[i]];
      for j := 0 to |vals|
        invariant group == Group(vals, i, tolerance, j)
      {
        if j != i && AbsInt(vals[j] - vals[i]) <= tolerance {
          group := group + [vals[j]];
        }
      }
      if |group| > |best| {
        best := group;
      }
    }
  }

  lemma {:induction false} VoteStops(samples: seq<Sample>, steppers: nat, tolerance: nat, a: nat, b: nat)
    requires Rectangular(samples, steppers) && samples != [] && a <= b <= steppers
    requires Vote(samples, steppers, tolerance, a).Disagree?
    ensures Vote(samples, steppers, tolerance, b) == Vote(samples, steppers, tolerance, a)
  {
    if a < b {
      VoteStops(samples, steppers, tolerance, a, b - 1);
    }
  }

  // What the vote is for: the last of three samples is confirmed by another one.
  predicate Confirmed(vals: seq<int>, tolerance: nat)
    requires |vals| == 3
  {
    AbsInt(vals[2] - vals[0]) <= tolerance || AbsInt(vals[2] - vals[1]) <= tolerance
  }

  predicate SomePair(vals: seq<int>, tolerance: nat)
    requires |vals| == 3
  {
    Confirmed(vals, tolerance) || AbsInt(vals[1] - vals[0]) <= tolerance
  }

  lemma GroupOfThree(vals: seq<int>, i: nat, tolerance: nat)
    requires |vals| == 3 && i < 3
    ensures Group(vals, i, tolerance, 3) ==
            [vals[i]] + Others(vals, i, tolerance, 0) + Others(vals, i, tolerance, 1) + Others(vals, i, tolerance, 2)
  {
    assert Group(vals, i, tolerance, 1) == [vals[i]] + Others(vals, i, tolerance, 0);
    assert Group(vals, i, tolerance, 2) == Group(vals, i, tolerance, 1) + Others(vals, i, tolerance, 1);
  }

  lemma BestOfThree(vals: seq<int>, tolerance: nat)
    requires |vals| == 3
    ensures var best := BestGroup(vals, tolerance, 3);
            && (|best| >= 2 <==> SomePair(vals, tolerance))
            && (|best| >= 2 && vals[2] in best <==> Confirmed(vals, tolerance))
  {
    GroupOfThree(vals, 0, tolerance);
    GroupOfThree(vals, 1, tolerance);
    GroupOfThree(vals, 2, tolerance);
    hide Group;
    var g0, g1, g2 := Group(vals, 0, tolerance, 3), Group(vals, 1, tolerance, 3), Group(vals, 2, tolerance, 3);
    var b1 := BestGroup(vals, tolerance, 1);
    assert b1 == g0 by {
      assert BestGroup(vals, tolerance, 0) == [];
    }
    var b2 := BestGroup(vals, tolerance, 2);
    assert b2 == if |g1| > |b1| then g1 else b1;
    assert BestGroup(vals, tolerance, 3) == if |g2| > |b2| then g2 else b2;
  }

  // Samples i and j of stepper s are no further apart than the tolerance.
  predicate Alike(samples: seq<Sample>, tolerance: nat, s: nat, i: nat, j: nat)
    requires i < |samples| && j < |samples| && s < |samples[i]| && s < |samples[j]|
  {
    samples[i][s] <= samples[j][s] + tolerance && samples[j][s] <= samples[i][s] + tolerance
  }

  ghost predicate LastConfirmed(samples: seq<Sample>, tolerance: nat, s: nat)
    requires |samples| == 3 && forall t :: t in samples ==> s < |t|
  {
    Alike(samples, tolerance, s, 2, 0) || Alike(samples, tolerance, s, 2, 1)
  }

  ghost predicate TwoAlike(samples: seq<Sample>, tolerance: nat, s: nat)
    requires |samples| == 3 && forall t :: t in samples ==> s < |t|
  {
    LastConfirmed(samples, tolerance, s) || Alike(samples, tolerance, s, 1, 0)
  }

  lemma ColumnVotes(samples: seq<Sample>, tolerance: nat, s: nat)
    requires |samples| == 3 && forall t :: t in samples ==> s < |t|
    ensures Confirmed(Column(samples, s), tolerance) <==> LastConfirmed(samples, tolerance, s)
    ensures SomePair(Column(samples, s), tolerance) <==> TwoAlike(samples, tolerance, s)
  {
  }

  ghost predicate AllConfirmed(samples: seq<Sample>, steppers: nat, tolerance: nat)
    requires |samples| == 3 && Rectangular(samples, steppers)
  {
    forall s :: 0 <= s < steppers ==> LastConfirmed(samples, tolerance, s)
  }

  ghost predicate AllPaired(samples: seq<Sample>, steppers: nat, tolerance: nat)
    requires |samples| == 3 && Rectangular(samples, steppers)
  {
    forall s :: 0 <= s < steppers ==> TwoAlike(samples, tolerance, s)
  }

  // The nested group search accepts exactly when every stepper's last sample is confirmed, and
  // disagrees exactly when some stepper has no two samples alike.
  lemma {:induction false} VoteIsConfirmation(samples: seq<Sample>, steppers: nat, tolerance: nat, k: nat)
    requires Rectangular(samples, steppers) && |samples| == 3 && k <= steppers
    ensures Vote(samples, steppers, tolerance, k) == Agree <==>
            forall s :: 0 <= s < k ==> LastConfirmed(samples, tolerance, s)
    ensures Vote(samples, steppers, tolerance, k).Disagree? <==>
            exists s :: 0 <= s < k && !TwoAlike(samples, tolerance, s)
    ensures var v := Vote(samples, steppers, tolerance, k);
            v.Disagree? ==>
              && v.stepper < k && !TwoAlike(samples, tolerance, v.stepper)
              && forall s :: 0 <= s < v.stepper ==> TwoAlike(samples, tolerance, s)
  {
    hide BestGroup, Column, Confirmed, SomePair, LastConfirmed, TwoAlike;
    if k > 0 {
      VoteIsConfirmation(samples, steppers, tolerance, k - 1);
      BestOfThree(Column(samples, k - 1), tolerance);
      ColumnVotes(samples, tolerance, k - 1);
      ConfirmedIsPair(samples, tolerance, k - 1);
    }
  }

  lemma ConfirmedIsPair(samples: seq<Sample>, tolerance: nat, s: nat)
    requires |samples| == 3 && forall t :: t in samples ==> s < |t|
    ensures LastConfirmed(samples, tolerance, s) ==> TwoAlike(samples, tolerance, s)
  {
  }

  // ---------- the retry loop ----------

  datatype Result = Accepted(position: Sample, samples: seq<Sample>, used: nat, retries: nat)
                  | Raised(error: Error, used: nat, retries: nat)

  predicate WellFormed(attempts: nat -> Attempt, steppers: nat, k: nat) {
    attempts(k).move.Triggered? ==> |attempts(k).move.positions| == steppers
  }

  // The loop from its k-th attempt on, with the samples kept and the retries spent so far.
  function Collect(attempts: nat -> Attempt, steppers: nat, tolerance: nat, limit: nat,
                   k: nat, kept: seq<Sample>, retries: nat): Result
    requires forall i: nat :: WellFormed(attempts, steppers, i)
    requires Rectangular(kept, steppers) && |kept| < SAMPLE_COUNT && retries <= limit
    decreases limit - retries, SAMPLE_COUNT - |kept|
  {
    var a := attempts(k);
    assert WellFormed(attempts, steppers, k);
    if a.stuckQueries >= QUERY_LIMIT then Raised(StuckBeforeMove, k, retries)
    else match a.move
      case Failed => Raised(MoveError, k + 1, retries)
      case NoMovement =>
        if retries >= limit then Raised(StillTriggered, k + 1, retries)
        else Collect(attempts, steppers, tolerance, limit, k + 1, [], retries + 1)
      case Triggered(positions) =>
        var samples := kept + [positions];
        if |samples| < SAMPLE_COUNT then Collect(attempts, steppers, tolerance, limit, k + 1, samples, retries)
        else match Vote(samples, steppers, tolerance, steppers)
          case Agree => Accepted(positions, samples, k + 1, retries)
          case Disagree(stepper) =>
            if retries >= limit then Raised(Inconsistent(stepper), k + 1, retries)
            else Collect(attempts, steppers, tolerance, limit, k + 1, [], retries + 1)
          case Outlier =>
            if retries >= limit then Raised(LastIsOutlier, k + 1, retries)
            else Collect(attempts, steppers, tolerance, limit, k + 1, kept, retries + 1)
  }

  // An attempt after which the loop goes on, and the samples it goes on with: none when there
  // was no movement or a stepper has no two samples alike, those before it when only the new
  // one is not confirmed.
  ghost predicate Goes(a: Attempt, steppers: nat, tolerance: nat, kept: seq<Sample>, next: seq<Sample>)
    requires Rectangular(kept, steppers) && |kept| < 3
  {
    && a.stuckQueries < 6
    && match a.move
       case Failed => false
       case NoMovement => next == []
       case Triggered(positions) =>
         && |positions| == steppers
         && var samples := kept + [positions];
            if |samples| < 3 then next == samples
            else if !AllPaired(samples, steppers, tolerance) then next == []
            else !AllConfirmed(samples, steppers, tolerance) && next == kept
  }

  // The k-th attempt ends the loop: at once, or for want of a retry.
  ghost predicate Ends(a: Attempt, steppers: nat, tolerance: nat, limit: nat,
                       k: nat, kept: seq<Sample>, retries: nat, r: Result)
    requires Rectangular(kept, steppers) && |kept| < 3
  {
    if a.stuckQueries >= 6 then r == Raised(StuckBeforeMove, k, retries)
    else match a.move
      case Failed => r == Raised(MoveError, k + 1, retries)
      case NoMovement => retries == limit && r == Raised(StillTriggered, k + 1, retries)
      case Triggered(positions) =>
        && |positions| == steppers && |kept| == 2
        && var samples := kept + [positions];
           if AllConfirmed(samples, steppers, tolerance) then r == Accepted(positions, samples, k + 1, retries)
           else
             && retries == limit
             && if AllPaired(samples, steppers, tolerance) then r == Raised(LastIsOutlier, k + 1, retries)
                else && r.Raised? && r.error.Inconsistent? && r.error.stepper < steppers
                     && r == Raised(r.error, k + 1, retries) && !TwoAlike(samples, tolerance, r.error.stepper)
                     && forall s :: 0 <= s < r.error.stepper ==> TwoAlike(samples, tolerance, s)
  }

  // The samples kept before each attempt account for a result; an attempt that adds none to
  // them costs a retry.
  ghost predicate Explains(trace: seq<seq<Sample>>, attempts: nat -> Attempt, steppers: nat, tolerance: nat,
                           limit: nat, k: nat, retries: nat, r: Result)
  {
    && trace != [] && Rectangular(trace[0], steppers) && |trace[0]| < 3
    && if |trace| == 1 then Ends(attempts(k), steppers, tolerance, limit, k, trace[0], retries, r)
       else
         && Goes(attempts(k), steppers, tolerance, trace[0], trace[1])
         && Explains(trace[1..], attempts, steppers, tolerance, limit, k + 1,
                     retries + if |trace[1]| <= |trace[0]| then 1 else 0, r)
  }

  // Every run of the loop, from the first attempt to the last, goes by the rules above.
  lemma {:induction false} RunIsExplained(attempts: nat -> Attempt, steppers: nat, tolerance: nat, limit: nat,
                                          k: nat, kept: seq<Sample>, retries: nat)
    returns (trace: seq<seq<Sample>>)
    requires forall i: nat :: WellFormed(attempts, steppers, i)
    requires Rectangular(kept, steppers) && |kept| < SAMPLE_COUNT && retries <= limit
    ensures trace != [] && trace[0] == kept
    ensures Explains(trace, attempts, steppers, tolerance, limit, k, retries,
                     Collect(attempts, steppers, tolerance, limit, k, kept, retries))
    decreases limit - retries, SAMPLE_COUNT - |kept|
  {
    hide Vote, LastConfirmed, TwoAlike;
    var a := attempts(k);
    assert WellFormed(attempts, steppers, k);
    if a.stuckQueries >= QUERY_LIMIT || a.move.Failed? {
      return [kept];
    }
    var next := [];
    if a.move.Triggered? {
      var samples := kept + [a.move.positions];
      if |samples| < SAMPLE_COUNT {
        next := samples;
      } else {
        VoteIsConfirmation(samples, steppers, tolerance, steppers);
        var verdict := Vote(samples, steppers, tolerance, steppers);
        if verdict.Agree? {
          return [kept];
        }
        next := if verdict.Outlier? then kept else [];
      }
    }
    if |next| <= |kept| && retries == limit {
      return [kept];
    }
    var rest := RunIsExplained(attempts, steppers, tolerance, limit, k + 1, next,
                               retries + if |next| <= |kept| then 1 else 0);
    trace := [kept] + rest;
    assert trace[1..] == rest;
  }

  class HomingState {
    const steppers: nat
    var triggerMcuPos: Sample
    var slowMoves: nat

    constructor (steppers: nat)
      ensures this.steppers == steppers && slowMoves == 0
    {
      this.steppers, slowMoves, triggerMcuPos := steppers, 0, [];
    }

    // The sampling loop, entered when the axis has a retract distance.
    method HomeSlowly(attempts: nat -> Attempt, tolerance: nat, limit: nat) returns (r: Result)
      requires forall i: nat :: WellFormed(attempts, steppers, i)
      modifies this
      ensures r == Collect(attempts, steppers, tolerance, limit, 0, [], 0)
      ensures slowMoves == old(slowMoves) + r.used
      ensures triggerMcuPos == if r.Accepted? then r.position else old(triggerMcuPos)
    {
      var all: seq<Sample> := [];
      var retries, k := 0, 0;
      var last: Sample := [];
      while |all| < SAMPLE_COUNT
        invariant retries <= limit && |all| <= SAMPLE_COUNT && Rectangular(all, steppers)
        invariant slowMoves == old(slowMoves) + k && triggerMcuPos == old(triggerMcuPos)
        invariant |all| < SAMPLE_COUNT ==>
                    Collect(attempts, steppers, tolerance, limit, k, all, retries) ==
                    Collect(attempts, steppers, tolerance, limit, 0, [], 0)
        invariant |all| == SAMPLE_COUNT ==>
                    Collect(attempts, steppers, tolerance, limit, 0, [], 0) == Accepted(last, all, k, retries)
        decreases limit - retries, SAMPLE_COUNT - |all|
      {
        ghost var kept := all;
        assert WellFormed(attempts, steppers, k);
        if attempts(k).stuckQueries >= QUERY_LIMIT {
          return Raised(StuckBeforeMove, k, retries);
        }
        var move := attempts(k).move;
        slowMoves := slowMoves + 1;
        k := k + 1;
        if move.Failed? {
          return Raised(MoveError, k, retries);
        }
        if move.NoMovement? {
          if retries >= limit {
            return Raised(StillTriggered, k, retries);
          }
          retries := retries + 1;
          all := [];
          continue;
        }
        last := move.positions;
        all := all + [last];
        if |all| >= SAMPLE_COUNT {
          var verdict := Decide(all, steppers, tolerance);
          if verdict.Disagree? {
            if retries >= limit {
              return Raised(Inconsistent(verdict.stepper), k, retries);
            }
            retries := retries + 1;
            all := [];
          } else if verdict.Outlier? {
            if retries >= limit {
              return Raised(LastIsOutlier, k, retries);
            }
            retries := retries + 1;
            all := all[..|all| - 1];
            assert all == kept;
          }
        }
      }
      triggerMcuPos := last;
      return Accepted(last, all, k, retries);
    }
  }

  // The loop always ends: with `limit` retries it makes at most 3 * (limit + 1) slow homing
  // moves in all, whatever the machine does.
  lemma {:induction false} MovesAreBounded(attempts: nat -> Attempt, steppers: nat, tolerance: nat, limit: nat,
                                           k: nat, kept: seq<Sample>, retries: nat)
    requires forall i: nat :: WellFormed(attempts, steppers, i)
    requires Rectangular(kept, steppers) && |kept| < SAMPLE_COUNT && retries <= limit
    requires k <= 3 * retries + |kept|
    ensures var r := Collect(attempts, steppers, tolerance, limit, k, kept, retries);
            r.used <= 3 * (r.retries + 1) && r.retries <= limit
    decreases limit - retries, SAMPLE_COUNT - |kept|
  {
    hide Vote;
    var a := attempts(k);
    assert WellFormed(attempts, steppers, k);
    if a.stuckQueries < QUERY_LIMIT && a.move.NoMovement? && retries < limit {
      MovesAreBounded(attempts, steppers, tolerance, limit, k + 1, [], retries + 1);
    } else if a.stuckQueries < QUERY_LIMIT && a.move.Triggered? {
      var samples := kept + [a.move.positions];
      if |samples| < SAMPLE_COUNT {
        MovesAreBounded(attempts, steppers, tolerance, limit, k + 1, samples, retries);
      } else if retries < limit {
        MovesAreBounded(attempts, steppers, tolerance, limit, k + 1, [], retries + 1);
        MovesAreBounded(attempts, steppers, tolerance, limit, k + 1, kept, retries + 1);
      }
    }
  }

  // An accepted position is the one of the last move made, confirmed on every stepper by one
  // of the two samples kept with it; an error other than a failed move or a stuck endstop
  // means that every retry was spent.
  lemma {:induction false} ResultIsAgreed(attempts: nat -> Attempt, steppers: nat, tolerance: nat, limit: nat,
                                          k: nat, kept: seq<Sample>, retries: nat)
    requires forall i: nat :: WellFormed(attempts, steppers, i)
    requires Rectangular(kept, steppers) && |kept| < SAMPLE_COUNT && retries <= limit
    ensures var r := Collect(attempts, steppers, tolerance, limit, k, kept, retries);
            if r.Accepted? then
              && r.used > 0 && attempts(r.used - 1).move == Triggered(r.position)
              && |r.samples| == 3 && r.samples[2] == r.position && Rectangular(r.samples, steppers)
              && AllConfirmed(r.samples, steppers, tolerance)
            else r.error.StuckBeforeMove? || r.error.MoveError? || r.retries == limit
    decreases limit - retries, SAMPLE_COUNT - |kept|
  {
    hide Vote, LastConfirmed;
    var a := attempts(k);
    assert WellFormed(attempts, steppers, k);
    if a.stuckQueries < QUERY_LIMIT && a.move.NoMovement? && retries < limit {
      ResultIsAgreed(attempts, steppers, tolerance, limit, k + 1, [], retries + 1);
    } else if a.stuckQueries < QUERY_LIMIT && a.move.Triggered? {
      var samples := kept + [a.move.positions];
      if |samples| < SAMPLE_COUNT {
        ResultIsAgreed(attempts, steppers, tolerance, limit, k + 1, samples, retries);
      } else {
        VoteIsConfirmation(samples, steppers, tolerance, steppers);
        if retries < limit {
          ResultIsAgreed(attempts, steppers, tolerance, limit, k + 1, [], retries + 1);
          ResultIsAgreed(attempts, steppers, tolerance, limit, k + 1, kept, retries + 1);
        }
      }
    }
  }

  // Three moves that all trigger are accepted at once exactly when the last is confirmed.
  lemma AcceptedAtOnceIff(attempts: nat -> Attempt, steppers: nat, tolerance: nat, limit: nat)
    requires forall i: nat :: WellFormed(attempts, steppers, i)
    requires forall i :: 0 <= i < 3 ==> attempts(i).stuckQueries < QUERY_LIMIT && attempts(i).move.Triggered?
    ensures var samples := [attempts(0).move.positions, attempts(1).move.positions, attempts(2).move.positions];
            && Rectangular(samples, steppers)
            && (Collect(attempts, steppers, tolerance, limit, 0, [], 0) == Accepted(samples[2], samples, 3, 0)
                <==> AllConfirmed(samples, steppers, tolerance))
  {
    hide Vote, LastConfirmed;
    var p0, p1, p2 := attempts(0).move.positions, attempts(1).move.positions, attempts(2).move.positions;
    assert WellFormed(attempts, steppers, 0) && WellFormed(attempts, steppers, 1) && WellFormed(attempts, steppers, 2);
    var samples := [p0, p1, p2];
    VoteIsConfirmation(samples, steppers, tolerance, steppers);
    assert [] + [p0] == [p0] && [p0] + [p1] == [p0, p1] && [p0, p1] + [p2] == samples;
    var start := Collect(attempts, steppers, tolerance, limit, 0, [], 0);
    assert start == Collect(attempts, steppers, tolerance, limit, 1, [p0], 0);
    assert start == Collect(attempts, steppers, tolerance, limit, 2, [p0, p1], 0);
    var verdict := Vote(samples, steppers, tolerance, steppers);
    if verdict != Agree && limit > 0 {
      RetriesGrow(attempts, steppers, tolerance, limit, 3, [], 1);
      RetriesGrow(attempts, steppers, tolerance, limit, 3, [p0, p1], 1);
    }
  }

  lemma {:induction false} RetriesGrow(attempts: nat -> Attempt, steppers: nat, tolerance: nat, limit: nat,
                                       k: nat, kept: seq<Sample>, retries: nat)
    requires forall i: nat :: WellFormed(attempts, steppers, i)
    requires Rectangular(kept, steppers) && |kept| < SAMPLE_COUNT && retries <= limit
    ensures Collect(attempts, steppers, tolerance, limit, k, kept, retries).retries >= retries
    decreases limit - retries, SAMPLE_COUNT - |kept|
  {
    hide Vote;
    var a := attempts(k);
    assert WellFormed(attempts, steppers, k);
    if a.stuckQueries < QUERY_LIMIT && a.move.NoMovement? && retries < limit {
      RetriesGrow(attempts, steppers, tolerance, limit, k + 1, [], retries + 1);
    } else if a.stuckQueries < QUERY_LIMIT && a.move.Triggered? {
      var samples := kept + [a.move.positions];
      if |samples| < SAMPLE_COUNT {
        RetriesGrow(attempts, steppers, tolerance, limit, k + 1, samples, retries);
      } else if retries < limit {
        RetriesGrow(attempts, steppers, tolerance, limit, k + 1, [], retries + 1);
        RetriesGrow(attempts, steppers, tolerance, limit, k + 1, kept, retries + 1);
      }
    }
  }
}
