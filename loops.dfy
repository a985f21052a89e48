/**
 * Loop counting for the small ring: every normalised step is added to an
 * accumulated rotation, and each time the accumulation reaches a full
 * positive turn one turn is taken off it and the counter goes up by one.
 * Backward turns are never taken back off the counter.
 */
module LoopCounting {
  import opened Angles

  /**
   * How many times the counting loop runs on an accumulated rotation:
   * not at all below one turn, otherwise as many whole turns as fit.
   */
  function LoopsCompleted(total: real): (n: nat)
    ensures total < FullTurn <==> n == 0
    ensures 0.0 <= total ==> Times(n, FullTurn) <= total < Times(n + 1, FullTurn)
  {
    if total < FullTurn then 0 else (total / FullTurn).Floor
  }

  /**
   * Subtracting `n` turns is what the counting loop does exactly when it
   * leaves less than a turn and, if it ran at all, nothing negative.
   */
  lemma LoopsCompletedUnique(total: real, n: nat)
    requires total - Times(n, FullTurn) < FullTurn
    requires 0 < n ==> 0.0 <= total - Times(n, FullTurn)
    ensures n == LoopsCompleted(total)
  {
  }

  /** The small ring's accumulated rotation and the loop count it has fed. */
  datatype LoopState = LoopState(total: real, count: nat)

  /**
   * One small-ring step of `delta` degrees: the count and the leftover
   * rotation together account for exactly the old ones plus `delta`, the
   * leftover ends below one turn, and the count never goes down. A step of
   * at most half a turn from a leftover below one turn adds at most one.
   */
  function CountStep(s: LoopState, delta: real): (r: LoopState)
    ensures Times(r.count, FullTurn) + r.total == Times(s.count, FullTurn) + s.total + delta
    ensures r.total < FullTurn
    ensures s.count <= r.count
    ensures s.total + delta < FullTurn ==> r == LoopState(s.total + delta, s.count)
    ensures FullTurn <= s.total + delta ==> 0.0 <= r.total && s.count < r.count
    ensures s.total < FullTurn && delta <= HalfTurn ==> r.count <= s.count + 1
  {
    var t := s.total + delta;
    var n := LoopsCompleted(t);
    LoopState(t - Times(n, FullTurn), s.count + n)
  }

  function Sum(deltas: seq<real>): real
  {
    if deltas == [] then 0.0 else Sum(deltas[..|deltas| - 1]) + deltas[|deltas| - 1]
  }

  /** The state after a drag made of the steps `deltas`, in order. */
  function Replay(s: LoopState, deltas: seq<real>): LoopState
  {
    if deltas == [] then s else CountStep(Replay(s, deltas[..|deltas| - 1]), deltas[|deltas| - 1])
  }

  predicate AllForward(deltas: seq<real>)
  {
    forall i :: 0 <= i < |deltas| ==> 0.0 <= deltas[i]
  }

  /**
   * Over any drag, turns counted plus leftover rotation grow by exactly
   * the sum of the steps, and the count never decreases.
   */
  lemma {:induction false} ReplayConserves(s: LoopState, deltas: seq<real>)
    ensures var r := Replay(s, deltas);
      Times(r.count, FullTurn) + r.total == Times(s.count, FullTurn) + s.total + Sum(deltas)
      && s.count <= r.count
  {
    if deltas != [] {
      ReplayConserves(s, deltas[..|deltas| - 1]);
    }
  }

  /** A value `n` turns plus a leftover in [0, 360) has floor quotient `n`. */
  lemma FloorOfTurns(n: int, rest: real)
    requires 0.0 <= rest < FullTurn
    ensures ((Times(n, FullTurn) + rest) / FullTurn).Floor == n
  {
  }

  /**
   * Starting from a fresh counter, a drag made only of forward steps
   * counts floor(sum / 360) loops, however the sum is split into steps,
   * and leaves the remainder in [0, 360).
   */
  lemma {:induction false} ReplayForwardFromZero(deltas: seq<real>)
    requires AllForward(deltas)
    ensures var r := Replay(LoopState(0.0, 0), deltas);
      0.0 <= r.total < FullTurn
      && r.count == (Sum(deltas) / FullTurn).Floor
  {
    if deltas != [] {
      var init := deltas[..|deltas| - 1];
      assert AllForward(init) by {
        forall i | 0 <= i < |init| ensures 0.0 <= init[i] {
          assert init[i] == deltas[i];
        }
      }
      ReplayForwardFromZero(init);
    }
    var r := Replay(LoopState(0.0, 0), deltas);
    ReplayConserves(LoopState(0.0, 0), deltas);
    FloorOfTurns(r.count, r.total);
  }

  /** A forward drag totalling 725 degrees counts two loops, in one step or in many. */
  lemma ForwardDragOf725CountsTwo(deltas: seq<real>)
    requires AllForward(deltas) && Sum(deltas) == 725.0
    ensures Replay(LoopState(0.0, 0), deltas).count == 2
  {
    ReplayForwardFromZero(deltas);
  }
}
