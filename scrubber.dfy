/**
 * The dual-ring drag controller: the page-lifetime state shared by the
 * pointer handlers of the big and the small ring, and the handlers
 * themselves. The pointer angle of an event (from `atan2`, in degrees) is
 * an input to the handlers; the video element is the shared `Video`.
 */
module Scrubber {
  import opened Angles
  import opened Playback
  import opened CounterDisplay
  import opened LoopCounting

  /** Sensitivity of the coarse big ring. */
  const BigSensitivity: real := 1.0

  /** Sensitivity of the precise small ring. */
  const SmallSensitivity: real := 1.0

  class RingScrubber {
    var draggingBig: bool
    var draggingSmall: bool
    var lastAngleBig: real
    var lastAngleSmall: real
    /** Visual rotation of each ring, re-wrapped into [0, 360) on every move. */
    var rotationBig: real
    var rotationSmall: real
    /** Small-ring rotation not yet turned into counted loops. */
    var totalSmallRotation: real
    var loopCount: nat
    /** The text shown by the counter element. */
    var counterText: string
    const video: Video

    /** Unbounded sum of every step each ring has taken; the visual rotation is its wrap. */
    ghost var cumulativeBig: real
    ghost var cumulativeSmall: real

    ghost predicate Valid()
      reads this
    {
      && rotationBig == FloorMod(cumulativeBig, FullTurn)
      && rotationSmall == FloorMod(cumulativeSmall, FullTurn)
      && totalSmallRotation < FullTurn
      && IsPointerAngle(lastAngleBig) && IsPointerAngle(lastAngleSmall)
    }

    /** Page load: nothing dragged, rings at 0, counter at 0 showing the element's own text. */
    constructor (video: Video, counterText: string)
      ensures Valid()
      ensures this.video == video && this.counterText == counterText
      ensures !draggingBig && !draggingSmall
      ensures lastAngleBig == 0.0 && lastAngleSmall == 0.0
      ensures rotationBig == 0.0 && rotationSmall == 0.0
      ensures totalSmallRotation == 0.0 && loopCount == 0
    {
      this.video := video;
      this.counterText := counterText;
      draggingBig, draggingSmall := false, false;
      lastAngleBig, lastAngleSmall := 0.0, 0.0;
      rotationBig, rotationSmall := 0.0, 0.0;
      totalSmallRotation := 0.0;
      loopCount := 0;
      cumulativeBig, cumulativeSmall := 0.0, 0.0;
      FloorModInRange(0.0, FullTurn);
    }

    /** Count one more loop and show it, zero-padded to two digits. */
    method UpdateCounter()
      modifies this`loopCount, this`counterText
      ensures loopCount == old(loopCount) + 1
      ensures counterText == CounterText(loopCount)
    {
      loopCount := loopCount + 1;
      counterText := CounterText(loopCount);
    }

    /** Zero the counter and its text; the rings, the accumulated rotation and the video are untouched. */
    method ResetCounter()
      modifies this`loopCount, this`counterText
      ensures loopCount == 0 && counterText == "00"
      ensures counterText == CounterText(loopCount)
    {
      loopCount := 0;
      counterText := "00";
      ResetTextIsCounterText();
    }

    /** Pointer down on the big ring: it is dragged from `angle`. */
    method StartDragBig(angle: real)
      requires Valid() && IsPointerAngle(angle)
      modifies this`draggingBig, this`lastAngleBig
      ensures Valid()
      ensures draggingBig && lastAngleBig == angle
    {
      draggingBig := true;
      lastAngleBig := angle;
    }

    /** Pointer down on the small ring: it is dragged from `angle`. */
    method StartDragSmall(angle: real)
      requires Valid() && IsPointerAngle(angle)
      modifies this`draggingSmall, this`lastAngleSmall
      ensures Valid()
      ensures draggingSmall && lastAngleSmall == angle
    {
      draggingSmall := true;
      lastAngleSmall := angle;
    }

    /** Pointer up or cancel on either ring: neither ring is dragged any more. */
    method EndDrag()
      modifies this`draggingBig, this`draggingSmall
      ensures !draggingBig && !draggingSmall
    {
      draggingBig := false;
      draggingSmall := false;
    }

    /**
     * Turn the big ring's visual rotation by a step and re-wrap it into
     * [0, 360); it stays the wrap of the unbounded cumulative rotation.
     */
    method RotateBig(deltaDeg: real)
      requires rotationBig == FloorMod(cumulativeBig, FullTurn)
      modifies this`rotationBig, this`cumulativeBig
      ensures rotationBig == WrapDegrees(old(rotationBig) + deltaDeg)
      ensures cumulativeBig == old(cumulativeBig) + deltaDeg
      ensures rotationBig == FloorMod(cumulativeBig, FullTurn)
    {
      WrapDegreesTracksCumulative(rotationBig, cumulativeBig, deltaDeg);
      rotationBig := WrapDegrees(rotationBig + deltaDeg);
      cumulativeBig := cumulativeBig + deltaDeg;
    }

    /** The same re-wrapping turn for the small ring. */
    method RotateSmall(deltaDeg: real)
      requires rotationSmall == FloorMod(cumulativeSmall, FullTurn)
      modifies this`rotationSmall, this`cumulativeSmall
      ensures rotationSmall == WrapDegrees(old(rotationSmall) + deltaDeg)
      ensures cumulativeSmall == old(cumulativeSmall) + deltaDeg
      ensures rotationSmall == FloorMod(cumulativeSmall, FullTurn)
    {
      WrapDegreesTracksCumulative(rotationSmall, cumulativeSmall, deltaDeg);
      rotationSmall := WrapDegrees(rotationSmall + deltaDeg);
      cumulativeSmall := cumulativeSmall + deltaDeg;
    }

    /**
     * Pointer move on the big ring. Ignored unless the big ring is dragged;
     * otherwise the ring turns by the normalised step, the video is
     * scrubbed by it, and the step's end becomes the new reference angle.
     */
    method MoveDragBig(currentAngle: real)
      requires Valid() && IsPointerAngle(currentAngle)
      modifies this`rotationBig, this`cumulativeBig, this`lastAngleBig, video
      ensures Valid()
      ensures !old(draggingBig) ==> unchanged(this) && unchanged(video)
      ensures old(draggingBig) ==>
        var delta := NormalizeDeltaAngle(currentAngle - old(lastAngleBig));
        && -HalfTurn <= delta <= HalfTurn
        && rotationBig == WrapDegrees(old(rotationBig) + delta)
        && cumulativeBig == old(cumulativeBig) + delta
        && lastAngleBig == currentAngle
        && video.currentTime == ScrubbedTime(old(video.currentTime), video.duration, delta, BigSensitivity)
      ensures video.duration == old(video.duration)
      ensures loopCount == old(loopCount) && totalSmallRotation == old(totalSmallRotation)
    {
      if !draggingBig {
        return;
      }
      var deltaDeg := currentAngle - lastAngleBig;
      deltaDeg := NormalizeDeltaAngle(deltaDeg);

      RotateBig(deltaDeg);

      video.ScrubByDeltaDegrees(deltaDeg, BigSensitivity);

      lastAngleBig := currentAngle;
    }

    /**
     * The loop-counting part of a small-ring move: add the step to the
     * accumulated rotation, then take off every full positive turn and
     * count it, updating the counter text each time.
     */
    method CountLoops(deltaDeg: real)
      modifies this`totalSmallRotation, this`loopCount, this`counterText
      ensures LoopState(totalSmallRotation, loopCount)
           == CountStep(LoopState(old(totalSmallRotation), old(loopCount)), deltaDeg)
      ensures counterText == if loopCount == old(loopCount) then old(counterText) else CounterText(loopCount)
    {
      totalSmallRotation := totalSmallRotation + deltaDeg;
      ghost var accumulated, counted, shown := totalSmallRotation, loopCount, counterText;
      while totalSmallRotation >= FullTurn
        invariant counted <= loopCount
        invariant totalSmallRotation == accumulated - Times(loopCount - counted, FullTurn)
        invariant counted < loopCount ==> 0.0 <= totalSmallRotation
        invariant counterText == if loopCount == counted then shown else CounterText(loopCount)
        decreases totalSmallRotation.Floor
      {
        totalSmallRotation := totalSmallRotation - FullTurn;
        UpdateCounter();
      }
      ghost var loops := loopCount - counted;
      LoopsCompletedUnique(accumulated, loops);
      assert accumulated == old(totalSmallRotation) + deltaDeg && counted == old(loopCount);
      assert CountStep(LoopState(old(totalSmallRotation), old(loopCount)), deltaDeg)
          == LoopState(accumulated - Times(loops, FullTurn), counted + loops);
    }

    /**
     * Pointer move on the small ring. Ignored unless the small ring is
     * dragged; otherwise it turns and scrubs like the big ring, and the
     * step also feeds the loop counter: every full positive turn
     * accumulated is taken off and counted.
     */
    method MoveDragSmall(currentAngle: real)
      requires Valid() && IsPointerAngle(currentAngle)
      modifies this`rotationSmall, this`cumulativeSmall, this`lastAngleSmall
      modifies this`totalSmallRotation, this`loopCount, this`counterText, video
      ensures Valid()
      ensures !old(draggingSmall) ==> unchanged(this) && unchanged(video)
      ensures old(draggingSmall) ==>
        var delta := NormalizeDeltaAngle(currentAngle - old(lastAngleSmall));
        && -HalfTurn <= delta <= HalfTurn
        && rotationSmall == WrapDegrees(old(rotationSmall) + delta)
        && cumulativeSmall == old(cumulativeSmall) + delta
        && lastAngleSmall == currentAngle
        && video.currentTime == ScrubbedTime(old(video.currentTime), video.duration, delta, SmallSensitivity)
        && LoopState(totalSmallRotation, loopCount)
           == CountStep(LoopState(old(totalSmallRotation), old(loopCount)), delta)
      ensures old(loopCount) <= loopCount <= old(loopCount) + 1
      ensures counterText == if loopCount == old(loopCount) then old(counterText) else CounterText(loopCount)
      ensures video.duration == old(video.duration)
    {
      if !draggingSmall {
        return;
      }
      var deltaDeg := currentAngle - lastAngleSmall;
      deltaDeg := NormalizeDeltaAngle(deltaDeg);

      RotateSmall(deltaDeg);

      video.ScrubByDeltaDegrees(deltaDeg, SmallSensitivity);

      CountLoops(deltaDeg);

      lastAngleSmall := currentAngle;
    }
  }

  // A small-ring drag from 0 through 170 and -20 to 20 degrees, one move at a
  // time: the drag adds up to 380 degrees, counts one loop and leaves the
  // ring showing 20 degrees with 20 degrees of rotation not yet counted.

  /** First move: a plain 170-degree turn. */
  lemma ScenarioFirstStep()
    ensures NormalizeDeltaAngle(170.0 - 0.0) == 170.0
    ensures WrapDegrees(0.0 + 170.0) == 170.0
    ensures CountStep(LoopState(0.0, 0), 170.0) == LoopState(170.0, 0)
  {
    WrapDegreesInRange(170.0);
  }

  /** Second move: the raw -190 degrees across the seam is a forward 170. */
  lemma ScenarioSecondStep()
    ensures NormalizeDeltaAngle(-20.0 - 170.0) == 170.0
    ensures WrapDegrees(170.0 + 170.0) == 340.0
    ensures CountStep(LoopState(170.0, 0), 170.0) == LoopState(340.0, 0)
  {
    WrapDegreesInRange(340.0);
  }

  /** Third move: 40 more degrees complete a loop and the ring wraps to 20. */
  lemma ScenarioThirdStep()
    ensures NormalizeDeltaAngle(20.0 - -20.0) == 40.0
    ensures WrapDegrees(340.0 + 40.0) == 20.0
    ensures CountStep(LoopState(340.0, 0), 40.0) == LoopState(20.0, 1)
  {
    assert Congruent(380.0, 20.0, FullTurn) by {
      assert 380.0 - 20.0 == Times(1, FullTurn);
    }
    FloorModOfCongruent(380.0, 20.0, FullTurn);
    FloorModInRange(20.0, FullTurn);
    WrapDegreesIsFloorMod(380.0);
  }
}
