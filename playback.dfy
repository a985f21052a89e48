/**
 * Video scrubbing: the safe wrap of a seek target into the clip, the
 * conversion of a ring rotation into a time offset, and the video element
 * whose playback position the rings drive.
 */
module Playback {
  import opened Angles

  /** Distance kept from both ends of the clip when seeking, in seconds. */
  const SeekEps: real := 0.04

  /** The stable starting frame, in seconds, used when the clip is long enough. */
  const StableFrameTime: real := 15.0

  /** Fraction of the clip used for the starting frame of a short clip. */
  const StableFrameFraction: real := 0.2

  function Min(x: real, y: real): real
  {
    if x <= y then x else y
  }

  /**
   * Wrap a target time into [0, duration) with JavaScript's double `%`,
   * then push it at least `SeekEps` away from either end. The result is the
   * floored modulo of `t`, clamped into [SeekEps, duration - SeekEps];
   * when the clip is shorter than two margins that interval is empty and
   * the upper bound `duration - SeekEps` wins.
   */
  function WrapTime(t: real, duration: real): (r: real)
    requires 0.0 < duration
    ensures r <= duration - SeekEps
    ensures 2.0 * SeekEps <= duration ==> SeekEps <= r
    ensures duration < 2.0 * SeekEps ==> r == duration - SeekEps
    ensures SeekEps <= FloorMod(t, duration) <= duration - SeekEps ==> r == FloorMod(t, duration)
    ensures FloorMod(t, duration) < SeekEps && 2.0 * SeekEps <= duration ==> r == SeekEps
    ensures duration - SeekEps < FloorMod(t, duration) ==> r == duration - SeekEps
    ensures SeekEps <= t <= duration - SeekEps ==> r == t
  {
    var w := JsRem(JsRem(t, duration) + duration, duration);
    JsWrapIsFloorMod(t, duration);
    FloorModInRange(t, duration);
    var atLeastEps := if w < SeekEps then SeekEps else w;
    if atLeastEps > duration - SeekEps then duration - SeekEps else atLeastEps
  }

  /** Adding whole clip lengths to the target does not change where a seek lands. */
  lemma {:induction false} WrapTimePeriodic(t: real, duration: real, k: int)
    requires 0.0 < duration
    ensures WrapTime(t + Times(k, duration), duration) == WrapTime(t, duration)
  {
    assert Congruent(t + Times(k, duration), t, duration);
    FloorModOfCongruent(t + Times(k, duration), t, duration);
  }

  /** Seeking to where a seek already landed lands there again. */
  lemma WrapTimeIdempotent(t: real, duration: real)
    requires 0.0 < duration
    ensures WrapTime(WrapTime(t, duration), duration) == WrapTime(t, duration)
  {
  }

  /** The time offset for a rotation of `deltaDeg`: one turn spans the clip, scaled by the sensitivity. */
  function ScrubOffset(deltaDeg: real, duration: real, sensitivity: real): real
  {
    (deltaDeg / FullTurn) * duration * sensitivity
  }

  /**
   * Where a scrub by `deltaDeg` leaves the playback position: unchanged
   * while the duration is unknown, otherwise the safe wrap of the offset
   * position.
   */
  function ScrubbedTime(currentTime: real, duration: real, deltaDeg: real, sensitivity: real): (r: real)
    ensures duration <= 0.0 ==> r == currentTime
    ensures 0.0 < duration ==> r <= duration - SeekEps
    ensures 2.0 * SeekEps <= duration ==> SeekEps <= r <= duration - SeekEps
  {
    if 0.0 < duration then WrapTime(currentTime + ScrubOffset(deltaDeg, duration, sensitivity), duration)
    else currentTime
  }

  /**
   * At unit sensitivity, turning a ring by whole turns shows the same frame
   * as not turning it at all.
   */
  lemma {:induction false} ScrubWholeTurns(currentTime: real, duration: real, k: int)
    requires 0.0 < duration
    ensures ScrubbedTime(currentTime, duration, Times(k, FullTurn), 1.0)
         == ScrubbedTime(currentTime, duration, 0.0, 1.0)
  {
    ScrubOffsetOfTurns(k, duration);
    WrapTimePeriodic(currentTime, duration, k);
    assert currentTime + ScrubOffset(0.0, duration, 1.0) == currentTime;
  }

  lemma ScrubOffsetOfTurns(k: int, duration: real)
    ensures ScrubOffset(Times(k, FullTurn), duration, 1.0) == Times(k, duration)
  {
    assert Times(k, FullTurn) / FullTurn == k as real;
  }

  /** Scrub offsets add up: two steps move the target as far as their sum. */
  lemma ScrubOffsetAdditive(a: real, b: real, duration: real, sensitivity: real)
    ensures ScrubOffset(a + b, duration, sensitivity)
         == ScrubOffset(a, duration, sensitivity) + ScrubOffset(b, duration, sensitivity)
  {
  }

  /** The time the metadata handler seeks to: 15 s, or a fifth of a shorter clip. */
  function StableFrameTarget(duration: real): (r: real)
    ensures r <= StableFrameTime && r <= StableFrameFraction * duration
    ensures r == StableFrameTime || r == StableFrameFraction * duration
  {
    Min(StableFrameTime, duration * StableFrameFraction)
  }

  /** For any clip of at least 0.2 s, the starting frame is exactly the target, not clamped. */
  lemma StableFrameUnclamped(duration: real)
    requires 0.2 <= duration
    ensures WrapTime(StableFrameTarget(duration), duration) == StableFrameTarget(duration)
  {
  }

  /**
   * The video element: this component reads its duration (zero or less
   * while metadata is unknown) and writes its playback position.
   */
  class Video {
    var duration: real
    var currentTime: real

    constructor (duration: real, currentTime: real)
      ensures this.duration == duration && this.currentTime == currentTime
    {
      this.duration := duration;
      this.currentTime := currentTime;
    }

    /** Seek to the safe wrap of `t`; skipped while the duration is unknown. */
    method SeekSafely(t: real)
      modifies this
      ensures duration == old(duration)
      ensures currentTime == if 0.0 < duration then WrapTime(t, duration) else old(currentTime)
    {
      if duration <= 0.0 {
        return;
      }
      var safe := WrapTime(t, duration);
      currentTime := safe;
    }

    /** Move the playback position by the time a rotation of `deltaDeg` stands for. */
    method ScrubByDeltaDegrees(deltaDeg: real, sensitivity: real)
      modifies this
      ensures duration == old(duration)
      ensures currentTime == ScrubbedTime(old(currentTime), duration, deltaDeg, sensitivity)
    {
      if duration <= 0.0 {
        return;
      }
      var deltaTime := ScrubOffset(deltaDeg, duration, sensitivity);
      SeekSafely(currentTime + deltaTime);
    }

    /** Once metadata is loaded, show a stable starting frame. */
    method OnLoadedMetadata()
      modifies this
      ensures duration == old(duration)
      ensures currentTime == if 0.0 < duration then WrapTime(StableFrameTarget(duration), duration) else old(currentTime)
    {
      SeekSafely(StableFrameTarget(duration));
    }
  }
}
