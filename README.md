# Dual-ring video scrubber, modelled in Dafny

The page shows two concentric rings over a video. Dragging either ring with
a pointer turns it. Each pointer move is folded onto the shortest path,
so crossing the ±180° seam of `atan2` is a small step and never a jump of
nearly a full turn. The video is scrubbed in proportion: one full turn spans
the whole clip, and seeks are wrapped into the clip and kept 0.04 s away from
both ends. The small ring also counts loops. Its steps are added to an
accumulated rotation, and each full positive turn in it raises a counter
that shows at least two digits. A tap on the centre resets the counter.
Once the clip's metadata is known, the video seeks to a stable first frame
at 15 s, or at a fifth of a shorter clip.

The project models `src/main.js`, the part of the page that holds this logic:

- `angles.dfy` (module `Angles`): JavaScript's `%` on numbers (`JsRem`), and
  floored modulo (`FloorMod`) as the reference it is proved against. It also
  holds the shortest-path normalisation of a drag step and the re-wrapping
  of a ring's rotation into [0, 360).
- `playback.dfy` (module `Playback`): `wrapTime`, the scrub offset, the
  stable-frame target, and a `Video` class standing for the video element.
  The class has `SeekSafely`, `ScrubByDeltaDegrees` and the `loadedmetadata`
  handler.
- `counter.dfy` (module `CounterDisplay`): the counter text
  `loopCount.toString().padStart(2, "0")`. It has a decimal numeral, a
  `padStart`, and a proof that the text reads back as the count.
- `loops.dfy` (module `LoopCounting`): the loop-counting step as a value
  function, `CountStep`. Its properties over single steps and over whole
  drags (`Replay`) are proved here.
- `scrubber.dfy` (module `Scrubber`): class `RingScrubber` holds the
  page-lifetime state: drag flags, last angles, ring rotations, accumulated
  small-ring rotation, loop count and counter text. Its methods are the
  pointer handlers and the counter updates. Each method is proved against
  the value functions above.

Degrees and seconds are exact reals. The pointer angle of an event is an
input in [-180, 180], the range of `atan2` in degrees. A ghost cumulative
rotation per ring shows that re-wrapping the visual rotation on every move
loses nothing. The class invariant keeps the visual rotation equal to the
floored modulo of that cumulative sum.

Behaviour worth noting:

- The page re-wraps each ring's rotation into [0, 360) on every move. It
  keeps no unbounded cumulative rotation (the model adds one as ghost state
  only).
- The centre tap (`resetCounter`) zeroes only the loop count and its text.
  It does not zero the rings, the accumulated small-ring rotation or the
  video time. `ResetCounter` has exactly that frame.
- `wrapTime` lands in [0.04, duration − 0.04] only when the clip is at least
  0.08 s long. For a shorter clip the second clamp wins, and the result is
  duration − 0.04, which is negative below 0.04 s. `WrapTime` states both cases.

## Model

| member | source | states |
|---|---|---|
| Angles.JsRem | src/main.js:72 | JavaScript `%` with a positive divisor: the result is strictly within one divisor of zero, has the dividend's sign and differs from it by whole divisors |
| Angles.FloorMod | src/main.js:72 | the reference wrap: the unique representative in [0, b) of the dividend's class modulo b |
| Angles.JsWrapIsFloorMod | src/main.js:72 | the double-`%` wrap `((a % b) + b) % b` equals floored modulo, for every real `a` |
| Angles.NormalizeDeltaAngle | src/main.js:121-126 | a step within ±180° is unchanged; a step above 180° loses exactly one turn and a step below −180° gains exactly one; a raw step within ±540° ends in [-180, 180]; the result always points the same way as the raw step |
| Angles.NormalizeDeltaIsShortest | src/main.js:121-126 | no step that differs from the raw step by whole turns is shorter than the normalised one |
| Angles.PointerDeltaIsHalfTurnAtMost | src/main.js:115-126 | the difference of any two `atan2` angles normalises into [-180, 180] |
| Angles.NormalizeCrossingSeam | src/main.js:121-126 | moving across the seam from 170° to −170° is a 20° forward step, not −340° |
| Angles.WrapDegrees | src/main.js:189-190 | the rotation wrap `(x % 360)`, lifted by 360 when negative, lands in [0, 360) and points the same way as x |
| Angles.WrapDegreesIsFloorMod | src/main.js:189-190 | the rotation wrap equals floored modulo 360 |
| Angles.WrapDegreesTracksCumulative | src/main.js:189-190 | if the rotation is the wrap of an unbounded cumulative rotation, it stays so after any step |
| Angles.WrapDegreesInRange | src/main.js:189-190 | a rotation already in [0, 360) is left unchanged |
| Angles.WrapDegreesBelowZero | src/main.js:189-190 | rotating 5° by −10° shows 355° |
| Playback.WrapTime | src/main.js:70-79 | the result is at most duration − 0.04; it is at least 0.04 when the clip is at least 0.08 s, and exactly duration − 0.04 when it is shorter; it equals the floored modulo of t when that lies in [0.04, duration − 0.04]; otherwise it is clamped to the nearer bound; a t already in that interval is returned unchanged |
| Playback.WrapTimePeriodic | src/main.js:70-79 | adding whole clip lengths to the target does not change the result |
| Playback.WrapTimeIdempotent | src/main.js:70-79 | wrapping an already wrapped time changes nothing |
| Playback.ScrubbedTime | src/main.js:161-166 | with unknown duration (≤ 0) the position is unchanged; otherwise it is at most duration − 0.04, and within [0.04, duration − 0.04] for a clip of at least 0.08 s |
| Playback.ScrubWholeTurns | src/main.js:161-166 | at unit sensitivity, scrubbing by k whole turns lands on the same time as not scrubbing |
| Playback.ScrubOffsetOfTurns | src/main.js:164 | k turns of offset at unit sensitivity are exactly k clip lengths |
| Playback.ScrubOffsetAdditive | src/main.js:164 | the offset of two steps' sum is the sum of their offsets |
| Playback.StableFrameTarget | src/main.js:100 | the target is the smaller of 15 s and a fifth of the duration |
| Playback.StableFrameUnclamped | src/main.js:99-101 | for any clip of at least 0.2 s the safe wrap leaves the stable-frame target unchanged |
| Playback.Video.SeekSafely | src/main.js:81-92 | the seek is skipped while the duration is unknown; otherwise the position becomes WrapTime(t, duration); the duration is untouched |
| Playback.Video.ScrubByDeltaDegrees | src/main.js:161-166 | the new position is ScrubbedTime of the old position, the duration, the step and the sensitivity |
| Playback.Video.OnLoadedMetadata | src/main.js:99-101 | with a known duration the position becomes WrapTime(min(15, 0.2·duration)); otherwise nothing changes |
| CounterDisplay.DecimalText | src/main.js:41 | `toString()` of a count: digits only, at least one, no leading zero except for 0, one digit exactly below 10, at most two below 100, and it reads back as the count |
| CounterDisplay.PadStart | src/main.js:41 | `padStart`: the length is max(width, length), the original string is the suffix, and every added character is the fill |
| CounterDisplay.CounterTextReadsBack | src/main.js:41 | the counter text has at least two digits, exactly two below 100, and its decimal value is the count |
| CounterDisplay.ResetTextIsCounterText | src/main.js:44-47 | the reset text "00" is exactly the counter text of 0 |
| CounterDisplay.CounterTextInjective | src/main.js:41 | two different counts never show the same text |
| LoopCounting.LoopsCompleted | src/main.js:219-222 | the counting loop runs zero times below one turn, and otherwise n times with 360·n ≤ total < 360·(n+1) |
| LoopCounting.LoopsCompletedUnique | src/main.js:219-222 | any n that leaves less than a turn, and nothing negative when n > 0, is the number of loop runs |
| LoopCounting.CountStep | src/main.js:216-222 | one step keeps 360·count + total increased by exactly the step; the leftover ends below 360; the count never decreases; below a turn nothing is counted; reaching a turn counts at least one loop and leaves a leftover ≥ 0; a step ≤ 180° from a leftover below 360 counts at most one loop |
| LoopCounting.ReplayConserves | src/main.js:216-222 | over any drag, 360·count + leftover grows by exactly the sum of the steps and the count never decreases |
| LoopCounting.ReplayForwardFromZero | src/main.js:216-222 | from a fresh counter, a drag of forward steps counts floor(sum / 360) loops and leaves the leftover in [0, 360), however the sum is split |
| LoopCounting.ForwardDragOf725CountsTwo | src/main.js:216-222 | a forward drag totalling 725° counts exactly two loops |
| Scrubber.RingScrubber.constructor | src/main.js:135-145 | page load: neither ring dragged, angles, rotations, accumulated rotation and count all zero, and the class invariant holds |
| Scrubber.RingScrubber.UpdateCounter | src/main.js:39-42 | the count goes up by one and the text becomes CounterText of the new count |
| Scrubber.RingScrubber.ResetCounter | src/main.js:44-47 | the count becomes 0 and the text "00", which is CounterText(0), whatever the previous state, so a second reset changes nothing; only these two fields may change |
| Scrubber.RingScrubber.StartDragBig | src/main.js:168-173 | the big ring is dragged from the given angle; only its flag and last angle may change |
| Scrubber.RingScrubber.StartDragSmall | src/main.js:175-180 | the small ring is dragged from the given angle; only its flag and last angle may change |
| Scrubber.RingScrubber.EndDrag | src/main.js:234-236 | neither ring is dragged afterwards; only the two flags may change |
| Scrubber.RingScrubber.RotateBig | src/main.js:189-190 | the big ring's rotation becomes WrapDegrees(old + step) and stays the wrap of its cumulative rotation |
| Scrubber.RingScrubber.RotateSmall | src/main.js:207-208 | the small ring's rotation becomes WrapDegrees(old + step) and stays the wrap of its cumulative rotation |
| Scrubber.RingScrubber.MoveDragBig | src/main.js:182-198 | without a drag nothing changes; with one, the normalised step lies in [-180, 180], the rotation is re-wrapped into [0, 360), the video position becomes ScrubbedTime with the big sensitivity, the current angle becomes the last angle, and the loop count and accumulated rotation are untouched |
| Scrubber.RingScrubber.CountLoops | src/main.js:215-222 | the accumulated rotation and count after the counting loop are exactly CountStep of the old ones; the text is unchanged if nothing was counted and otherwise shows the new count |
| Scrubber.RingScrubber.MoveDragSmall | src/main.js:200-232 | without a drag nothing changes; with one, the ring turns and scrubs like the big ring with the small sensitivity; the accumulated rotation and count become CountStep of the old ones, and the count rises by at most one per event |
| Scrubber.ScenarioFirstStep | src/main.js:200-232 | first move of a sample small-ring drag: a 170° step turns the ring to 170° and counts nothing |
| Scrubber.ScenarioSecondStep | src/main.js:200-232 | second move: the raw −190° across the seam is a forward 170°, giving rotation 340° and still no loop |
| Scrubber.ScenarioThirdStep | src/main.js:200-232 | third move: 40° more wraps the ring to 20°, counts one loop and leaves 20° uncounted |

## Left out

- The loading overlay, camera start-up and console logging are left out. They are timers, media devices and I/O, with no state the rings use.
- Pointer geometry (`getElementCenter`, `getAngle`, `pointerAngleOnRing`) is left out. Element layout and `Math.atan2` are browser-side, so the pointer angle is an input in [-180, 180] instead.
- `applyRotationUI` and the `grabbing` CSS class are left out. They only write styles; the rotations they show are modelled.
- Pointer capture and its release in `try`/`catch`, `preventDefault`, and the event-listener wiring are left out. They belong to the browser event system; each handler is a method.
- `video.pause()` at start-up is left out because the model does not track play/pause state.
- `fastSeek` and setting `currentTime` are modelled as the same single write of the target time. The difference is a browser seeking strategy.
- A missing video element and an unknown duration (0 or NaN) are folded into duration ≤ 0, and each makes the seek and the scrub do nothing. Browsers never report a negative duration; the model folds that case in too, although `!video.duration` would let a negative number through.
- Numbers are exact reals, so IEEE-754 rounding, NaN and an infinite duration are not modelled.
- The commented-out reverse-loop decrement is not part of the program, and the model has no decrement.
- The counter element's text before the first update is a constructor parameter. The page's markup is not part of this model.
- Playback.ScrubOffset: carries no contract of its own, because it is the formula `(deltaDeg / 360) · duration · sensitivity`. Its properties are in ScrubOffsetOfTurns and ScrubOffsetAdditive.
- CounterDisplay.CounterText: carries no contract of its own, because it is the expression `loopCount.toString().padStart(2, "0")` (src/main.js:41) built from DecimalText and PadStart. Its properties are in CounterTextReadsBack, ResetTextIsCounterText and CounterTextInjective.
