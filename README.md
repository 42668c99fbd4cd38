# TiltClock 3D — a Dafny model of the clock logic

TiltClock 3D draws an analog clock with a digital readout as a 3D scene in a
browser and tilts the scene with the device's orientation sensor. Almost all
of `tilt_clock_3D..js` configures the graphics library. This project models
the script's own logic, which is small:

- **ClockTime** (`clock_time.dfy`): hours, minutes, seconds and milliseconds
  become fractional seconds, minutes and 12-hour hours, and then clockwise hand
  angles in degrees. Each angle is proved to equal a constant rate times the
  time elapsed since that hand last stood at 12. From this follow the ranges,
  the mod-12 wrap, monotonicity and the absence of jumps between milliseconds.
- **Tilt** (`tilt.dfy`): the orientation callback latches `beta` and `gamma`;
  a falsy or missing reading becomes 0. Each frame clamps the stored values to
  ±15° and halves them.
- **Readout** (`readout.dfy`): `pad`, the `HH:MM:SS` time string and the
  `MM/DD/YY` date string, each proved together with a parse-back round trip.
- **TickGate** (`tick_gate.dfy`): the `animate.lastSecond` gate. It is counted
  over runs of frames: one fire per distinct wall-clock second, at any frame rate.
- **Framing** (`framing.dfy`): the camera distance (the larger of the height fit
  and the width fit) and the backdrop scale and texture repeat. `tan(fov/2)` is
  an abstract positive real.
- **Scene** (`scene.dfy`): class `ClockScene` holds the script's mutable state.
  Its methods are the orientation callback, the frame callback (`Animate`), the
  two framing updates, the resize arithmetic and the texture and readout
  attach callbacks. The constructor, `Resize` and `AttachTexture` establish
  `Framed()` (camera and backdrop match the aspect ratio); the constructor and
  `Animate` establish `PoseBounded()` (bounded tilt, hands within one turn).

Angles are in degrees throughout. The radian conversion is left to the
graphics library. Rotations of the hands are the negated clockwise angles, as
in the source.

## Model

| member | source | states |
|---|---|---|
| ClockTime.Seconds | tilt_clock_3D..js:348 | computes `getSeconds() + getMilliseconds() / 1000` |
| ClockTime.Minutes | tilt_clock_3D..js:349 | computes `getMinutes() + seconds / 60` |
| ClockTime.Hours | tilt_clock_3D..js:350 | computes `getHours() % 12 + minutes / 60` |
| ClockTime.SecondAngle | tilt_clock_3D..js:352 | computes `(seconds / 60) * 360` in degrees, before negation and `degToRad` |
| ClockTime.MinuteAngle | tilt_clock_3D..js:353 | computes `(minutes / 60) * 360` in degrees |
| ClockTime.HourAngle | tilt_clock_3D..js:354 | computes `(hours / 12) * 360` in degrees |
| ClockTime.AnglesAreElapsedTime | tilt_clock_3D..js:348-354 | each hand's angle is 360° times the fraction of its minute / hour / half-day elapsed, in whole milliseconds |
| ClockTime.AngleRanges | tilt_clock_3D..js:348-354 | second angle is (s + ms/1000)·6; minute angle in [6m, 6m+6); hour angle in [30·(h mod 12), +30); all in [0, 360) |
| ClockTime.HoursWrapAtTwelve | tilt_clock_3D..js:350 | an hour h ≥ 12 gives the same hour angle as h − 12 |
| ClockTime.AnglesMonotone | tilt_clock_3D..js:348-354 | within a minute, hour, half-day, a later time never gives a smaller second, minute, hour angle |
| ClockTime.AnglesAdvanceSmoothly | tilt_clock_3D..js:348-354 | from one millisecond of the day to the next each angle advances by its fixed rate, or wraps by exactly 360° |
| ClockTime.ThreeOClock | tilt_clock_3D..js:348-354 | 3:00:00.000 and 15:00:00.000 both give an hour angle of 90°, with minute and second angles of 0 |
| ClockTime.HalfPastSix | tilt_clock_3D..js:348-354 | 6:30:00.000 gives an hour angle of 195° and a minute angle of 180° |
| Tilt.Clamp | tilt_clock_3D..js:335-336 | computes the library's `clamp(v, lo, hi)` as max(lo, min(hi, v)) |
| Tilt.TiltDegrees | tilt_clock_3D..js:334-340 | computes `clamp(v, -15, 15) * 0.5`, in degrees |
| Tilt.Latched | tilt_clock_3D..js:298-299 | computes the logical-or fallback `reading or 0` of lines 298-299: a falsy or missing field (undefined, null, NaN) is `None` and becomes 0; 0 itself stays 0; any other number is kept |
| Tilt.Sample | tilt_clock_3D..js:297-300 | computes the latch after one callback: `tiltX` from gamma, `tiltY` from beta |
| Tilt.AfterSamples | tilt_clock_3D..js:297-300 | computes the latch after the callback has run for each sample in turn |
| Tilt.Consume | tilt_clock_3D..js:339-343 | computes the clock-unit rotation: x from the stored `tiltY`, y from the stored `tiltX`, each clamped and halved |
| Tilt.TiltBounded | tilt_clock_3D..js:334-340 | for any raw reading, the tilt output lies in [−7.5, 7.5] degrees |
| Tilt.TiltWithinRangeIsHalved | tilt_clock_3D..js:334-340 | a reading within ±15 comes out as half of itself; beyond it the output saturates at ±7.5 |
| Tilt.NinetyDegreesGiveSevenAndAHalf | tilt_clock_3D..js:334-340 | a raw reading of 90 yields 7.5 |
| Tilt.TiltMonotone | tilt_clock_3D..js:334-340 | a larger reading never gives a smaller tilt |
| Tilt.LastSampleWins | tilt_clock_3D..js:295-300 | after any non-empty run of samples the latch equals the last sample, whatever it held before |
| Tilt.BetaDrivesXGammaDrivesY | tilt_clock_3D..js:297-343 | after a run of samples, the x rotation is the clamped-halved last beta and the y rotation the clamped-halved last gamma |
| Tilt.NoSamplesStayLevel | tilt_clock_3D..js:295 | without any sample the scene tilt is (0, 0) |
| Readout.IntToString | tilt_clock_3D..js:365 | computes `toString()` of an integer: a minus sign, then the digits |
| Readout.PadStart | tilt_clock_3D..js:356 | computes `padStart(width, c)` for a one-character pad string |
| Readout.Pad | tilt_clock_3D..js:356 | computes `pad(n)`: `n.toString().padStart(2, '0')` |
| Readout.LastTwo | tilt_clock_3D..js:365 | computes `slice(-2)`: the last two characters, or the whole string if shorter |
| Readout.TimeString | tilt_clock_3D..js:360 | computes pad(hours) + ':' + pad(minutes) + ':' + pad(seconds) |
| Readout.DateString | tilt_clock_3D..js:365 | computes pad(month + 1) + '/' + pad(day) + '/' + the last two characters of the year's text |
| Readout.NatToString | tilt_clock_3D..js:356 | `toString` of a natural gives at least one decimal digit, no leading zero unless the number is 0, and one digit exactly for n < 10 |
| Readout.NatToStringRoundTrip | tilt_clock_3D..js:356 | reading the decimal text back gives the number |
| Readout.PadShape | tilt_clock_3D..js:356 | `pad(n)` is all digits, at least 2 long; numbers of two or more digits are unchanged, one digit gets one leading '0' |
| Readout.PadRoundTrip | tilt_clock_3D..js:356 | the padded text reads back as n |
| Readout.PadTwoDigits | tilt_clock_3D..js:356 | for n < 100, `pad(n)` is the tens digit then the units digit |
| Readout.YearSuffix | tilt_clock_3D..js:365 | for years of two or more digits, `slice(-2)` of the year's text is its last two digits, equal to `pad(year % 100)` |
| Readout.TimeStringShape | tilt_clock_3D..js:360 | for hours 0–23 the time string is exactly 8 characters `HH:MM:SS` whose pairs read back as hours, minutes, seconds |
| Readout.DateStringShape | tilt_clock_3D..js:365 | the date string is `pad(month+1)/pad(day)/(last two year digits)`: 8 characters whose pairs read back as month+1, day, year mod 100 |
| Readout.ReadoutExample | tilt_clock_3D..js:360-365 | 09:05:07 on 8 August 2025 reads "09:05:07" and "08/08/25" |
| TickGate.Fires | tilt_clock_3D..js:370 | computes `animate.lastSecond !== currentSecond`, with an undefined `lastSecond` as `None` |
| TickGate.Next | tilt_clock_3D..js:370-373 | computes `lastSecond` after a frame: the current second if the frame fired, unchanged otherwise |
| TickGate.CountFires | tilt_clock_3D..js:369-374 | computes how many of a run of frames fire, by running the gate frame by frame |
| TickGate.SecondOfMinute | tilt_clock_3D..js:369 | computes `Math.floor(getSeconds())` for a frame time in milliseconds |
| TickGate.GateStep | tilt_clock_3D..js:369-374 | the first frame always fires; a frame fires iff its second differs from `lastSecond`; afterwards `lastSecond` holds the current second |
| TickGate.FiresCountChanges | tilt_clock_3D..js:369-374 | over any run of frames, fires = 1 (first frame) + number of changes of the integer second |
| TickGate.SameSecondFiresOnce | tilt_clock_3D..js:369-374 | any number of frames within one second fires once, and never again once the gate holds that second |
| TickGate.OneTickPerSecond | tilt_clock_3D..js:369-374 | frames that never skip a whole wall-clock second fire exactly once per distinct second they span, at any frame rate |
| TickGate.FiveSecondsFiveTicks | tilt_clock_3D..js:369-374 | frames spanning five seconds fire exactly five ticks |
| Framing.DistanceForHeight | tilt_clock_3D..js:266 | computes `(clockSize / 2) / tan(fov / 2)` with clockSize 22 |
| Framing.DistanceForWidth | tilt_clock_3D..js:268-270 | computes `((clockSize / aspect) / 2) / tan(fov / 2)` |
| Framing.CameraDistance | tilt_clock_3D..js:272 | computes `Math.max(distanceForHeight, distanceForWidth)` |
| Framing.VisibleHeight | tilt_clock_3D..js:279 | computes `2 * tan(fov / 2) * distance` |
| Framing.BackdropScale | tilt_clock_3D..js:277-283 | computes `watch.scale`: width and height visible at distance `camera.z - watch.z`, times 1.2, and 1 in z |
| Framing.TextureRepeat | tilt_clock_3D..js:286-290 | computes `map.repeat`: the scale's x and y divided by 25 |
| Framing.CameraDistanceIsLargerFit | tilt_clock_3D..js:266-272 | camera distance is at least the height fit and the width fit, and equals one of them |
| Framing.WidthFitDominatesIffPortrait | tilt_clock_3D..js:266-272 | the width fit is strictly larger iff aspect < 1; the fits are equal iff aspect = 1 |
| Framing.DistanceChangesOnlyForPortrait | tilt_clock_3D..js:266-272 | all landscape aspects (16:9, 4:3) give the same height-fit distance; a 9:16 view takes the width fit, so both branches occur |
| Framing.FaceFitsView | tilt_clock_3D..js:262-272 | at the chosen distance the view is at least 22 units high and wide, and exactly 22 in the limiting direction |
| Framing.BackdropCoversView | tilt_clock_3D..js:277-283 | the backdrop scale is the visible height and width at the backdrop's depth times 1.2, so it is strictly larger than the untilted view |
| Framing.RepeatKeepsBackdropProportions | tilt_clock_3D..js:282-290 | the repeat keeps the backdrop's proportions: repeat.x equals the aspect ratio times repeat.y |
| Framing.RepeatTracksView | tilt_clock_3D..js:277-290 | with the camera in front of the backdrop, each repeat is positive and equals 1.2 times the visible extent at the backdrop's depth divided by 25 |
| Scene.ClockScene.constructor | tilt_clock_3D..js:379-383 | startup state: level tilt, undefined `lastSecond`, no readouts or texture, camera and backdrop framed (`Framed()`) |
| Scene.ClockScene.HandleOrientation | tilt_clock_3D..js:297-300 | the latch becomes the new sample whatever it held: `tiltY` = beta or 0, `tiltX` = gamma or 0 |
| Scene.ClockScene.Animate | tilt_clock_3D..js:331-374 | clock-unit x/y rotation = tilt of `tiltY`/`tiltX`; hand rotations = negated angles; existing readouts get the time/date strings; `tick` iff the second differs from `lastSecond`, which then holds it; keeps `PoseBounded()` |
| Scene.ClockScene.UpdateCameraPosition | tilt_clock_3D..js:262-273 | camera z becomes the larger of the two fits |
| Scene.ClockScene.UpdateBackgroundSize | tilt_clock_3D..js:275-292 | backdrop scale is set from the camera distance; the repeat is retiled to scale / 25 only when a map exists, and no map stays no map |
| Scene.ClockScene.Resize | tilt_clock_3D..js:385-391 | new aspect, then camera and backdrop are re-framed (`Framed()` holds) and texture presence is unchanged |
| Scene.ClockScene.AttachTexture | tilt_clock_3D..js:88-90 | after the texture arrives the map exists, its repeat is scale / 25 and the scene stays framed |
| Scene.ClockScene.AttachReadouts | tilt_clock_3D..js:16-18 | both readout elements exist and are empty |

## Left out

- Scene graph, meshes, materials, lights, shadows, renderer and environment-map setup (`tilt_clock_3D..js:37-66`, `99-258`). These configure an external graphics library.
- Tick-mark and numeral placement by `sin`/`cos` (`tilt_clock_3D..js:134-212`). This is floating-point trigonometry. Its only discrete rule is that every fifth of the 60 marks, 12 in all, is an hour mark (`i % 5 === 0`).
- The texture settings in the load callback (`tilt_clock_3D..js:83-87`): encoding, wrapping, and the quarter-turn rotation about the centre. The model does not capture how the graphics library combines that rotation with the repeat, so which repeat component runs across the backdrop on screen is not modelled.
- Whether the backdrop still covers the view while the clock unit is tilted (it tilts with the clock, `tilt_clock_3D..js:103`, `342-343`): BackdropCoversView is about the untilted view only.
- Asynchronous loading of the texture, HDR environment and font, including the fallback colour on error (`tilt_clock_3D..js:80-97`, `121-131`, `185-212`). These are I/O. Only the texture's completion step (map attached, then backdrop re-sized) is modelled, as `AttachTexture`.
- DOM work: styling the readouts, the "Enable Tilt" button and the asynchronous `requestPermission` flow (`tilt_clock_3D..js:16-33`, `302-325`). Only the fact that the readout elements may not exist yet is modelled; when permission is refused no sample is ever delivered, which `NoSamplesStayLevel` covers.
- Audio playback and its swallowed rejection (`tilt_clock_3D..js:327-328`, `371-372`). `Animate` returns the decision to play.
- `requestAnimationFrame`, the resize listener's registration, `renderer.setSize`, `updateProjectionMatrix`, `camera.lookAt` and `renderer.render` (`tilt_clock_3D..js:332`, `345`, `376`, `385-391`). These are host scheduling and rendering. The clock reading is a parameter of `Animate` rather than a read of the system clock.
- `degToRad` and the actual value of `tan(fov/2)`. Angles stay in degrees, and tan(fov/2) is a positive real constant of the scene.
- The readout HTML: `Animate` stores the time and date strings and leaves out the surrounding `<span style=…>` markup.
- JavaScript numbers are IEEE doubles. The model computes with exact reals, so rounding in the angle and framing arithmetic is not modelled.
- Scene.ClockScene.UpdateCameraPosition: requires a positive aspect ratio. A zero-width window would give an infinite distance in JavaScript, and reals have no infinity.
- Scene.ClockScene.constructor: requires a positive aspect ratio, because it calls UpdateCameraPosition.
- Scene.ClockScene.Resize: requires a positive aspect ratio, for the same reason.
- Scene.ClockScene.UpdateBackgroundSize: the guard `if (!watch \|\| !camera) return;` never triggers, because both are constants created earlier in the script, so the model always proceeds.
- Readout.DateStringShape: assumes a year of two or more digits. For years 0–9 the source's `slice(-2)` yields a single character, so the date string has 7 characters; for negative years the sign can remain.
- TickGate.OneTickPerSecond: assumes frames never skip a whole wall-clock second (each frame's second is the previous frame's or the next one); frames 1.8 s apart can still satisfy this. The gate compares only the second within the minute (`getSeconds()`), so two consecutive frames on the same second of different minutes — for example after a paused tab — do not fire.
