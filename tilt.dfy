/**
 * Tilt latch and clamp (tilt_clock_3D..js, `handleOrientation` and the start of `animate`).
 *
 * The orientation callback stores the latest raw `beta` and `gamma` readings
 * verbatim (a missing or falsy reading stores 0); each frame clamps the stored
 * values to plus or minus 15 degrees and halves them to get the tilt of the
 * whole clock unit.  `beta` (front-to-back) drives the rotation about x and
 * `gamma` (left-to-right) the rotation about y.
 */
module Tilt {
  import opened Wrappers

  const MaxTilt: real := 15.0
  const RotationMultiplier: real := 0.5

  /** `clamp(v, lo, hi)` of the graphics library's math utilities: max(lo, min(hi, v)). */
  function Clamp(v: real, lo: real, hi: real): real
  {
    var capped := if hi < v then hi else v;
    if lo > capped then lo else capped
  }

  /** The scene rotation, in degrees, for one stored reading. */
  function TiltDegrees(raw: real): real
  {
    Clamp(raw, -MaxTilt, MaxTilt) * RotationMultiplier
  }

  /** A device-orientation sample: `None` stands for an absent, null or NaN field. */
  datatype Orientation = Orientation(beta: Option<real>, gamma: Option<real>)

  /** The two latched values, named as in the source: `x` holds gamma and `y` holds beta. */
  datatype TiltState = TiltState(x: real, y: real)

  /** `reading || 0`: a falsy or missing reading becomes 0, anything else is kept. */
  function Latched(reading: Option<real>): real
  {
    match reading
    case None => 0.0
    case Some(v) => v
  }

  /** The state the orientation callback leaves behind, whatever was stored before. */
  function Sample(e: Orientation): TiltState
  {
    TiltState(Latched(e.gamma), Latched(e.beta))
  }

  /** The state after the callback has run for each sample in turn. */
  function AfterSamples(s: TiltState, events: seq<Orientation>): TiltState
    decreases |events|
  {
    if events == [] then s else AfterSamples(Sample(events[0]), events[1..])
  }

  /** Scene rotation about x (from the stored beta) and about y (from the stored gamma). */
  datatype SceneTilt = SceneTilt(rotX: real, rotY: real)

  function Consume(s: TiltState): SceneTilt
  {
    SceneTilt(TiltDegrees(s.y), TiltDegrees(s.x))
  }

  /** Whatever the raw reading, the tilt lies within plus or minus 7.5 degrees. */
  lemma TiltBounded(raw: real)
    ensures -7.5 <= TiltDegrees(raw) <= 7.5
  {
  }

  /** A reading within plus or minus 15 degrees comes out as exactly half of itself;
      beyond that range the output saturates at plus or minus 7.5. */
  lemma TiltWithinRangeIsHalved(raw: real)
    ensures -MaxTilt <= raw <= MaxTilt ==> TiltDegrees(raw) == raw / 2.0
    ensures raw >= MaxTilt ==> TiltDegrees(raw) == 7.5
    ensures raw <= -MaxTilt ==> TiltDegrees(raw) == -7.5
  {
  }

  /** A reading of 90 degrees is clamped to 15 and halved to 7.5. */
  lemma NinetyDegreesGiveSevenAndAHalf()
    ensures TiltDegrees(90.0) == 7.5
  {
  }

  /** Tilting further never tilts the scene back. */
  lemma TiltMonotone(a: real, b: real)
    requires a <= b
    ensures TiltDegrees(a) <= TiltDegrees(b)
  {
  }

  /** Last write wins: after any non-empty run of samples only the most recent one is kept,
      whatever was stored before. */
  lemma {:induction false} LastSampleWins(s: TiltState, events: seq<Orientation>)
    requires events != []
    ensures AfterSamples(s, events) == Sample(events[|events| - 1])
    decreases |events|
  {
    if |events| > 1 {
      LastSampleWins(Sample(events[0]), events[1..]);
      assert events[1..][|events[1..]| - 1] == events[|events| - 1];
    }
  }

  /** The frame after a run of samples tilts about x by the last beta and about y by the
      last gamma, each clamped and halved. */
  lemma {:induction false} BetaDrivesXGammaDrivesY(s: TiltState, events: seq<Orientation>)
    requires events != []
    ensures Consume(AfterSamples(s, events)).rotX == TiltDegrees(Latched(events[|events| - 1].beta))
    ensures Consume(AfterSamples(s, events)).rotY == TiltDegrees(Latched(events[|events| - 1].gamma))
  {
    LastSampleWins(s, events);
  }

  /** With no samples (no sensor, or permission refused) the scene stays level. */
  lemma NoSamplesStayLevel()
    ensures Consume(AfterSamples(TiltState(0.0, 0.0), [])) == SceneTilt(0.0, 0.0)
  {
  }
}
