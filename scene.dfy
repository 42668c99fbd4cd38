/**
 * The clock's mutable state and its entry points (tilt_clock_3D..js).
 *
 * The script keeps its state in module-level variables and in fields of
 * graphics-library objects; here they are the fields of one `ClockScene`:
 * the latched tilt readings, the tick gate, the pose written each frame
 * (clock-unit tilt and hand rotations, in degrees), the text of the two
 * readouts, and the camera and backdrop framing.  The methods are the
 * orientation callback, the frame callback and the framing updates.
 */
module Scene {
  import opened Wrappers
  import opened ClockTime
  import opened Tilt
  import opened Readout
  import opened TickGate
  import opened Framing

  class ClockScene {
    // `tiltX` and `tiltY`: the latest gamma and beta readings, stored unclamped.
    var tiltX: real
    var tiltY: real
    // `animate.lastSecond`: undefined until the first frame.
    var lastSecond: Option<int>
    // `clockUnit.rotation.x` and `.y`, in degrees.
    var unitRotationX: real
    var unitRotationY: real
    // `rotation.z` of the second, minute and hour hands, in degrees.
    var secondHandZ: real
    var minuteHandZ: real
    var hourHandZ: real
    // Text of the time and date readouts; `None` while the element does not exist yet.
    var clockText: Option<string>
    var dateText: Option<string>
    // tan(fov / 2) of the camera's fixed vertical field of view.
    const tanHalfFov: real
    // `camera.aspect` and `camera.position.z`.
    var aspect: real
    var cameraZ: real
    // `watch.scale`, and `watch.material.map.repeat` once the texture is there.
    var watchScale: Scale
    var mapRepeat: Option<Repeat>

    ghost predicate Valid()
      reads this
    {
      tanHalfFov > 0.0 && aspect > 0.0
    }

    /** Camera and backdrop are framed for the current aspect ratio. */
    ghost predicate Framed()
      reads this
    {
      && Valid()
      && cameraZ == CameraDistance(aspect, tanHalfFov)
      && watchScale == BackdropScale(aspect, tanHalfFov, cameraZ)
      && (mapRepeat.Some? ==> mapRepeat.value == TextureRepeat(watchScale))
    }

    /** The pose the frame writes is bounded: a gentle tilt, hands turned clockwise by less than a turn. */
    ghost predicate PoseBounded()
      reads this
    {
      && -7.5 <= unitRotationX <= 7.5 && -7.5 <= unitRotationY <= 7.5
      && -360.0 < secondHandZ <= 0.0 && -360.0 < minuteHandZ <= 0.0 && -360.0 < hourHandZ <= 0.0
    }

    /** Startup: level tilt, no tick yet, no readout elements or texture, then the initial
        framing for the window's aspect ratio. */
    constructor (windowAspect: real, tanHalfFovOfCamera: real)
      requires windowAspect > 0.0 && tanHalfFovOfCamera > 0.0
      ensures Framed() && PoseBounded()
      ensures aspect == windowAspect && tanHalfFov == tanHalfFovOfCamera
      ensures tiltX == 0.0 && tiltY == 0.0 && lastSecond == None
      ensures clockText == None && dateText == None && mapRepeat == None
    {
      tiltX, tiltY := 0.0, 0.0;
      lastSecond := None;
      unitRotationX, unitRotationY := 0.0, 0.0;
      secondHandZ, minuteHandZ, hourHandZ := 0.0, 0.0, 0.0;
      clockText, dateText := None, None;
      tanHalfFov := tanHalfFovOfCamera;
      aspect := windowAspect;
      cameraZ := 0.0;
      watchScale := Scale(1.0, 1.0, 1.0);
      mapRepeat := None;
      new;
      UpdateCameraPosition();
      UpdateBackgroundSize();
    }

    /** The orientation callback: latch the latest readings, last write wins. */
    method HandleOrientation(e: Orientation)
      modifies this`tiltX, this`tiltY
      ensures TiltState(tiltX, tiltY) == Sample(e)
      ensures tiltY == Latched(e.beta) && tiltX == Latched(e.gamma)
    {
      tiltY := Latched(e.beta);
      tiltX := Latched(e.gamma);
    }

    /** The frame callback: tilt the clock unit from the latched readings, turn the hands to
        the time, refresh the readouts that exist, and report whether the tick fires. */
    method Animate(now: Now) returns (tick: bool)
      requires now.Valid()
      modifies this`unitRotationX, this`unitRotationY, this`secondHandZ, this`minuteHandZ,
               this`hourHandZ, this`clockText, this`dateText, this`lastSecond
      ensures unitRotationX == TiltDegrees(tiltY) && unitRotationY == TiltDegrees(tiltX)
      ensures secondHandZ == -SecondAngle(now) && minuteHandZ == -MinuteAngle(now)
              && hourHandZ == -HourAngle(now)
      ensures clockText == if old(clockText).Some? then Some(TimeString(now.hours, now.minutes, now.seconds)) else None
      ensures dateText == if old(dateText).Some? then Some(DateString(now.month, now.day, now.year)) else None
      ensures tick == Fires(old(lastSecond), now.seconds) && lastSecond == Some(now.seconds)
      ensures PoseBounded()
    {
      var x := TiltDegrees(tiltX);
      var y := TiltDegrees(tiltY);
      TiltBounded(tiltX);
      TiltBounded(tiltY);
      unitRotationY, unitRotationX := x, y;

      AngleRanges(now);
      secondHandZ := -SecondAngle(now);
      minuteHandZ := -MinuteAngle(now);
      hourHandZ := -HourAngle(now);

      if clockText.Some? {
        clockText := Some(TimeString(now.hours, now.minutes, now.seconds));
      }
      if dateText.Some? {
        dateText := Some(DateString(now.month, now.day, now.year));
      }

      var currentSecond := now.seconds;
      tick := lastSecond != Some(currentSecond);
      if tick {
        lastSecond := Some(currentSecond);
      }
    }

    /** Back the camera off to the larger of the height fit and the width fit. */
    method UpdateCameraPosition()
      requires Valid()
      modifies this`cameraZ
      ensures cameraZ == CameraDistance(aspect, tanHalfFov)
    {
      var distanceForHeight := DistanceForHeight(tanHalfFov);
      var distanceForWidth := DistanceForWidth(aspect, tanHalfFov);
      cameraZ := if distanceForHeight >= distanceForWidth then distanceForHeight else distanceForWidth;
    }

    /** Size the backdrop to the view at its depth with the safety margin; retile the texture
        only when there is one. */
    method UpdateBackgroundSize()
      modifies this`watchScale, this`mapRepeat
      ensures watchScale == BackdropScale(aspect, tanHalfFov, cameraZ)
      ensures mapRepeat == if old(mapRepeat).Some? then Some(TextureRepeat(watchScale)) else old(mapRepeat)
    {
      var distance := cameraZ - WatchZ;
      var height := 2.0 * tanHalfFov * distance;
      var width := height * aspect;
      watchScale := Scale(width * SafetyMargin, height * SafetyMargin, 1.0);
      if mapRepeat.Some? {
        mapRepeat := Some(Repeat(watchScale.x / TextureScale, watchScale.y / TextureScale));
      }
    }

    /** The resize listener's arithmetic: new aspect ratio, then reframe camera and backdrop. */
    method Resize(windowAspect: real)
      requires Valid() && windowAspect > 0.0
      modifies this`aspect, this`cameraZ, this`watchScale, this`mapRepeat
      ensures Framed() && aspect == windowAspect
      ensures mapRepeat.Some? == old(mapRepeat).Some?
    {
      aspect := windowAspect;
      UpdateCameraPosition();
      UpdateBackgroundSize();
    }

    /** The texture-loaded callback: the backdrop gets its map (repeat 1 by 1 until retiled),
        then the backdrop size and the texture tiling are recomputed. */
    method AttachTexture()
      requires Framed()
      modifies this`watchScale, this`mapRepeat
      ensures Framed() && mapRepeat == Some(TextureRepeat(watchScale))
      ensures watchScale == old(watchScale)
    {
      mapRepeat := Some(Repeat(1.0, 1.0));
      UpdateBackgroundSize();
    }

    /** The page-ready callback: both readout elements now exist, still empty. */
    method AttachReadouts()
      modifies this`clockText, this`dateText
      ensures clockText == Some("") && dateText == Some("")
    {
      clockText, dateText := Some(""), Some("");
    }
  }
}
