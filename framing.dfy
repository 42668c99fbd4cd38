/**
 * Camera and backdrop framing (tilt_clock_3D..js, `updateCameraPosition` and `updateBackgroundSize`).
 *
 * The camera backs off along z until a 22-unit clock face fits both the height
 * and the width of the view; the wooden backdrop plane, one unit behind the
 * face, is scaled to the visible extent at its depth times a 1.2 safety margin,
 * and its texture repeats once per 25 units.  `tanHalfFov` stands for
 * tan(fov / 2) of the camera's fixed vertical field of view: only its
 * positivity is used, so the model is plain real arithmetic over it.
 */
module Framing {

  const ClockSize: real := 22.0
  const SafetyMargin: real := 1.2
  const TextureScale: real := 25.0
  /** The backdrop's depth (`watch.position.z`). */
  const WatchZ: real := -1.0

  /** Distance at which half the face fills half the view's height. */
  function DistanceForHeight(tanHalfFov: real): real
    requires tanHalfFov > 0.0
  {
    (ClockSize / 2.0) / tanHalfFov
  }

  /** Distance at which the face's width, divided by the aspect ratio, fits the view. */
  function DistanceForWidth(aspect: real, tanHalfFov: real): real
    requires aspect > 0.0 && tanHalfFov > 0.0
  {
    ((ClockSize / aspect) / 2.0) / tanHalfFov
  }

  /** `Math.max(distanceForHeight, distanceForWidth)`. */
  function CameraDistance(aspect: real, tanHalfFov: real): real
    requires aspect > 0.0 && tanHalfFov > 0.0
  {
    var h, w := DistanceForHeight(tanHalfFov), DistanceForWidth(aspect, tanHalfFov);
    if h >= w then h else w
  }

  /** Height of the view at a given distance from the camera (pinhole relation). */
  function VisibleHeight(tanHalfFov: real, distance: real): real
  {
    2.0 * tanHalfFov * distance
  }

  datatype Scale = Scale(x: real, y: real, z: real)

  /** `watch.scale` for a camera at depth `cameraZ`. */
  function BackdropScale(aspect: real, tanHalfFov: real, cameraZ: real): Scale
  {
    var height := VisibleHeight(tanHalfFov, cameraZ - WatchZ);
    var width := height * aspect;
    Scale(width * SafetyMargin, height * SafetyMargin, 1.0)
  }

  datatype Repeat = Repeat(u: real, v: real)

  /** `map.repeat` for a backdrop of the given scale. */
  function TextureRepeat(s: Scale): Repeat
  {
    Repeat(s.x / TextureScale, s.y / TextureScale)
  }

  /** The camera distance is at least both fits and equals one of them. */
  lemma CameraDistanceIsLargerFit(aspect: real, tanHalfFov: real)
    requires aspect > 0.0 && tanHalfFov > 0.0
    ensures CameraDistance(aspect, tanHalfFov) >= DistanceForHeight(tanHalfFov)
    ensures CameraDistance(aspect, tanHalfFov) >= DistanceForWidth(aspect, tanHalfFov)
    ensures CameraDistance(aspect, tanHalfFov) == DistanceForHeight(tanHalfFov)
         || CameraDistance(aspect, tanHalfFov) == DistanceForWidth(aspect, tanHalfFov)
  {
  }

  lemma {:induction false} DivideByPositive(x: real, y: real, t: real)
    requires t > 0.0
    ensures x / t > y / t <==> x > y
    ensures x / t == y / t <==> x == y
  {
    assert x == (x / t) * t && y == (y / t) * t;
    if x > y { MultiplyByPositive(x / t, y / t, t); }
    if x / t > y / t { MultiplyByPositive(y / t, x / t, t); }
  }

  lemma MultiplyByPositive(a: real, b: real, t: real)
    requires t > 0.0
    ensures a <= b ==> a * t <= b * t
  {
    if a <= b {
      assert b * t - a * t == (b - a) * t;
    }
  }

  /** The width fit is the larger one exactly when the view is taller than wide (aspect < 1),
      and the two fits agree at aspect 1. */
  lemma WidthFitDominatesIffPortrait(aspect: real, tanHalfFov: real)
    requires aspect > 0.0 && tanHalfFov > 0.0
    ensures DistanceForWidth(aspect, tanHalfFov) > DistanceForHeight(tanHalfFov) <==> aspect < 1.0
    ensures DistanceForWidth(aspect, tanHalfFov) == DistanceForHeight(tanHalfFov) <==> aspect == 1.0
  {
    var half := (ClockSize / aspect) / 2.0;
    assert ClockSize == (ClockSize / aspect) * aspect;
    if aspect < 1.0 {
      MultiplyByPositive(ClockSize / aspect, ClockSize, aspect);
    }
    if aspect > 1.0 {
      MultiplyByPositive(ClockSize, ClockSize / aspect, aspect);
    }
    assert half > ClockSize / 2.0 <==> aspect < 1.0;
    DivideByPositive(half, ClockSize / 2.0, tanHalfFov);
  }

  /** Landscape windows (16:9, 4:3, ...) all get the same, height-limited, distance; only a
      portrait window moves the camera back, so both branches of the max occur. */
  lemma DistanceChangesOnlyForPortrait(a1: real, a2: real, tanHalfFov: real)
    requires a1 >= 1.0 && a2 >= 1.0 && tanHalfFov > 0.0
    ensures CameraDistance(a1, tanHalfFov) == CameraDistance(a2, tanHalfFov) == DistanceForHeight(tanHalfFov)
    ensures CameraDistance(9.0 / 16.0, tanHalfFov) == DistanceForWidth(9.0 / 16.0, tanHalfFov)
            > DistanceForHeight(tanHalfFov)
  {
    WidthFitDominatesIffPortrait(a1, tanHalfFov);
    WidthFitDominatesIffPortrait(a2, tanHalfFov);
    WidthFitDominatesIffPortrait(9.0 / 16.0, tanHalfFov);
  }

  /** From the chosen distance the whole face is visible: the view is at least 22 units high
      and 22 units wide at the face, and exactly 22 in the limiting direction. */
  lemma FaceFitsView(aspect: real, tanHalfFov: real)
    requires aspect > 0.0 && tanHalfFov > 0.0
    ensures var h := VisibleHeight(tanHalfFov, CameraDistance(aspect, tanHalfFov));
            h >= ClockSize && h * aspect >= ClockSize && (h == ClockSize || h * aspect == ClockSize)
  {
    var t := tanHalfFov;
    var dh, dw := DistanceForHeight(t), DistanceForWidth(aspect, t);
    var d := CameraDistance(aspect, t);
    assert VisibleHeight(t, dh) == ClockSize by {
      assert dh * t == ClockSize / 2.0;
    }
    assert VisibleHeight(t, dw) * aspect == ClockSize by {
      assert dw * t == (ClockSize / aspect) / 2.0;
      assert (ClockSize / aspect) * aspect == ClockSize;
    }
    MultiplyByPositive(dh, d, 2.0 * t);
    MultiplyByPositive(dw, d, 2.0 * t);
    MultiplyByPositive(VisibleHeight(t, dw), VisibleHeight(t, d), aspect);
    assert VisibleHeight(t, d) == d * (2.0 * t);
  }

  /** The backdrop, one unit behind the face, is larger than the view at its depth in both
      directions by the safety margin: it fills the untilted view with a 20% margin. */
  lemma BackdropCoversView(aspect: real, tanHalfFov: real, cameraZ: real)
    requires aspect > 0.0 && tanHalfFov > 0.0 && cameraZ > WatchZ
    ensures var h := VisibleHeight(tanHalfFov, cameraZ - WatchZ);
            var s := BackdropScale(aspect, tanHalfFov, cameraZ);
            h > 0.0 && s.y == h * SafetyMargin > h && s.x == h * aspect * SafetyMargin > h * aspect && s.z == 1.0
  {
    var h := VisibleHeight(tanHalfFov, cameraZ - WatchZ);
    assert h == (cameraZ - WatchZ) * (2.0 * tanHalfFov);
    MultiplyByPositive(0.0, cameraZ - WatchZ, 2.0 * tanHalfFov);
    assert h > 0.0 by {
      assert (cameraZ - WatchZ) * (2.0 * tanHalfFov) != 0.0;
    }
    MultiplyByPositive(0.0, h, aspect);
    assert h * aspect != 0.0;
  }

  /** The repeat keeps the backdrop's proportions: repeat.x / repeat.y is the view's
      aspect ratio. */
  lemma RepeatKeepsBackdropProportions(aspect: real, tanHalfFov: real, cameraZ: real)
    ensures var r := TextureRepeat(BackdropScale(aspect, tanHalfFov, cameraZ));
            r.u == aspect * r.v
  {
  }

  /** For a camera in front of the backdrop, the texture repeats a positive number of times,
      1.2 times the visible extent at the backdrop's depth divided by the 25-unit tile. */
  lemma RepeatTracksView(aspect: real, tanHalfFov: real, cameraZ: real)
    requires aspect > 0.0 && tanHalfFov > 0.0 && cameraZ > WatchZ
    ensures var h := VisibleHeight(tanHalfFov, cameraZ - WatchZ);
            var r := TextureRepeat(BackdropScale(aspect, tanHalfFov, cameraZ));
            r.v == h * SafetyMargin / TextureScale > 0.0
            && r.u == h * aspect * SafetyMargin / TextureScale > 0.0
  {
    BackdropCoversView(aspect, tanHalfFov, cameraZ);
  }
}
