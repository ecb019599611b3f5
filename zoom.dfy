/** The eased zoom animation: each animation frame moves the camera's z from the
    start value toward the target along a cubic ease-in-out curve, and the last
    frame snaps z to the target and stops rescheduling. */
module Zoom {
  import opened Scene

  /** Length of the animation, in the unit of the frame timestamps (milliseconds). */
  const Duration: real := 500.0

  function Cube(x: real): real
  {
    x * x * x
  }

  /** Math.min(elapsed / duration, 1): the share of the animation that has run. */
  function Fraction(elapsed: real): (f: real)
    ensures f <= 1.0
    ensures f == 1.0 <==> elapsed >= Duration
    ensures f < 1.0 ==> f * Duration == elapsed
    ensures 0.0 <= elapsed ==> 0.0 <= f
  {
    Min(elapsed / Duration, 1.0)
  }

  /** The cubic ease-in-out curve: 4f^3 below one half, 1 - (2 - 2f)^3 / 2 from one half on. */
  function Ease(f: real): (e: real)
    ensures f == 0.0 ==> e == 0.0
    ensures f == 0.5 ==> e == 0.5
    ensures f == 1.0 ==> e == 1.0
  {
    if f < 0.5 then
      assert f == 0.0 ==> Cube(f) == Cube(0.0) == 0.0;
      4.0 * Cube(f)
    else
      var g := -2.0 * f + 2.0;
      assert f == 0.5 ==> Cube(g) == Cube(1.0) == 1.0;
      assert f == 1.0 ==> Cube(g) == Cube(0.0) == 0.0;
      1.0 - Cube(g) / 2.0
  }

  /** The result of one animation frame: the new camera z, and whether another frame is requested. */
  datatype ZoomFrame = ZoomFrame(z: real, reschedule: bool)

  /** z lies on the segment between a and b, whichever way round they are. */
  predicate Between(z: real, a: real, b: real)
  {
    (a <= z <= b) || (b <= z <= a)
  }

  /** One frame of the animation, `elapsed` time units after it started. */
  function ZoomStep(startZ: real, endZ: real, elapsed: real): (s: ZoomFrame)
    ensures s.reschedule <==> elapsed < Duration
    ensures !s.reschedule ==> s.z == endZ
    ensures elapsed == 0.0 ==> s.z == startZ
    ensures 0.0 <= elapsed ==> Between(s.z, startZ, endZ)
  {
    var f := Fraction(elapsed);
    EaseInUnit(f);
    Interpolated(startZ, endZ, Ease(f));
    var z := startZ + (endZ - startZ) * Ease(f);
    if f < 1.0 then ZoomFrame(z, true) else ZoomFrame(endZ, false)
  }

  /** One frame applied to the camera: only position.z changes. */
  method RunZoomStep(camera: Camera, startZ: real, endZ: real, elapsed: real) returns (reschedule: bool)
    modifies camera
    ensures camera.State() == old(camera.State()).(posZ := ZoomStep(startZ, endZ, elapsed).z)
    ensures reschedule == ZoomStep(startZ, endZ, elapsed).reschedule
  {
    var fraction := Fraction(elapsed);
    var ease := Ease(fraction);
    camera.posZ := startZ + (endZ - startZ) * ease;
    if fraction < 1.0 {
      reschedule := true;
    } else {
      camera.posZ := endZ;
      reschedule := false;
    }
  }

  /** c * x grows with x when c is not negative. */
  lemma ScaleMonotone(c: real, x: real, y: real)
    requires 0.0 <= c && x <= y
    ensures c * x <= c * y
  {
    assert c * y - c * x == c * (y - x);
  }

  lemma CubeMonotoneNonNegative(a: real, b: real)
    requires 0.0 <= a <= b
    ensures Cube(a) <= Cube(b)
  {
    ScaleMonotone(a, a, b);
    ScaleMonotone(b, a, b);
    assert a * b == b * a;
    assert a * a <= b * b;
    ScaleMonotone(a * a, a, b);
    ScaleMonotone(b, a * a, b * b);
    assert (a * a) * b == b * (a * a);
    assert a * a * a <= b * (b * b);
  }

  /** x^3 never decreases. */
  lemma CubeMonotone(a: real, b: real)
    requires a <= b
    ensures Cube(a) <= Cube(b)
  {
    if 0.0 <= a {
      CubeMonotoneNonNegative(a, b);
    } else if b <= 0.0 {
      CubeMonotoneNonNegative(-b, -a);
      assert Cube(-b) == -Cube(b) && Cube(-a) == -Cube(a);
    } else {
      CubeMonotoneNonNegative(0.0, -a);
      CubeMonotoneNonNegative(0.0, b);
      assert Cube(-a) == -Cube(a);
    }
  }

  /** Both branches of the curve meet at one half, so the curve is continuous there. */
  lemma EaseBranchesAgree()
    ensures 4.0 * Cube(0.5) == 1.0 - Cube(-2.0 * 0.5 + 2.0) / 2.0 == Ease(0.5)
  {
  }

  /** The curve never goes backwards. */
  lemma EaseMonotone(a: real, b: real)
    requires a <= b
    ensures Ease(a) <= Ease(b)
  {
    if b < 0.5 {
      CubeMonotone(a, b);
    } else if 0.5 <= a {
      CubeMonotone(-2.0 * b + 2.0, -2.0 * a + 2.0);
    } else {
      CubeMonotone(a, 0.5);
      CubeMonotone(-2.0 * b + 2.0, 1.0);
    }
  }

  /** A fraction in [0, 1] is eased to a fraction in [0, 1]. */
  lemma EaseInUnit(f: real)
    ensures 0.0 <= f <= 1.0 ==> 0.0 <= Ease(f) <= 1.0
  {
    if 0.0 <= f <= 1.0 {
      EaseMonotone(0.0, f);
      EaseMonotone(f, 1.0);
    }
  }

  /** Ease-in mirrors ease-out: running the curve backwards from the end gives the complement. */
  lemma EaseSymmetric(f: real)
    ensures Ease(1.0 - f) == 1.0 - Ease(f)
  {
    if f < 0.5 {
      assert -2.0 * (1.0 - f) + 2.0 == 2.0 * f;
      CubeDouble(f);
    } else if f > 0.5 {
      assert -2.0 * f + 2.0 == 2.0 * (1.0 - f);
      CubeDouble(1.0 - f);
    }
  }

  /** The curve starts slowly: over the first half it lags behind the uniform motion f. */
  lemma EaseSlowStart(f: real)
    requires 0.0 <= f <= 0.5
    ensures Ease(f) <= f
  {
    if f < 0.5 {
      ScaleMonotone(f, f, 0.5);
      ScaleMonotone(f, 4.0 * (f * f), 1.0);
      assert 4.0 * Cube(f) == f * (4.0 * (f * f));
    }
  }

  /** The curve finishes fast: over the second half it is ahead of the uniform motion f. */
  lemma EaseFastFinish(f: real)
    requires 0.5 <= f <= 1.0
    ensures f <= Ease(f)
  {
    EaseSlowStart(1.0 - f);
    EaseSymmetric(f);
  }

  lemma CubeDouble(x: real)
    ensures Cube(2.0 * x) == 8.0 * Cube(x)
  {
    assert (2.0 * x) * (2.0 * x) == 4.0 * (x * x);
    assert (4.0 * (x * x)) * (2.0 * x) == 8.0 * (x * x * x);
  }

  /** Interpolating with a weight in [0, 1] lands between the two ends. */
  lemma Interpolated(a: real, b: real, w: real)
    ensures 0.0 <= w <= 1.0 ==> Between(a + (b - a) * w, a, b)
  {
    if 0.0 <= w <= 1.0 {
      InterpolationMonotone(a, b, w, 1.0);
    }
  }

  /** A larger weight moves the interpolated value further from a, in the direction of b. */
  lemma InterpolationMonotone(a: real, b: real, w1: real, w2: real)
    requires 0.0 <= w1 <= w2
    ensures Between(a + (b - a) * w1, a, a + (b - a) * w2)
  {
    if a <= b {
      ScaleMonotone(b - a, 0.0, w1);
      ScaleMonotone(b - a, w1, w2);
    } else {
      ScaleMonotone(a - b, 0.0, w1);
      ScaleMonotone(a - b, w1, w2);
      assert (a - b) * w1 == -((b - a) * w1);
      assert (a - b) * w2 == -((b - a) * w2);
    }
  }

  /** Half way through the animation z is exactly half way between the two ends. */
  lemma ZoomStepHalfway(startZ: real, endZ: real)
    ensures ZoomStep(startZ, endZ, Duration / 2.0) == ZoomFrame((startZ + endZ) / 2.0, true)
  {
  }

  /** Later frames are never further from the target than earlier ones: z moves monotonically
      from startZ to endZ. */
  lemma ZoomStepMonotone(startZ: real, endZ: real, e1: real, e2: real)
    requires 0.0 <= e1 <= e2
    ensures Between(ZoomStep(startZ, endZ, e1).z, startZ, ZoomStep(startZ, endZ, e2).z)
  {
    var f1, f2 := Fraction(e1), Fraction(e2);
    EaseMonotone(f1, f2);
    EaseInUnit(f1);
    EaseInUnit(f2);
    var w1, w2 := Ease(f1), Ease(f2);
    if e2 >= Duration {
      Interpolated(startZ, endZ, w1);
    } else {
      InterpolationMonotone(startZ, endZ, w1, w2);
    }
  }
}
