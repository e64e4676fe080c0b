/** The joystick view's touch handling: a touch at offset (dx, dy) from the centre, at distance
    `dist`, on a pad of radius `radius`, becomes a normalised sample for the move listener.
    The square root that gives `dist`, and the knob drawing, stay outside the model; `dist`
    is an input. */
module Joystick {
  import opened Wrappers

  /** The view's dead zone, as a fraction of the radius. */
  const DeadZone: real := 0.08

  /** The touch actions the view distinguishes. */
  datatype Action = Down | Move | Up | Cancel | OtherAction

  /** What the listener's `onMove(x, y, norm, isPressed)` receives. */
  datatype Sample = Sample(x: real, y: real, norm: real, pressed: bool)

  function Min(a: real, b: real): real {
    if a <= b then a else b
  }

  /** Kotlin's `coerceIn(lo, hi)`. */
  function CoerceIn(v: real, lo: real, hi: real): (r: real)
    requires lo <= hi
    ensures lo <= r <= hi
    ensures lo <= v <= hi ==> r == v
    ensures v < lo ==> r == lo
    ensures hi < v ==> r == hi
  {
    if v < lo then lo else if v > hi then hi else v
  }

  /** A press or a drag. The magnitude is the distance as a fraction of the radius, clamped to
      [0, 1]. Each axis is the offset divided by the radius, clamped to [-1, 1]. Inside the dead
      zone both axes are zeroed. */
  function Track(dx: real, dy: real, dist: real, radius: real): (s: Sample)
    requires radius > 0.0
    ensures 0.0 <= s.norm <= 1.0
    ensures 0.0 <= dist <= radius ==> s.norm == dist / radius
    ensures dist >= radius ==> s.norm == 1.0
    ensures dist <= 0.0 ==> s.norm == 0.0
    ensures -1.0 <= s.x <= 1.0 && -1.0 <= s.y <= 1.0
    ensures s.norm < DeadZone ==> s.x == 0.0 && s.y == 0.0
    ensures s.norm >= DeadZone ==> AxisReport(dx, radius, s.x) && AxisReport(dy, radius, s.y)
    ensures s.pressed
  {
    var clampedDist := Min(dist, radius);
    var norm := CoerceIn(clampedDist / radius, 0.0, 1.0);
    var nx := CoerceIn(dx / radius, -1.0, 1.0);
    var ny := CoerceIn(dy / radius, -1.0, 1.0);
    NormReported(dist, radius);
    AxisReported(dx, radius);
    AxisReported(dy, radius);
    if norm < DeadZone then Sample(0.0, 0.0, norm, true) else Sample(nx, ny, norm, true)
  }

  /** How one axis of an offset `d` is reported on a pad of radius `radius`: the offset over the
      radius while the offset lies within the pad, and the nearer edge of [-1, 1] beyond it. */
  predicate AxisReport(d: real, radius: real, v: real)
    requires radius > 0.0
  {
    && (-radius <= d <= radius ==> v == d / radius)
    && (d > radius ==> v == 1.0)
    && (d < -radius ==> v == -1.0)
  }

  /** The magnitude is the distance over the radius within the pad, 1 beyond it, and 0 for no
      distance. */
  lemma NormReported(dist: real, radius: real)
    requires radius > 0.0
    ensures var norm := CoerceIn(Min(dist, radius) / radius, 0.0, 1.0);
            && (0.0 <= dist <= radius ==> norm == dist / radius)
            && (dist >= radius ==> norm == 1.0)
            && (dist <= 0.0 ==> norm == 0.0)
  {
    RatioBounds(Min(dist, radius), radius);
    if dist >= radius {
      assert Min(dist, radius) / radius == 1.0;
    }
  }

  /** An axis divided by the radius and clamped is reported as `AxisReport` says. */
  lemma AxisReported(d: real, radius: real)
    requires radius > 0.0
    ensures AxisReport(d, radius, CoerceIn(d / radius, -1.0, 1.0))
  {
    RatioBounds(d, radius);
  }

  /** Where `d / radius` lies relative to -1, 0 and 1. */
  lemma RatioBounds(d: real, radius: real)
    requires radius > 0.0
    ensures d <= radius <==> d / radius <= 1.0
    ensures -radius <= d <==> -1.0 <= d / radius
    ensures 0.0 <= d <==> 0.0 <= d / radius
  {
    var x := d / radius;
    assert x * radius == d;
    assert d - radius == (x - 1.0) * radius;
    assert d + radius == (x + 1.0) * radius;
    ProductSign(x - 1.0, radius);
    ProductSign(x + 1.0, radius);
    ProductSign(x, radius);
  }

  /** A product with a positive factor has the sign of the other factor. */
  lemma ProductSign(a: real, r: real)
    requires r > 0.0
    ensures a <= 0.0 <==> a * r <= 0.0
    ensures a >= 0.0 <==> a * r >= 0.0
  {
    if a > 0.0 {
      assert a * r > 0.0;
    } else if a < 0.0 {
      assert (-a) * r > 0.0;
    }
  }

  /** A lift or a cancelled gesture: the stick is reported centred and released. */
  const Released: Sample := Sample(0.0, 0.0, 0.0, false)

  /** `onTouchEvent`: the sample handed to the listener, if any (other actions report nothing). */
  function OnTouchEvent(action: Action, dx: real, dy: real, dist: real, radius: real): (r: Option<Sample>)
    requires radius > 0.0
    ensures (action == Down || action == Move) <==> r.Some? && r.value.pressed
    ensures (action == Down || action == Move) ==> r == Some(Track(dx, dy, dist, radius))
    ensures (action == Up || action == Cancel) <==> r == Some(Released)
    ensures action == OtherAction <==> r == None
  {
    match action
    case Down => Some(Track(dx, dy, dist, radius))
    case Move => Some(Track(dx, dy, dist, radius))
    case Up => Some(Released)
    case Cancel => Some(Released)
    case OtherAction => None
  }

  function Abs(v: real): real {
    if v < 0.0 then -v else v
  }

  lemma SquareMonotone(a: real, b: real)
    requires 0.0 <= b < a
    ensures b * b < a * a
  {
    var d := a - b;
    assert a * a == b * b + d * (a + b);
    assert d * (a + b) > 0.0;
  }

  /** An offset along one axis is no longer than the distance it is part of. */
  lemma AxisWithinDistance(d: real, other: real, dist: real)
    requires dist >= 0.0 && dist * dist == d * d + other * other
    ensures Abs(d) <= dist
  {
    if Abs(d) > dist {
      SquareMonotone(Abs(d), dist);
    }
  }

  /** When `dist` really is the distance `sqrt(dx*dx + dy*dy)`, neither reported axis exceeds
      the reported magnitude: the axes are components of the same clamped vector. */
  lemma AxesWithinMagnitude(dx: real, dy: real, dist: real, radius: real)
    requires radius > 0.0 && dist >= 0.0 && dist * dist == dx * dx + dy * dy
    ensures var s := Track(dx, dy, dist, radius);
            Abs(s.x) <= s.norm && Abs(s.y) <= s.norm
  {
    AxisWithinDistance(dx, dy, dist);
    AxisWithinDistance(dy, dx, dist);
    AxesWithinClampedDistance(dx, dy, dist, radius);
  }

  lemma AxesWithinClampedDistance(dx: real, dy: real, dist: real, radius: real)
    requires radius > 0.0 && Abs(dx) <= dist && Abs(dy) <= dist
    ensures var s := Track(dx, dy, dist, radius);
            Abs(s.x) <= s.norm && Abs(s.y) <= s.norm
  {
    if dist <= radius {
      AxisBound(dx, dist, radius);
      AxisBound(dy, dist, radius);
    } else {
      assert radius / radius == 1.0;
    }
  }

  /** Dividing by the radius keeps an axis within the distance when the touch is inside the pad. */
  lemma AxisBound(d: real, dist: real, radius: real)
    requires radius > 0.0 && Abs(d) <= dist <= radius
    ensures Abs(CoerceIn(d / radius, -1.0, 1.0)) <= dist / radius
  {
    var x := d / radius;
    var m := dist / radius;
    assert x * radius == d && m * radius == dist;
    AbsScale(x, radius);
    ScaleOrder(Abs(x), m, radius);
    ScaleOrder(m, 1.0, radius);
  }

  /** Scaling by a positive factor commutes with `Abs`. */
  lemma AbsScale(x: real, r: real)
    requires r > 0.0
    ensures Abs(x) * r == Abs(x * r)
  {
    if x < 0.0 {
      assert (-x) * r > 0.0;
      assert (-x) * r == -(x * r);
    } else {
      assert x * r >= 0.0;
    }
  }

  /** A positive factor can be cancelled from both sides of an inequality. */
  lemma ScaleOrder(a: real, b: real, r: real)
    requires r > 0.0 && a * r <= b * r
    ensures a <= b
  {
    assert (b - a) * r == b * r - a * r;
  }
}
