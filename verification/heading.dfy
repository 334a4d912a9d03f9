/** Integer heading arithmetic: turning and the two bullet reflections. Headings are
    whole degrees (spawn headings are 45, 135, 315, 225 and every change is by a whole
    number), so all of it is integer remainder arithmetic. */
module Heading {

  /** Degrees a tank turns per tick. */
  const TURN_SPEED: int := 2

  /** JavaScript's `%`: the remainder of truncating division, which takes the sign of
      the dividend (Dafny's own `%` is Euclidean and never negative). */
  function JsRem(a: int, m: int): (r: int)
    requires m > 0
    ensures a >= 0 ==> 0 <= r < m
    ensures a < 0 ==> -m < r <= 0
    ensures (a - r) % m == 0
  {
    if a >= 0 then
      assert a - a % m == (a / m) * m;
      MultipleRemainder(a / m, m);
      a % m
    else
      assert a + (-a) % m == -((-a) / m) * m;
      MultipleRemainder(-((-a) / m), m);
      -((-a) % m)
  }

  /** A product with `m` is a multiple of `m` (for Dafny's Euclidean `%`). */
  lemma MultipleRemainder(q: int, m: int)
    requires m > 0
    ensures (q * m) % m == 0
  {
    var x := q * m;
    assert x == m * (x / m) + x % m;
    assert m * (q - x / m) == x % m;
    MultipleBounds(q - x / m, m);
  }

  /** A non-zero multiple of a positive `m` is at least `m` away from zero. */
  lemma MultipleBounds(k: int, m: int)
    requires m > 0
    ensures k >= 1 ==> m * k >= m
    ensures k <= -1 ==> m * k <= -m
  {
    if k >= 1 {
      assert m * k == m * (k - 1) + m;
    } else if k <= -1 {
      assert m * k == m * (k + 1) - m;
    }
  }

  /** A normalised heading in degrees. */
  predicate Valid(a: int) {
    0 <= a < 360
  }

  /** `(angle - TURN_SPEED + 360) % 360`: a counter-clockwise step of two degrees. */
  function TurnLeft(a: int): (r: int)
    ensures Valid(a) ==> Valid(r) && (r == a - TURN_SPEED || r == a - TURN_SPEED + 360)
  {
    JsRem(a - TURN_SPEED + 360, 360)
  }

  /** `(angle + TURN_SPEED) % 360`: a clockwise step of two degrees. */
  function TurnRight(a: int): (r: int)
    ensures Valid(a) ==> Valid(r) && (r == a + TURN_SPEED || r == a + TURN_SPEED - 360)
  {
    JsRem(a + TURN_SPEED, 360)
  }

  /** `(180 - angle + 360) % 360`: mirror the direction about the vertical axis, so
      the horizontal component of travel is reversed. */
  function ReflectH(a: int): (r: int)
    ensures Valid(a) ==> Valid(r) && (r + a == 180 || r + a == 540)
  {
    JsRem(180 - a + 360, 360)
  }

  /** `(360 - angle + 360) % 360`: mirror the direction about the horizontal axis, so
      the vertical component of travel is reversed. */
  function ReflectV(a: int): (r: int)
    ensures Valid(a) ==> Valid(r) && (r + a == 0 || r + a == 360)
  {
    JsRem(360 - a + 360, 360)
  }

  /** Turning left and turning right undo each other; a tick with both keys held
      leaves the heading where it was. */
  lemma TurnsCancel(a: int)
    requires Valid(a)
    ensures TurnRight(TurnLeft(a)) == a
    ensures TurnLeft(TurnRight(a)) == a
  {
  }

  /** Each reflection is an involution on normalised headings. */
  lemma ReflectionsAreInvolutions(a: int)
    requires Valid(a)
    ensures ReflectH(ReflectH(a)) == a
    ensures ReflectV(ReflectV(a)) == a
  {
  }
}
