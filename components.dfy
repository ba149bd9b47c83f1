/**
 * Placed components of app.js: their type, centre and rotation, the selection footprint of
 * each type (app.js:31-51, app.js:164-177), and the rotation step of the 'r' key
 * (app.js:865-866).
 */
module Components {
  /** A component as placed: type name, centre (the translate of its group) and rotation in degrees. */
  datatype Placed = Placed(kind: string, x: real, y: real, rotation: int)

  datatype Size = Size(width: real, height: real)

  const ResistorWidth: real := 60.0
  const ResistorHeight: real := 30.0
  /** The radius of the voltage and current sources. */
  const SourceRadius: real := 30.0

  /**
   * The box of a type for selection: a type with a radius is twice the radius on each side,
   * the resistor has its width and height, and a type the settings do not know has no size.
   */
  function Footprint(kind: string): (s: Size)
    ensures s.width >= 0.0 && s.height >= 0.0
    ensures kind == "resistor" ==> s == Size(ResistorWidth, ResistorHeight)
    ensures kind == "voltage" || kind == "current" ==> s == Size(2.0 * SourceRadius, 2.0 * SourceRadius)
    ensures kind !in {"resistor", "voltage", "current"} ==> s == Size(0.0, 0.0)
  {
    if kind == "resistor" then Size(ResistorWidth, ResistorHeight)
    else if kind == "voltage" || kind == "current" then Size(SourceRadius * 2.0, SourceRadius * 2.0)
    else Size(0.0, 0.0)
  }

  /** JavaScript's `%` on integers: the remainder takes the sign of the dividend. */
  function JsRem(a: int, n: int): (r: int)
    requires n > 0
    ensures a >= 0 ==> 0 <= r < n && r == a % n
    ensures a < 0 ==> -n < r <= 0
    ensures r == a % n || r == a % n - n
  {
    if a >= 0 then a % n
    else
      RemOfNegation(a, n);
      -((-a) % n)
  }

  /** The remainders of `a` and `-a` add up to 0 or to `n`. */
  lemma RemOfNegation(a: int, n: int)
    requires n > 0
    ensures a % n + (-a) % n == 0 || a % n + (-a) % n == n
  {
    var k := a / n + (-a) / n;
    assert n * (a / n) + a % n == a;
    assert n * ((-a) / n) + (-a) % n == -a;
    assert n * k == n * (a / n) + n * ((-a) / n);
    assert n * k + a % n + (-a) % n == 0;
  }

  /** The rotation step of the 'r' key: a quarter turn, reduced by JavaScript's `%`. */
  function NextRotation(r: int): (n: int)
    ensures -360 < n < 360
    ensures n == (r + 90) % 360 || n == (r + 90) % 360 - 360
  {
    JsRem(r + 90, 360)
  }

  /** From a non-negative rotation the step is the quarter turn modulo a full turn. */
  lemma NextRotationInRange(r: int)
    requires r >= -90
    ensures NextRotation(r) == (r + 90) % 360
    ensures 0 <= NextRotation(r) < 360
  {
  }

  /** Four steps from a non-negative rotation give that rotation modulo a full turn. */
  lemma FourStepsTurnOnce(r: int)
    requires r >= 0
    ensures NextRotation(NextRotation(NextRotation(NextRotation(r)))) == r % 360
  {
    var r1 := NextRotation(r);
    var r2 := NextRotation(r1);
    var r3 := NextRotation(r2);
    var r4 := NextRotation(r3);
    assert r1 == (r + 90) % 360 by { NextRotationInRange(r); }
    assert r2 == (r + 180) % 360 by { NextRotationInRange(r1); ModShift(r + 90, 90); }
    assert r3 == (r + 270) % 360 by { NextRotationInRange(r2); ModShift(r + 180, 90); }
    assert r4 == (r + 360) % 360 by { NextRotationInRange(r3); ModShift(r + 270, 90); }
    assert (r + 360) % 360 == r % 360 by { ModShift(r, 360); }
  }

  lemma ModShift(a: int, k: int)
    requires a >= 0 && k >= 0
    ensures (a % 360 + k) % 360 == (a + k) % 360
  {
  }

  /** The rotations the app produces cycle through the quarter turns. */
  lemma QuarterTurns()
    ensures NextRotation(0) == 90 && NextRotation(90) == 180
    ensures NextRotation(180) == 270 && NextRotation(270) == 0
  {
  }

  /** A negative rotation stays negative or zero: the remainder keeps the dividend's sign. */
  lemma NegativeRotationExample()
    ensures NextRotation(-200) == -110
    ensures NextRotation(-450) == 0
  {
  }
}
