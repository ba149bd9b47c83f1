/**
 * The grid model of the editor (app.js:4, app.js:74-78): a drawing-plane coordinate is
 * rounded to the nearest multiple of the grid pitch and then clamped into a range.
 */
module Grid {

  /** The grid pitch in effect, GRID_SIZE. (SETTINGS.gridSize is never read.) */
  const GridSize: int := 40

  function Min(a: int, b: int): int { if a <= b then a else b }
  function Max(a: int, b: int): int { if a >= b then a else b }

  /**
   * Math.round(value / GridSize) * GridSize. Math.round takes a number to the nearest
   * integer and a half up, which is floor(x + 1/2); the result is the multiple of the pitch
   * nearest to `value`, a tie going to the larger one.
   */
  function Snap(value: real): (r: int)
    ensures r % GridSize == 0
    ensures (r - GridSize / 2) as real <= value < (r + GridSize / 2) as real
  {
    var k := (value / GridSize as real + 0.5).Floor;
    k * GridSize
  }

  /** snapAndClamp: Math.max(min, Math.min(snapped, max)). */
  function SnapAndClamp(value: real, min: int, max: int): (r: int)
    ensures min <= max ==> min <= r <= max
    ensures max < min ==> r == min
    ensures min <= Snap(value) <= max ==> r == Snap(value)
    ensures min <= max < Snap(value) ==> r == max
    ensures Snap(value) < min ==> r == min
  {
    Max(min, Min(Snap(value), max))
  }

  /** The multiple of the pitch within half a pitch of `value` (a half counting upwards) is unique. */
  lemma SnapIsNearest(value: real, m: int)
    requires m % GridSize == 0
    requires (m - GridSize / 2) as real <= value < (m + GridSize / 2) as real
    ensures Snap(value) == m
  {
    var r := Snap(value);
    var a, b := m / GridSize, r / GridSize;
    assert m == a * GridSize && r == b * GridSize;
    assert (a - b) * GridSize < GridSize && (b - a) * GridSize < GridSize;
  }

  /** A value already on the grid and inside the range is left where it is. */
  lemma SnapAndClampFixesGridPoints(v: int, min: int, max: int)
    requires v % GridSize == 0 && min <= v <= max
    ensures SnapAndClamp(v as real, min, max) == v
  {
    SnapIsNearest(v as real, v);
  }

  /** Snapping twice is snapping once when the bounds are themselves grid points. */
  lemma SnapAndClampIdempotent(value: real, min: int, max: int)
    requires min % GridSize == 0 && max % GridSize == 0
    ensures SnapAndClamp(SnapAndClamp(value, min, max) as real, min, max) == SnapAndClamp(value, min, max)
  {
    var r := SnapAndClamp(value, min, max);
    if min <= max {
      SnapAndClampFixesGridPoints(r, min, max);
    } else {
      assert r == min;
    }
  }

  /** The boundary cases: 19 goes down to 0, 20 and 21 go up to 40, 250 is clamped to 200. */
  lemma SnapExamples()
    ensures SnapAndClamp(19.0, 0, 100) == 0
    ensures SnapAndClamp(20.0, 0, 100) == 40
    ensures SnapAndClamp(21.0, 0, 100) == 40
    ensures SnapAndClamp(250.0, 0, 200) == 200
    ensures SnapAndClamp(-20.0, -100, 100) == 0
  {
    SnapIsNearest(19.0, 0);
    SnapIsNearest(20.0, 40);
    SnapIsNearest(21.0, 40);
    SnapIsNearest(250.0, 240);
    SnapIsNearest(-20.0, 0);
  }
}
