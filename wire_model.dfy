/**
 * The wire segments of the editor and the vocabulary the merge uses to talk about them
 * (app.js:18-19, app.js:384-397, app.js:459-536).
 */
module WireModel {
  import opened Wrappers

  datatype Point = Point(x: int, y: int)

  /**
   * An entry of the segment store `wireSegments`. The identifier `k` stands for the string
   * "wire-k", the only form the editor ever gives an identifier. `color` and `width` are
   * absent (JavaScript `undefined`) on segments pushed by a commit until a merge, a recolour
   * or a width change gives them a value.
   */
  datatype Segment = Segment(id: nat, x1: int, y1: int, x2: int, y2: int,
                             color: Option<string>, width: Option<int>)

  /** The four coordinates of a wire, as the objects the merge builds carry them. */
  datatype Run = Run(x1: int, y1: int, x2: int, y2: int)

  /** A closed interval along a grid line. */
  datatype Span = Span(lo: int, hi: int)

  function Min(a: int, b: int): int { if a <= b then a else b }
  function Max(a: int, b: int): int { if a >= b then a else b }

  function RunOf(s: Segment): Run { Run(s.x1, s.y1, s.x2, s.y2) }

  function Runs(segs: seq<Segment>): (rs: seq<Run>)
    ensures |rs| == |segs|
    ensures forall i :: 0 <= i < |segs| ==> rs[i] == RunOf(segs[i])
  {
    seq(|segs|, i requires 0 <= i < |segs| => RunOf(segs[i]))
  }

  /** The merge files a run with y1 == y2 as horizontal (checked first, so a point is horizontal). */
  predicate IsHorizontal(r: Run) { r.y1 == r.y2 }

  /** ... and one with x1 == x2 but y1 != y2 as vertical; every other run is dropped. */
  predicate IsVertical(r: Run) { r.y1 != r.y2 && r.x1 == r.x2 }

  /** The class the merge puts `r` in: the horizontal one when `h`, the vertical one otherwise. */
  predicate InClass(r: Run, h: bool) { if h then IsHorizontal(r) else IsVertical(r) }

  /** The grid line of a run: its y for a horizontal run, its x for a vertical one. */
  function Key(r: Run, h: bool): int { if h then r.y1 else r.x1 }

  /** The interval a run occupies along its line. */
  function SpanOf(r: Run, h: bool): Span
  {
    if h then Span(Min(r.x1, r.x2), Max(r.x1, r.x2)) else Span(Min(r.y1, r.y2), Max(r.y1, r.y2))
  }

  /** The run the merge emits for interval `s` on line `k`. */
  function ToRun(k: int, h: bool, s: Span): Run
  {
    if h then Run(s.lo, k, s.hi, k) else Run(k, s.lo, k, s.hi)
  }

  function ToRuns(k: int, h: bool, s: seq<Span>): (rs: seq<Run>)
    ensures |rs| == |s|
    ensures forall i :: 0 <= i < |s| ==> rs[i] == ToRun(k, h, s[i])
  {
    seq(|s|, i requires 0 <= i < |s| => ToRun(k, h, s[i]))
  }

  /** A run in the form the merge emits: endpoints in ascending order, a vertical run not a point. */
  predicate Normalised(r: Run)
  {
    (r.y1 == r.y2 && r.x1 <= r.x2) || (r.x1 == r.x2 && r.y1 < r.y2)
  }

  predicate Contains(s: Span, t: real) { s.lo as real <= t <= s.hi as real }

  /** Run `r` is of class `h`, lies on line `k` and passes through the point at `t` along it. */
  predicate RunCovers(r: Run, h: bool, k: int, t: real)
  {
    InClass(r, h) && Key(r, h) == k && Contains(SpanOf(r, h), t)
  }

  /** Some run of `rs` of class `h` on line `k` passes through the point at `t`. */
  ghost predicate LineCovers(rs: seq<Run>, h: bool, k: int, t: real)
  {
    exists i :: 0 <= i < |rs| && RunCovers(rs[i], h, k, t)
  }

  /** A `color || default` read: undefined and the empty string fall back to the default. */
  function ColorOr(c: Option<string>, default: string): string
  {
    if c.Some? && c.value != "" then c.value else default
  }

  /** A `width || default` read: undefined and 0 fall back to the default. */
  function WidthOr(w: Option<int>, default: int): int
  {
    if w.Some? && w.value != 0 then w.value else default
  }

  lemma FallbackIdempotent(c: Option<string>, dc: string, w: Option<int>, dw: int)
    ensures ColorOr(Some(ColorOr(c, dc)), dc) == ColorOr(c, dc)
    ensures WidthOr(Some(WidthOr(w, dw)), dw) == WidthOr(w, dw)
  {
  }

  /** The endpoint test of the style lookup: the same endpoints in either direction. */
  predicate Matches(s: Segment, r: Run)
  {
    (s.x1 == r.x1 && s.y1 == r.y1 && s.x2 == r.x2 && s.y2 == r.y2) ||
    (s.x1 == r.x2 && s.y1 == r.y2 && s.x2 == r.x1 && s.y2 == r.y1)
  }

  /** `store.find(...)` with the endpoint test: the index of the first matching segment. */
  function FirstMatch(store: seq<Segment>, r: Run): (m: Option<nat>)
    ensures m.Some? ==> m.value < |store| && Matches(store[m.value], r)
    ensures m.Some? ==> forall j :: 0 <= j < m.value ==> !Matches(store[j], r)
    ensures m.None? ==> forall j :: 0 <= j < |store| ==> !Matches(store[j], r)
    decreases |store|
  {
    if store == [] then None
    else if Matches(store[0], r) then Some(0)
    else match FirstMatch(store[1..], r)
      case None => None
      case Some(j) => Some(j + 1)
  }

  /** `wireSegments.find(s => s.id === id)`: the index of the first segment with that id. */
  function FindById(store: seq<Segment>, id: nat): (m: Option<nat>)
    ensures m.Some? ==> m.value < |store| && store[m.value].id == id
    ensures m.Some? ==> forall j :: 0 <= j < m.value ==> store[j].id != id
    ensures m.None? ==> forall j :: 0 <= j < |store| ==> store[j].id != id
    decreases |store|
  {
    if store == [] then None
    else if store[0].id == id then Some(0)
    else match FindById(store[1..], id)
      case None => None
      case Some(j) => Some(j + 1)
  }

  /** Distinct segments of the store carry distinct identifiers. */
  predicate UniqueIds(store: seq<Segment>)
  {
    forall i, j :: 0 <= i < j < |store| ==> store[i].id != store[j].id
  }
}
