/**
 * The rubber-band selection tests of app.js (app.js:148-189): a wire or a component is
 * selected when its bounding box and the selection rectangle overlap as closed intervals on
 * both axes, so touching an edge counts.
 */
module Selection {
  import opened WireModel
  import opened Components

  /** The selection rectangle: top-left corner and size, as read from the rectangle's attributes. */
  datatype Rect = Rect(x: real, y: real, width: real, height: real)

  function RMin(a: real, b: real): real { if a <= b then a else b }
  function RMax(a: real, b: real): real { if a >= b then a else b }

  /** The closed-interval overlap test shared by both predicates. */
  predicate BoxMeetsRect(left: real, right: real, top: real, bottom: real, b: Rect)
  {
    right >= b.x && left <= b.x + b.width && bottom >= b.y && top <= b.y + b.height
  }

  predicate InBox(left: real, right: real, top: real, bottom: real, px: real, py: real)
  {
    left <= px <= right && top <= py <= bottom
  }

  predicate InRect(b: Rect, px: real, py: real)
  {
    b.x <= px <= b.x + b.width && b.y <= py <= b.y + b.height
  }

  /** The box and the rectangle have a point in common. */
  ghost predicate SharePoint(left: real, right: real, top: real, bottom: real, b: Rect)
  {
    exists px: real, py: real :: InBox(left, right, top, bottom, px, py) && InRect(b, px, py)
  }

  /** For a box and a rectangle that are not inverted, the test holds exactly when they share a point. */
  lemma OverlapIffSharedPoint(left: real, right: real, top: real, bottom: real, b: Rect)
    requires left <= right && top <= bottom && b.width >= 0.0 && b.height >= 0.0
    ensures BoxMeetsRect(left, right, top, bottom, b) <==> SharePoint(left, right, top, bottom, b)
  {
    if BoxMeetsRect(left, right, top, bottom, b) {
      var px := RMax(left, b.x);
      var py := RMax(top, b.y);
      assert InBox(left, right, top, bottom, px, py) && InRect(b, px, py);
    }
  }

  /** wireIntersectsSelection (app.js:148-161): the segment's bounding box meets the rectangle. */
  function WireIntersectsSelection(seg: Segment, b: Rect): (r: bool)
    ensures InRect(b, seg.x1 as real, seg.y1 as real) || InRect(b, seg.x2 as real, seg.y2 as real) ==> r
  {
    var x1, y1, x2, y2 := seg.x1 as real, seg.y1 as real, seg.x2 as real, seg.y2 as real;
    BoxMeetsRect(RMin(x1, x2), RMax(x1, x2), RMin(y1, y2), RMax(y1, y2), b)
  }

  /** A point of an axis-aligned segment (for such a segment its bounding box is the segment). */
  predicate OnSegment(seg: Segment, px: real, py: real)
  {
    var x1, y1, x2, y2 := seg.x1 as real, seg.y1 as real, seg.x2 as real, seg.y2 as real;
    InBox(RMin(x1, x2), RMax(x1, x2), RMin(y1, y2), RMax(y1, y2), px, py)
  }

  /** A wire is selected exactly when the rectangle contains one of its points. */
  lemma WireSelectedIffPointInside(seg: Segment, b: Rect)
    requires b.width >= 0.0 && b.height >= 0.0
    ensures WireIntersectsSelection(seg, b) <==> exists px: real, py: real :: OnSegment(seg, px, py) && InRect(b, px, py)
  {
    var x1, y1, x2, y2 := seg.x1 as real, seg.y1 as real, seg.x2 as real, seg.y2 as real;
    OverlapIffSharedPoint(RMin(x1, x2), RMax(x1, x2), RMin(y1, y2), RMax(y1, y2), b);
    if WireIntersectsSelection(seg, b) {
      var px, py :| InBox(RMin(x1, x2), RMax(x1, x2), RMin(y1, y2), RMax(y1, y2), px, py) && InRect(b, px, py);
      assert OnSegment(seg, px, py);
    }
  }

  /** The axis-aligned segments' points: on a horizontal segment, its row between its ends. */
  lemma OnHorizontalSegment(seg: Segment, px: real, py: real)
    requires seg.y1 == seg.y2
    ensures OnSegment(seg, px, py) <==>
      py == seg.y1 as real && RMin(seg.x1 as real, seg.x2 as real) <= px <= RMax(seg.x1 as real, seg.x2 as real)
  {
  }

  /** The wire test does not depend on which end is first. */
  lemma WireSelectionSymmetric(seg: Segment, b: Rect)
    ensures WireIntersectsSelection(seg.(x1 := seg.x2, y1 := seg.y2, x2 := seg.x1, y2 := seg.y1), b)
         == WireIntersectsSelection(seg, b)
  {
  }

  /** A wire ending on the rectangle's left edge is selected. */
  lemma EdgeTouchExample(seg: Segment)
    requires seg.x1 == 0 && seg.y1 == 0 && seg.x2 == 40 && seg.y2 == 0
    ensures WireIntersectsSelection(seg, Rect(40.0, 0.0, 10.0, 10.0))
    ensures !WireIntersectsSelection(seg, Rect(40.5, 0.0, 10.0, 10.0))
  {
  }

  /** The footprint box of a component about its centre. */
  function Left(c: Placed): real { c.x - Footprint(c.kind).width / 2.0 }
  function Right(c: Placed): real { c.x + Footprint(c.kind).width / 2.0 }
  function Top(c: Placed): real { c.y - Footprint(c.kind).height / 2.0 }
  function Bottom(c: Placed): real { c.y + Footprint(c.kind).height / 2.0 }

  /** componentIntersectsSelection (app.js:163-189): the footprint about the centre meets the rectangle. */
  function ComponentIntersectsSelection(c: Placed, b: Rect): (r: bool)
    ensures InRect(b, c.x, c.y) ==> r
  {
    BoxMeetsRect(Left(c), Right(c), Top(c), Bottom(c), b)
  }

  /** A component is selected exactly when the rectangle contains a point of its footprint. */
  lemma ComponentSelectedIffPointInside(c: Placed, b: Rect)
    requires b.width >= 0.0 && b.height >= 0.0
    ensures ComponentIntersectsSelection(c, b) <==> SharePoint(Left(c), Right(c), Top(c), Bottom(c), b)
  {
    OverlapIffSharedPoint(Left(c), Right(c), Top(c), Bottom(c), b);
  }

  /** The footprints: a source reaches its radius from the centre, a resistor half its sides. */
  lemma FootprintBoxes(c: Placed)
    ensures c.kind == "voltage" || c.kind == "current" ==>
      Left(c) == c.x - SourceRadius && Right(c) == c.x + SourceRadius &&
      Top(c) == c.y - SourceRadius && Bottom(c) == c.y + SourceRadius
    ensures c.kind == "resistor" ==>
      Left(c) == c.x - 30.0 && Right(c) == c.x + 30.0 && Top(c) == c.y - 15.0 && Bottom(c) == c.y + 15.0
  {
  }

  /** A component of a type the settings do not know is selected exactly when its centre is inside. */
  lemma UnknownComponentIsPoint(c: Placed, b: Rect)
    requires c.kind !in {"resistor", "voltage", "current"}
    ensures ComponentIntersectsSelection(c, b) <==> InRect(b, c.x, c.y)
  {
  }

  /** The rotation plays no part in the test. */
  lemma ComponentSelectionIgnoresRotation(c: Placed, r: int, b: Rect)
    ensures ComponentIntersectsSelection(c.(rotation := r), b) == ComponentIntersectsSelection(c, b)
  {
  }

  /** The identifiers of the selected wires, in store order (app.js:832-837). */
  function SelectedWires(store: seq<Segment>, b: Rect): (ids: seq<nat>)
    ensures |ids| <= |store|
    ensures forall id :: id in ids <==> exists i :: 0 <= i < |store| && store[i].id == id && WireIntersectsSelection(store[i], b)
    decreases |store|
  {
    if store == [] then []
    else
      var n := |store| - 1;
      var rest := SelectedWires(store[..n], b);
      assert forall i :: 0 <= i < n ==> store[i] == store[..n][i];
      if WireIntersectsSelection(store[n], b) then rest + [store[n].id] else rest
  }

  /** The loop of the mouseup handler collecting the selected wires. */
  method CollectSelectedWires(store: seq<Segment>, b: Rect) returns (ids: seq<nat>)
    ensures ids == SelectedWires(store, b)
  {
    ids := [];
    for i := 0 to |store|
      invariant ids == SelectedWires(store[..i], b)
    {
      assert store[..i + 1][..i] == store[..i];
      if WireIntersectsSelection(store[i], b) {
        ids := ids + [store[i].id];
      }
    }
    assert store[..|store|] == store;
  }
}
