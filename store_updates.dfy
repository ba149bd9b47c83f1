/**
 * Updates of single store segments found by identifier (app.js:605-621, app.js:698-712,
 * app.js:1052-1058, app.js:1070-1076): a drag release snaps the dragged line's endpoints, a
 * recolour sets the colour, a width change sets the width. Each update visits the selected
 * lines in order and changes the first segment with the line's identifier, if there is one.
 */
module StoreUpdates {
  import opened Wrappers
  import opened Grid
  import opened WireModel

  /** A dragged wire's line as drawn: its identifier and the endpoint attributes it has now. */
  datatype LinePos = LinePos(id: nat, x1: real, y1: real, x2: real, y2: real)

  /** The endpoints of a line snapped and clamped into the canvas (app.js:610-613, 702-705). */
  function Snapped(s: Segment, p: LinePos, width: int, height: int): Segment
  {
    s.(x1 := SnapAndClamp(p.x1, 0, width), y1 := SnapAndClamp(p.y1, 0, height),
       x2 := SnapAndClamp(p.x2, 0, width), y2 := SnapAndClamp(p.y2, 0, height))
  }

  /** One line of a drag release: `find` by identifier, then overwrite the four endpoints. */
  function ReleaseOne(store: seq<Segment>, p: LinePos, width: int, height: int): (r: seq<Segment>)
    ensures |r| == |store|
    ensures forall i :: 0 <= i < |store| ==> r[i].id == store[i].id && r[i].color == store[i].color && r[i].width == store[i].width
  {
    match FindById(store, p.id)
    case None => store
    case Some(i) => store[i := Snapped(store[i], p, width, height)]
  }

  function ReleaseAll(store: seq<Segment>, lines: seq<LinePos>, width: int, height: int): (r: seq<Segment>)
    ensures |r| == |store|
    ensures forall i :: 0 <= i < |store| ==> r[i].id == store[i].id && r[i].color == store[i].color && r[i].width == store[i].width
    decreases |lines|
  {
    if lines == [] then store
    else ReleaseOne(ReleaseAll(store, lines[..|lines| - 1], width, height), lines[|lines| - 1], width, height)
  }

  /** One selected line of a recolour (app.js:1056-1057). */
  function RecolorOne(store: seq<Segment>, id: nat, color: string): (r: seq<Segment>)
    ensures |r| == |store|
    ensures forall i :: 0 <= i < |store| ==> r[i].id == store[i].id && RunOf(r[i]) == RunOf(store[i]) && r[i].width == store[i].width
  {
    match FindById(store, id)
    case None => store
    case Some(i) => store[i := store[i].(color := Some(color))]
  }

  function RecolorAll(store: seq<Segment>, ids: seq<nat>, color: string): (r: seq<Segment>)
    ensures |r| == |store|
    ensures forall i :: 0 <= i < |store| ==> r[i].id == store[i].id && RunOf(r[i]) == RunOf(store[i]) && r[i].width == store[i].width
    decreases |ids|
  {
    if ids == [] then store
    else RecolorOne(RecolorAll(store, ids[..|ids| - 1], color), ids[|ids| - 1], color)
  }

  /** One selected line of a width change (app.js:1074-1075). */
  function SetWidthOne(store: seq<Segment>, id: nat, width: int): (r: seq<Segment>)
    ensures |r| == |store|
    ensures forall i :: 0 <= i < |store| ==> r[i].id == store[i].id && RunOf(r[i]) == RunOf(store[i]) && r[i].color == store[i].color
  {
    match FindById(store, id)
    case None => store
    case Some(i) => store[i := store[i].(width := Some(width))]
  }

  function SetWidthAll(store: seq<Segment>, ids: seq<nat>, width: int): (r: seq<Segment>)
    ensures |r| == |store|
    ensures forall i :: 0 <= i < |store| ==> r[i].id == store[i].id && RunOf(r[i]) == RunOf(store[i]) && r[i].color == store[i].color
    decreases |ids|
  {
    if ids == [] then store
    else SetWidthOne(SetWidthAll(store, ids[..|ids| - 1], width), ids[|ids| - 1], width)
  }

  /** The last of the lines with identifier `id`: the one whose endpoints a release keeps. */
  function LastFor(lines: seq<LinePos>, id: nat): (m: Option<LinePos>)
    ensures m.Some? ==> m.value in lines && m.value.id == id
    ensures m.None? ==> forall j :: 0 <= j < |lines| ==> lines[j].id != id
    decreases |lines|
  {
    if lines == [] then None
    else if lines[|lines| - 1].id == id then Some(lines[|lines| - 1])
    else LastFor(lines[..|lines| - 1], id)
  }

  /** With unique identifiers, the segment with identifier `id` is the one `find` returns. */
  lemma FindUnique(store: seq<Segment>, i: nat)
    requires UniqueIds(store) && i < |store|
    ensures FindById(store, store[i].id) == Some(i)
  {
  }

  /**
   * A drag release changes nothing but endpoints: each segment keeps its identifier, colour
   * and width, a segment no line names is left as it was, and a named segment takes the
   * snapped and clamped endpoints of the last line naming it.
   */
  lemma {:induction false} ReleaseAllFrame(store: seq<Segment>, lines: seq<LinePos>, width: int, height: int)
    requires UniqueIds(store)
    ensures var r := ReleaseAll(store, lines, width, height);
      UniqueIds(r) &&
      forall i :: 0 <= i < |store| ==>
        r[i].id == store[i].id && r[i].color == store[i].color && r[i].width == store[i].width &&
        (LastFor(lines, store[i].id).None? ==> r[i] == store[i]) &&
        (LastFor(lines, store[i].id).Some? ==> r[i] == Snapped(store[i], LastFor(lines, store[i].id).value, width, height))
    decreases |lines|
  {
    if lines != [] {
      var init := lines[..|lines| - 1];
      var p := lines[|lines| - 1];
      ReleaseAllFrame(store, init, width, height);
      var prev := ReleaseAll(store, init, width, height);
      forall i | 0 <= i < |store| ensures prev[i].id == store[i].id {
      }
      match FindById(prev, p.id)
      case None =>
      case Some(k) =>
        FindUnique(prev, k);
    }
  }

  /** A recolour sets exactly the named segments' colour and changes nothing else. */
  lemma {:induction false} RecolorAllFrame(store: seq<Segment>, ids: seq<nat>, color: string)
    requires UniqueIds(store)
    ensures var r := RecolorAll(store, ids, color);
      UniqueIds(r) &&
      forall i :: 0 <= i < |store| ==>
        r[i] == store[i].(color := if store[i].id in ids then Some(color) else store[i].color)
    decreases |ids|
  {
    if ids != [] {
      var init := ids[..|ids| - 1];
      var id := ids[|ids| - 1];
      assert forall x :: x in ids <==> x in init || x == id by {
        assert ids == init + [id];
      }
      RecolorAllFrame(store, init, color);
      var prev := RecolorAll(store, init, color);
      match FindById(prev, id)
      case None =>
      case Some(k) =>
        FindUnique(prev, k);
    }
  }

  /** A width change sets exactly the named segments' width and changes nothing else. */
  lemma {:induction false} SetWidthAllFrame(store: seq<Segment>, ids: seq<nat>, width: int)
    requires UniqueIds(store)
    ensures var r := SetWidthAll(store, ids, width);
      UniqueIds(r) &&
      forall i :: 0 <= i < |store| ==>
        r[i] == store[i].(width := if store[i].id in ids then Some(width) else store[i].width)
    decreases |ids|
  {
    if ids != [] {
      var init := ids[..|ids| - 1];
      var id := ids[|ids| - 1];
      assert forall x :: x in ids <==> x in init || x == id by {
        assert ids == init + [id];
      }
      SetWidthAllFrame(store, init, width);
      var prev := SetWidthAll(store, init, width);
      match FindById(prev, id)
      case None =>
      case Some(k) =>
        FindUnique(prev, k);
    }
  }

  /** The line of segment `s` after a drag by `dx`, `dy`: both endpoints moved alike (app.js:589-592, app.js:675-678). */
  function Dragged(s: Segment, dx: real, dy: real): LinePos
  {
    LinePos(s.id, s.x1 as real + dx, s.y1 as real + dy, s.x2 as real + dx, s.y2 as real + dy)
  }

  /**
   * Releasing a dragged horizontal (vertical) segment leaves it horizontal (vertical), on the
   * grid and inside the canvas.
   */
  lemma DragKeepsAxis(s: Segment, dx: real, dy: real, width: int, height: int)
    requires 0 <= width && 0 <= height
    ensures var r := Snapped(s, Dragged(s, dx, dy), width, height);
      (s.y1 == s.y2 ==> r.y1 == r.y2) && (s.x1 == s.x2 ==> r.x1 == r.x2) &&
      0 <= r.x1 <= width && 0 <= r.x2 <= width && 0 <= r.y1 <= height && 0 <= r.y2 <= height
  {
  }
}
