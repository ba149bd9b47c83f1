/**
 * The editor's wire state as an object whose methods update it in place, in the order the
 * handlers of app.js do. Each method is tied to the transition of `Session` it performs.
 */
module Editor {
  import opened Wrappers
  import opened Grid
  import opened WireModel
  import opened Routing
  import opened StoreUpdates
  import opened EditorState
  import MergeEngine

  class WireEditor {
    var wireMode: bool
    var wireStart: Option<Point>
    var wireDirection: Option<Direction>
    var wireCurrentMid: Option<Point>
    var wireSegmentCounter: nat
    var wireSegments: seq<Segment>
    /** SETTINGS.wire.width, the width a merge gives to segments without one. */
    var defaultWidth: int

    function State(): Session
      reads this
    {
      Session(wireMode, wireStart, wireDirection, wireCurrentMid, wireSegmentCounter, wireSegments, defaultWidth)
    }

    predicate Valid()
      reads this
    {
      Invariant(State())
    }

    constructor()
      ensures State() == Initial && Valid()
    {
      wireMode := false;
      wireStart := None;
      wireDirection := None;
      wireCurrentMid := None;
      wireSegmentCounter := 0;
      wireSegments := [];
      defaultWidth := InitialWidth;
    }

    method ActivateWireMode()
      requires Valid()
      modifies this
      ensures State() == Activate(old(State())) && Valid()
    {
      wireMode := true;
      wireStart := None;
      wireDirection := None;
    }

    method ExitWireMode()
      requires Valid()
      modifies this
      ensures State() == Exit(old(State())) && Valid()
    {
      wireMode := false;
      wireStart := None;
      wireDirection := None;
      wireCurrentMid := None;
    }

    method StartWire(x: int, y: int)
      requires Valid()
      modifies this
      ensures State() == Start(old(State()), Point(x, y)) && Valid()
    {
      wireStart := Some(Point(x, y));
      wireDirection := None;
    }

    /** Re-evaluate the lock for the offset to (endX, endY), then move the pivot. */
    method UpdateWirePreview(endX: int, endY: int)
      requires Valid() && wireStart.Some?
      modifies this
      ensures State() == Preview(old(State()), Point(endX, endY)) && Valid()
    {
      var start := wireStart.value;
      var dx := endX - start.x;
      var dy := endY - start.y;
      if (dx == 0 || dy == 0) && wireDirection.Some? {
        wireDirection := None;
      }
      if wireDirection.None? && (dx != 0 || dy != 0) {
        wireDirection := Some(if Abs(dx) >= Abs(dy) then X else Y);
      }
      if wireDirection == Some(X) {
        wireCurrentMid := Some(Point(endX, start.y));
      } else if wireDirection == Some(Y) {
        wireCurrentMid := Some(Point(start.x, endY));
      }
    }

    /** Push the segments of the previewed route to (x, y), restart there, and merge. */
    method CommitWire(x: int, y: int)
      requires Valid() && wireStart.Some?
      modifies this
      ensures State() == Commit(old(State()), Point(x, y)) && Valid()
    {
      var start := wireStart.value;
      if (x == start.x && y == start.y) || wireCurrentMid.None? {
        return;
      }
      PushRoute(x, y);
      var _ := MergeCollinearWires();
    }

    /** The pushes of commitWire and the restart at (x, y). */
    method PushRoute(x: int, y: int)
      requires Valid() && wireStart.Some? && wireCurrentMid.Some?
      modifies this
      ensures State() == Route(old(State()), Point(x, y)) && Valid()
    {
      RouteKeepsInvariant(State(), Point(x, y));
      var start := wireStart.value;
      var mid := wireCurrentMid.value;
      if start.x == x || start.y == y {
        wireSegments := wireSegments + [Seg(wireSegmentCounter, start, Point(x, y))];
        wireSegmentCounter := wireSegmentCounter + 1;
      } else {
        wireSegments := wireSegments + [Seg(wireSegmentCounter, start, mid)];
        wireSegmentCounter := wireSegmentCounter + 1;
        wireSegments := wireSegments + [Seg(wireSegmentCounter, mid, Point(x, y))];
        wireSegmentCounter := wireSegmentCounter + 1;
      }
      wireStart := Some(Point(x, y));
      wireDirection := None;
    }

    /** Replace the store by its merge with the current default style, and return it. */
    method MergeCollinearWires() returns (merged: seq<Segment>)
      requires Valid()
      modifies this
      ensures State() == MergeStore(old(State())) && merged == wireSegments && Valid()
    {
      MergeKeepsInvariant(State());
      merged := MergeEngine.MergeSegments(wireSegments, DefaultStroke, defaultWidth);
      wireSegments := merged;
    }

    /** The canvas mousemove handler at canvas point (px, py). */
    method MouseMove(px: real, py: real)
      requires Valid()
      modifies this
      ensures State() == EditorState.MouseMove(old(State()), px, py) && Valid()
    {
      if !wireMode || wireStart.None? {
        return;
      }
      UpdateWirePreview(Snap(px), Snap(py));
    }

    /** The canvas click handler at canvas point (px, py). */
    method Click(px: real, py: real)
      requires Valid()
      modifies this
      ensures State() == EditorState.Click(old(State()), px, py) && Valid()
    {
      var x := Snap(px);
      var y := Snap(py);
      if wireStart.None? {
        StartWire(x, y);
      } else {
        CommitWire(x, y);
      }
    }

    /** Snap the endpoints of every dragged line into the store, in the order of `lines`. */
    method ReleaseWireDrag(lines: seq<LinePos>, width: int, height: int)
      requires Valid()
      modifies this
      ensures State() == Release(old(State()), lines, width, height) && Valid()
    {
      UpdatesKeepInvariant(State(), lines, width, height, [], "", 0);
      for i := 0 to |lines|
        invariant State() == old(State()).(wireSegments := ReleaseAll(old(wireSegments), lines[..i], width, height))
      {
        assert lines[..i + 1][..i] == lines[..i];
        var p := lines[i];
        var found := FindById(wireSegments, p.id);
        if found.Some? {
          var k := found.value;
          wireSegments := wireSegments[k := Snapped(wireSegments[k], p, width, height)];
        }
      }
      assert lines[..|lines|] == lines;
    }

    /** Give every selected line the colour `color`. */
    method Recolor(ids: seq<nat>, color: string)
      requires Valid()
      modifies this
      ensures State() == EditorState.Recolor(old(State()), ids, color) && Valid()
    {
      UpdatesKeepInvariant(State(), [], 0, 0, ids, color, 0);
      for i := 0 to |ids|
        invariant State() == old(State()).(wireSegments := RecolorAll(old(wireSegments), ids[..i], color))
      {
        assert ids[..i + 1][..i] == ids[..i];
        var found := FindById(wireSegments, ids[i]);
        if found.Some? {
          var k := found.value;
          wireSegments := wireSegments[k := wireSegments[k].(color := Some(color))];
        }
      }
      assert ids[..|ids|] == ids;
    }

    /** Give every selected line the width `width`, which also becomes the default. */
    method SetWireWidth(ids: seq<nat>, width: int)
      requires Valid()
      modifies this
      ensures State() == EditorState.SetWidth(old(State()), ids, width) && Valid()
    {
      UpdatesKeepInvariant(State(), [], 0, 0, ids, "", width);
      for i := 0 to |ids|
        invariant State() == old(State()).(wireSegments := SetWidthAll(old(wireSegments), ids[..i], width))
      {
        assert ids[..i + 1][..i] == ids[..i];
        var found := FindById(wireSegments, ids[i]);
        if found.Some? {
          var k := found.value;
          wireSegments := wireSegments[k := wireSegments[k].(width := Some(width))];
        }
      }
      assert ids[..|ids|] == ids;
      defaultWidth := width;
    }
  }
}
