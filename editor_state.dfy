/**
 * The editor's module-level wire state (app.js:7-19, app.js:27-30) as one value, and the
 * effect of each operation on it: the wire-mode switches, starting, previewing and
 * committing a wire, the merge, and the by-identifier store updates.
 */
module EditorState {
  import opened Wrappers
  import opened Grid
  import opened WireModel
  import Merge
  import opened Routing
  import opened StoreUpdates

  /** SETTINGS.wire.stroke: the default wire colour, which nothing assigns. */
  const DefaultStroke: string := "#000"

  /** SETTINGS.wire.width as initialised. */
  const InitialWidth: int := 2

  datatype Session = Session(
    wireMode: bool,
    wireStart: Option<Point>,
    wireDirection: Option<Direction>,
    wireCurrentMid: Option<Point>,
    wireSegmentCounter: nat,
    wireSegments: seq<Segment>,
    defaultWidth: int)

  const Initial: Session := Session(false, None, None, None, 0, [], InitialWidth)

  /**
   * What the operations keep: identifiers are unique and below the counter, the store has no
   * more segments than the counter has handed out, a direction is locked only while a wire is
   * started, and a locked direction comes with a pivot.
   */
  predicate Invariant(s: Session)
  {
    UniqueIds(s.wireSegments) &&
    (forall i :: 0 <= i < |s.wireSegments| ==> s.wireSegments[i].id < s.wireSegmentCounter) &&
    |s.wireSegments| <= s.wireSegmentCounter &&
    (s.wireStart.None? ==> s.wireDirection.None?) &&
    (s.wireDirection.Some? ==> s.wireCurrentMid.Some?)
  }

  /** activateWireMode (app.js:436-443); the pivot is left as it was. */
  function Activate(s: Session): Session
  {
    s.(wireMode := true, wireStart := None, wireDirection := None)
  }

  /** exitWireMode (app.js:445-456). */
  function Exit(s: Session): Session
  {
    s.(wireMode := false, wireStart := None, wireDirection := None, wireCurrentMid := None)
  }

  /** startWire (app.js:333-344); the pivot of an earlier wire is left as it was. */
  function Start(s: Session, p: Point): Session
  {
    s.(wireStart := Some(p), wireDirection := None)
  }

  /** updateWirePreview (app.js:346-376): the new lock, and the pivot when there is a lock. */
  function Preview(s: Session, end: Point): Session
    requires s.wireStart.Some?
  {
    var start := s.wireStart.value;
    var d := NextDirection(s.wireDirection, end.x - start.x, end.y - start.y);
    s.(wireDirection := d, wireCurrentMid := if d.Some? then Some(Pivot(start, end, d.value)) else s.wireCurrentMid)
  }

  /** mergeCollinearWires on the store with the current default style (app.js:459-551). */
  function MergeStore(s: Session): Session
  {
    s.(wireSegments := Merge.Normalize(s.wireSegments, DefaultStroke, s.defaultWidth))
  }

  /**
   * The part of commitWire (app.js:378-411) before the merge: the segments of the route
   * through the pivot are pushed with fresh identifiers and the wire restarts at `p` unlocked.
   * The pivot is left as it was.
   */
  function Route(s: Session, p: Point): Session
    requires s.wireStart.Some? && s.wireCurrentMid.Some?
  {
    var pushed := CommitSegments(s.wireStart.value, s.wireCurrentMid.value, p, s.wireSegmentCounter);
    s.(wireSegments := s.wireSegments + pushed,
       wireSegmentCounter := s.wireSegmentCounter + |pushed|,
       wireStart := Some(p), wireDirection := None)
  }

  /** commitWire: nothing happens at the start point or before any pivot; otherwise route and merge. */
  function Commit(s: Session, p: Point): Session
    requires s.wireStart.Some?
  {
    if p == s.wireStart.value || s.wireCurrentMid.None? then s else MergeStore(Route(s, p))
  }

  /** The canvas mousemove handler (app.js:879-890): in wire mode with a start, preview the snapped point. */
  function MouseMove(s: Session, px: real, py: real): Session
  {
    if s.wireMode && s.wireStart.Some? then Preview(s, Point(Snap(px), Snap(py))) else s
  }

  /** The canvas click handler (app.js:892-906): start a wire at the snapped point, or commit there. */
  function Click(s: Session, px: real, py: real): Session
  {
    var p := Point(Snap(px), Snap(py));
    if s.wireStart.None? then Start(s, p) else Commit(s, p)
  }

  /** A drag release over the dragged lines (app.js:698-712, app.js:605-621); no merge follows. */
  function Release(s: Session, lines: seq<LinePos>, width: int, height: int): Session
  {
    s.(wireSegments := ReleaseAll(s.wireSegments, lines, width, height))
  }

  /** The colour picker over the selected lines (app.js:1052-1058). */
  function Recolor(s: Session, ids: seq<nat>, color: string): Session
  {
    s.(wireSegments := RecolorAll(s.wireSegments, ids, color))
  }

  /** The width slider over the selected lines, which also becomes the default (app.js:1070-1079). */
  function SetWidth(s: Session, ids: seq<nat>, width: int): Session
  {
    s.(wireSegments := SetWidthAll(s.wireSegments, ids, width), defaultWidth := width)
  }

  // ---------------------------------------------------------------- the invariant is kept

  lemma InitialInvariant()
    ensures Invariant(Initial)
  {
  }

  lemma MergeKeepsInvariant(s: Session)
    requires Invariant(s)
    ensures Invariant(MergeStore(s))
  {
    Merge.NormalizeShape(s.wireSegments, DefaultStroke, s.defaultWidth);
  }

  lemma PushKeepsInvariant(store: seq<Segment>, pushed: seq<Segment>, counter: nat)
    requires UniqueIds(store) && |store| <= counter
    requires forall i :: 0 <= i < |store| ==> store[i].id < counter
    requires forall i :: 0 <= i < |pushed| ==> pushed[i].id == counter + i
    ensures var r := store + pushed;
      UniqueIds(r) && |r| <= counter + |pushed| &&
      forall i :: 0 <= i < |r| ==> r[i].id < counter + |pushed|
  {
    var r := store + pushed;
    forall i, j | 0 <= i < j < |r| ensures r[i].id != r[j].id {
      if j >= |store| {
        assert r[j] == pushed[j - |store|];
        if i >= |store| { assert r[i] == pushed[i - |store|]; }
      }
    }
    forall i | 0 <= i < |r| ensures r[i].id < counter + |pushed| {
      if i >= |store| { assert r[i] == pushed[i - |store|]; }
    }
  }

  /** Every operation keeps the invariant. */
  lemma RouteKeepsInvariant(s: Session, p: Point)
    requires Invariant(s) && s.wireStart.Some? && s.wireCurrentMid.Some?
    ensures Invariant(Route(s, p))
  {
    var pushed := CommitSegments(s.wireStart.value, s.wireCurrentMid.value, p, s.wireSegmentCounter);
    PushKeepsInvariant(s.wireSegments, pushed, s.wireSegmentCounter);
  }

  lemma CommitKeepsInvariant(s: Session, p: Point)
    requires Invariant(s) && s.wireStart.Some?
    ensures Invariant(Commit(s, p))
  {
    if p != s.wireStart.value && s.wireCurrentMid.Some? {
      RouteKeepsInvariant(s, p);
      MergeKeepsInvariant(Route(s, p));
    }
  }

  lemma PreviewKeepsInvariant(s: Session, end: Point)
    requires Invariant(s) && s.wireStart.Some?
    ensures Invariant(Preview(s, end))
  {
  }

  lemma HandlersKeepInvariant(s: Session, px: real, py: real)
    requires Invariant(s)
    ensures Invariant(MouseMove(s, px, py)) && Invariant(Click(s, px, py))
    ensures Invariant(Activate(s)) && Invariant(Exit(s))
  {
    if s.wireMode && s.wireStart.Some? {
      PreviewKeepsInvariant(s, Point(Snap(px), Snap(py)));
    }
    if s.wireStart.Some? {
      CommitKeepsInvariant(s, Point(Snap(px), Snap(py)));
    }
  }

  lemma UpdatesKeepInvariant(s: Session, lines: seq<LinePos>, width: int, height: int, ids: seq<nat>, color: string, w: int)
    requires Invariant(s)
    ensures Invariant(Release(s, lines, width, height))
    ensures Invariant(Recolor(s, ids, color))
    ensures Invariant(SetWidth(s, ids, w))
  {
    ReleaseAllFrame(s.wireSegments, lines, width, height);
    RecolorAllFrame(s.wireSegments, ids, color);
    SetWidthAllFrame(s.wireSegments, ids, w);
  }

  // ---------------------------------------------------------------- routing a wire

  /**
   * Previewing a point and clicking it routes a wire there: a direction is locked, the store
   * becomes the merge of the old store and a path of axis-aligned segments from the start to
   * `p` through the pivot, the counter advances by the number of segments, and the wire
   * restarts at `p` unlocked.
   */
  lemma PreviewThenCommitRoutes(s: Session, p: Point)
    requires s.wireStart.Some? && p != s.wireStart.value
    ensures var start := s.wireStart.value;
      var d := NextDirection(s.wireDirection, p.x - start.x, p.y - start.y);
      d.Some? &&
      var segs := CommitSegments(start, Pivot(start, p, d.value), p, s.wireSegmentCounter);
      var s2 := Commit(Preview(s, p), p);
      PathFrom(segs, start, p) &&
      (forall i :: 0 <= i < |segs| ==> AxisAligned(segs[i]) && segs[i].id == s.wireSegmentCounter + i) &&
      s2.wireSegments == Merge.Normalize(s.wireSegments + segs, DefaultStroke, s.defaultWidth) &&
      s2.wireSegmentCounter == s.wireSegmentCounter + |segs| &&
      s2.wireStart == Some(p) && s2.wireDirection.None?
  {
    var start := s.wireStart.value;
    var d := NextDirection(s.wireDirection, p.x - start.x, p.y - start.y);
    PreviewThenCommit(s.wireDirection, start, p, s.wireSegmentCounter);
    var segs := CommitSegments(start, Pivot(start, p, d.value), p, s.wireSegmentCounter);
    var s1 := Preview(s, p);
    assert s1 == s.(wireDirection := d, wireCurrentMid := Some(Pivot(start, p, d.value)));
    assert Route(s1, p).wireSegments == s.wireSegments + segs;
  }

  /** A commit leaves a merged store: merging it again, as the export does, changes nothing. */
  lemma CommitLeavesMerged(s: Session, p: Point)
    requires s.wireStart.Some? && p != s.wireStart.value && s.wireCurrentMid.Some?
    ensures MergeStore(Commit(s, p)) == Commit(s, p)
  {
    Merge.NormalizeIdempotent(Route(s, p).wireSegments, DefaultStroke, s.defaultWidth);
  }

  /** A click at the start point, or before any pivot exists, changes nothing. */
  lemma CommitNoOp(s: Session, p: Point)
    requires s.wireStart.Some? && (p == s.wireStart.value || s.wireCurrentMid.None?)
    ensures Commit(s, p) == s
  {
  }
}
