/**
 * Wire routing with axis locking (app.js:346-403): while a wire is being drawn the preview
 * locks onto a dominant axis and places a pivot; a commit turns start, pivot and end point
 * into one straight segment or an L of two.
 */
module Routing {
  import opened Wrappers
  import opened WireModel

  /** wireDirection: "x" or "y" (null is `None`). */
  datatype Direction = X | Y

  function Abs(v: int): nat { if v < 0 then -v else v }

  /**
   * The direction after a preview to an end point `dx`, `dy` away from the start
   * (app.js:350-358): an axis-aligned move drops the lock, and an unlocked preview that moved
   * locks onto the dominant axis, x on a tie.
   */
  function NextDirection(dir: Option<Direction>, dx: int, dy: int): (d: Option<Direction>)
    ensures d.None? <==> dx == 0 && dy == 0
    ensures (dx != 0 || dy != 0) && (dx == 0 || dy == 0 || dir.None?) ==>
              d == Some(if Abs(dx) >= Abs(dy) then X else Y)
    ensures dx != 0 && dy != 0 && dir.Some? ==> d == dir
  {
    var reset := if (dx == 0 || dy == 0) && dir.Some? then None else dir;
    if reset.None? && (dx != 0 || dy != 0) then Some(if Abs(dx) >= Abs(dy) then X else Y)
    else reset
  }

  /** The corner of the L: below or above the start for "x", beside it for "y" (app.js:360-366). */
  function Pivot(start: Point, end: Point, d: Direction): (p: Point)
    ensures d == X ==> p.x == end.x && p.y == start.y
    ensures d == Y ==> p.x == start.x && p.y == end.y
  {
    match d
    case X => Point(end.x, start.y)
    case Y => Point(start.x, end.y)
  }

  function Seg(id: nat, a: Point, b: Point): Segment
  {
    Segment(id, a.x, a.y, b.x, b.y, None, None)
  }

  /**
   * The segments a commit at `p` pushes (app.js:381-402), numbered from `counter`: one from
   * the start when `p` shares a coordinate with it, otherwise start to pivot and pivot to `p`.
   * They carry no colour and no width.
   */
  function CommitSegments(start: Point, mid: Point, p: Point, counter: nat): (segs: seq<Segment>)
    ensures |segs| == (if start.x == p.x || start.y == p.y then 1 else 2)
    ensures PathFrom(segs, start, p)
    ensures forall i :: 0 <= i < |segs| ==> segs[i].id == counter + i && segs[i].color.None? && segs[i].width.None?
  {
    if start.x == p.x || start.y == p.y then [Seg(counter, start, p)]
    else [Seg(counter, start, mid), Seg(counter + 1, mid, p)]
  }

  /** A segment parallel to an axis and of positive length. */
  predicate AxisAligned(s: Segment)
  {
    (s.x1 == s.x2 && s.y1 != s.y2) || (s.y1 == s.y2 && s.x1 != s.x2)
  }

  /** The segments form a path from `a` to `b`, each one starting where the previous ended. */
  predicate PathFrom(segs: seq<Segment>, a: Point, b: Point)
  {
    |segs| > 0 &&
    segs[0].x1 == a.x && segs[0].y1 == a.y &&
    segs[|segs| - 1].x2 == b.x && segs[|segs| - 1].y2 == b.y &&
    forall i :: 0 < i < |segs| ==> segs[i].x1 == segs[i - 1].x2 && segs[i].y1 == segs[i - 1].y2
  }

  /**
   * A preview to `p` followed by a commit at `p` routes the wire: the pushed segments run
   * from the start to `p` along the axes without a zero-length piece, one when `p` shares a
   * coordinate with the start and two otherwise, with consecutive identifiers from `counter`.
   */
  lemma PreviewThenCommit(dir: Option<Direction>, start: Point, p: Point, counter: nat)
    requires p != start
    ensures var d := NextDirection(dir, p.x - start.x, p.y - start.y);
      d.Some? &&
      var segs := CommitSegments(start, Pivot(start, p, d.value), p, counter);
      PathFrom(segs, start, p) &&
      (forall i :: 0 <= i < |segs| ==> AxisAligned(segs[i]) && segs[i].id == counter + i) &&
      |segs| == (if start.x == p.x || start.y == p.y then 1 else 2)
  {
  }

  /**
   * An L-shaped route: from (0,0) the preview to (40,0) locks x, the preview to
   * (40,80) keeps the lock because neither offset is zero, and the commit at (40,80) pushes
   * (0,0)-(40,0) and (40,0)-(40,80).
   */
  lemma LShapeExample()
    ensures NextDirection(None, 40, 0) == Some(X)
    ensures NextDirection(Some(X), 40, 80) == Some(X)
    ensures Pivot(Point(0, 0), Point(40, 80), X) == Point(40, 0)
    ensures CommitSegments(Point(0, 0), Point(40, 0), Point(40, 80), 0)
         == [Segment(0, 0, 0, 40, 0, None, None), Segment(1, 40, 0, 40, 80, None, None)]
  {
  }

  /** A commit in line with the start pushes one segment, whatever the pivot. */
  lemma StraightCommitExample(mid: Point)
    ensures NextDirection(None, 80, 0) == Some(X)
    ensures CommitSegments(Point(0, 0), mid, Point(80, 0), 0) == [Segment(0, 0, 0, 80, 0, None, None)]
  {
  }

  /**
   * The commit uses the pivot of the latest preview, whichever point that preview was for:
   * a commit at a point the preview did not reach can push a diagonal segment, which the
   * merge then drops.
   */
  lemma StalePivotExample()
    ensures var segs := CommitSegments(Point(0, 0), Pivot(Point(0, 0), Point(40, 80), X), Point(80, 120), 0);
      segs == [Segment(0, 0, 0, 40, 0, None, None), Segment(1, 40, 0, 80, 120, None, None)] &&
      !AxisAligned(segs[1])
  {
  }
}
