/**
 * The CircuiTikZ exporter (circuittikz.py): a component whose centre lies strictly inside a
 * wire splits that wire into two wires ending at the component's terminals; then every wire
 * and every component is drawn in CircuiTikZ units, 75 app units to one, with y pointing up.
 */
module CircuiTikz {
  import opened Wrappers

  /** The keys of an exported wire besides its endpoints; wires made by a split have none. */
  datatype WireMeta = WireMeta(id: string, color: string, thickness: int)

  /** A wire record; records compare equal when all their keys are equal. */
  datatype Wire = Wire(x1: real, y1: real, x2: real, y2: real, meta: Option<WireMeta>)

  datatype Label = Label(text: string, pos: string)

  datatype Component = Component(kind: string, x: real, y: real, rotation: int, lbl: Label)

  /** App units per CircuiTikZ unit. */
  const Scale: real := 75.0

  function RMin(a: real, b: real): real { if a <= b then a else b }
  function RMax(a: real, b: real): real { if a >= b then a else b }

  // ---------------------------------------------------------------- is_on_wire (circuittikz.py:27-40)

  /** The component centre lies on the wire's line strictly between its ends; a slanted wire never qualifies. */
  predicate IsOnWire(c: Component, w: Wire)
    ensures IsOnWire(c, w) ==> (w.x1 == w.x2 && c.x == w.x1) || (w.y1 == w.y2 && c.y == w.y1)
    ensures IsOnWire(c, w) ==> !(c.x == w.x1 && c.y == w.y1) && !(c.x == w.x2 && c.y == w.y2)
  {
    if w.x1 == w.x2 then c.x == w.x1 && RMin(w.y1, w.y2) < c.y < RMax(w.y1, w.y2)
    else if w.y1 == w.y2 then c.y == w.y1 && RMin(w.x1, w.x2) < c.x < RMax(w.x1, w.x2)
    else false
  }

  function Lerp(a: real, b: real, t: real): real { a + t * (b - a) }

  /** The centre is a point of the open wire: t strictly between 0 and 1 of the way along. */
  ghost predicate StrictlyInside(c: Component, w: Wire)
  {
    exists t: real :: 0.0 < t < 1.0 && Lerp(w.x1, w.x2, t) == c.x && Lerp(w.y1, w.y2, t) == c.y
  }

  /** A wire along exactly one axis: not slanted, and not a single point. */
  predicate AxisAligned(w: Wire)
  {
    (w.x1 == w.x2) != (w.y1 == w.y2)
  }

  /** On an axis-aligned wire the test is the open-segment membership; ends and points off the wire fail. */
  lemma IsOnWireIffStrictlyInside(c: Component, w: Wire)
    requires AxisAligned(w)
    ensures IsOnWire(c, w) <==> StrictlyInside(c, w)
  {
    if IsOnWire(c, w) {
      OnWireIsInside(c, w);
    }
    if StrictlyInside(c, w) {
      InsideIsOnWire(c, w);
    }
  }

  lemma OnWireIsInside(c: Component, w: Wire)
    requires IsOnWire(c, w)
    ensures StrictlyInside(c, w)
  {
    if w.x1 == w.x2 {
      var t := InteriorWitness(w.y1, w.y2, c.y);
      assert Lerp(w.x1, w.x2, t) == c.x;
    } else {
      var t := InteriorWitness(w.x1, w.x2, c.x);
      assert Lerp(w.y1, w.y2, t) == c.y;
    }
  }

  lemma InsideIsOnWire(c: Component, w: Wire)
    requires AxisAligned(w)
    requires StrictlyInside(c, w)
    ensures IsOnWire(c, w)
  {
    var t :| 0.0 < t < 1.0 && Lerp(w.x1, w.x2, t) == c.x && Lerp(w.y1, w.y2, t) == c.y;
    if w.x1 == w.x2 {
      InteriorBetween(w.y1, w.y2, t);
    } else {
      InteriorBetween(w.x1, w.x2, t);
    }
  }

  lemma InteriorWitness(a: real, b: real, v: real) returns (t: real)
    requires RMin(a, b) < v < RMax(a, b)
    ensures 0.0 < t < 1.0 && Lerp(a, b, t) == v
  {
    var d := b - a;
    t := (v - a) / d;
    var p := t * d;
    assert p == v - a;
    var q := 1.0 - t;
    assert q * d == d - p;
    PositiveFactor(t, d);
    PositiveFactor(q, d);
  }

  /** A product with a positive factor has the sign of the other factor: here, positive or negative together. */
  lemma PositiveFactor(x: real, d: real)
    requires d != 0.0
    ensures d > 0.0 ==> (x * d > 0.0 <==> x > 0.0)
    ensures d < 0.0 ==> (x * d < 0.0 <==> x > 0.0)
  {
    if x <= 0.0 && d > 0.0 {
      assert (-x) * d >= 0.0;
    }
    if x <= 0.0 && d < 0.0 {
      assert (-x) * (-d) >= 0.0;
    }
  }

  lemma InteriorBetween(a: real, b: real, t: real)
    requires 0.0 < t < 1.0 && a != b
    ensures RMin(a, b) < Lerp(a, b, t) < RMax(a, b)
  {
    var d := b - a;
    var p := t * d;
    var q := 1.0 - t;
    assert q * d == d - p;
    PositiveFactor(t, d);
    PositiveFactor(q, d);
    assert Lerp(a, b, t) == a + p;
    if a < b {
      assert 0.0 < p < d;
    } else {
      assert d < p < 0.0;
    }
  }

  function Reversed(w: Wire): Wire { w.(x1 := w.x2, y1 := w.y2, x2 := w.x1, y2 := w.y1) }

  /** The test does not depend on the wire's direction. */
  lemma IsOnWireReversed(c: Component, w: Wire)
    ensures IsOnWire(c, Reversed(w)) == IsOnWire(c, w)
  {
  }

  // ---------------------------------------------------------------- add_edge_wires (circuittikz.py:42-66)

  /** Half the component's length in app units: 0.65 and 0.5 CircuiTikZ units. */
  function Offset(kind: string): (off: real)
    ensures kind == "resistor" ==> off == 48.75
    ensures kind != "resistor" ==> off == 37.5
  {
    if kind == "resistor" then 0.65 * Scale else 0.5 * Scale
  }

  /**
   * The two wires that replace `w` around `c`: a vertical wire is cut at the centre's column
   * from one offset above to one offset below it, any other wire at the centre's row from one
   * offset left to one offset right of it. The outer ends are the wire's own ends.
   */
  function EdgeWires(w: Wire, c: Component): (pieces: seq<Wire>)
    ensures |pieces| == 2 && pieces[0].meta.None? && pieces[1].meta.None?
    ensures pieces[0].x1 == w.x1 && pieces[0].y1 == w.y1 && pieces[1].x2 == w.x2 && pieces[1].y2 == w.y2
    ensures w.x1 == w.x2 ==>
      pieces[0].x2 == c.x && pieces[0].y2 == c.y - Offset(c.kind) &&
      pieces[1].x1 == c.x && pieces[1].y1 == c.y + Offset(c.kind)
    ensures w.x1 != w.x2 ==>
      pieces[0].x2 == c.x - Offset(c.kind) && pieces[0].y2 == c.y &&
      pieces[1].x1 == c.x + Offset(c.kind) && pieces[1].y1 == c.y
  {
    var offset := Offset(c.kind);
    var upper := RMin(c.y - offset, c.y + offset);
    var lower := RMax(c.y - offset, c.y + offset);
    var left := RMin(c.x - offset, c.x + offset);
    var right := RMax(c.x - offset, c.x + offset);
    if w.x1 == w.x2 then
      [Wire(w.x1, w.y1, c.x, upper, None), Wire(c.x, lower, w.x2, w.y2, None)]
    else
      [Wire(w.x1, w.y1, left, c.y, None), Wire(right, c.y, w.x2, w.y2, None)]
  }

  // ---------------------------------------------------------------- the split pass (circuittikz.py:70-74)

  /** The wires of `ws` the component does not split, in order. */
  function Keep(c: Component, ws: seq<Wire>): (k: seq<Wire>)
    ensures |k| <= |ws|
    decreases |ws|
  {
    if ws == [] then []
    else
      var n := |ws| - 1;
      Keep(c, ws[..n]) + (if IsOnWire(c, ws[n]) then [] else [ws[n]])
  }

  /** The replacement wires for the wires of `ws` the component splits, in order. */
  function Pieces(c: Component, ws: seq<Wire>): (p: seq<Wire>)
    ensures |p| == 2 * OnCount(c, ws)
    ensures forall i :: 0 <= i < |p| ==> p[i].meta.None?
    decreases |ws|
  {
    if ws == [] then []
    else
      var n := |ws| - 1;
      Pieces(c, ws[..n]) + (if IsOnWire(c, ws[n]) then EdgeWires(ws[n], c) else [])
  }

  /** How many wires of `ws` the component lies strictly inside. */
  function OnCount(c: Component, ws: seq<Wire>): (n: nat)
    ensures n <= |ws|
    decreases |ws|
  {
    if ws == [] then 0
    else OnCount(c, ws[..|ws| - 1]) + (if IsOnWire(c, ws[|ws| - 1]) then 1 else 0)
  }

  /** One component's pass: the unsplit wires keep their order and the pieces follow them. */
  function SplitOne(ws: seq<Wire>, c: Component): (r: seq<Wire>)
    ensures forall w :: w in r <==> (w in ws && !IsOnWire(c, w)) || w in Pieces(c, ws)
    ensures forall i :: 0 <= i < |r| && r[i].meta.Some? ==> r[i] in ws
  {
    KeepMembers(c, ws);
    Keep(c, ws) + Pieces(c, ws)
  }

  /** The passes for the components in order, each over the wires the previous ones left. */
  function SplitAll(ws: seq<Wire>, cs: seq<Component>): (r: seq<Wire>)
    ensures forall i :: 0 <= i < |r| && r[i].meta.Some? ==> r[i] in ws
    decreases |cs|
  {
    if cs == [] then ws else SplitOne(SplitAll(ws, cs[..|cs| - 1]), cs[|cs| - 1])
  }

  /** list.remove: drop the first element equal to `x`. */
  function RemoveFirst(s: seq<Wire>, x: Wire): (r: seq<Wire>)
    requires x in s
    ensures |r| == |s| - 1
  {
    if s[0] == x then s[1..] else [s[0]] + RemoveFirst(s[1..], x)
  }

  lemma {:induction false} RemoveFirstAt(a: seq<Wire>, x: Wire, b: seq<Wire>)
    requires x !in a
    ensures RemoveFirst(a + [x] + b, x) == a + b
    decreases |a|
  {
    if a != [] {
      assert (a + [x] + b)[1..] == a[1..] + [x] + b;
      RemoveFirstAt(a[1..], x, b);
      assert [a[0]] + (a[1..] + b) == a + b;
    }
  }

  /** Keep holds exactly the wires of `ws` the component is not on. */
  lemma {:induction false} KeepMembers(c: Component, ws: seq<Wire>)
    ensures forall w :: w in Keep(c, ws) <==> w in ws && !IsOnWire(c, w)
    decreases |ws|
  {
    if ws != [] {
      var n := |ws| - 1;
      KeepMembers(c, ws[..n]);
      assert ws == ws[..n] + [ws[n]];
    }
  }

  /** One step of the pass over the copy: the wire at `j` is dropped where it stands and its pieces appended. */
  lemma SplitStep(c: Component, snap: seq<Wire>, j: nat)
    requires j < |snap|
    ensures snap[j] in Keep(c, snap[..j]) + snap[j..] + Pieces(c, snap[..j])
    ensures var before := Keep(c, snap[..j]) + snap[j..] + Pieces(c, snap[..j]);
      var after := Keep(c, snap[..j + 1]) + snap[j + 1..] + Pieces(c, snap[..j + 1]);
      if IsOnWire(c, snap[j]) then RemoveFirst(before, snap[j]) + EdgeWires(snap[j], c) == after
      else before == after
  {
    var w := snap[j];
    var k := Keep(c, snap[..j]);
    var p := Pieces(c, snap[..j]);
    var t := snap[j + 1..];
    var before := k + snap[j..] + p;
    assert before == k + [w] + (t + p) by {
      assert snap[j..] == [w] + t;
    }
    SnocStep(c, snap, j);
    if IsOnWire(c, w) {
      KeepMembers(c, snap[..j]);
      RemoveFirstAt(k, w, t + p);
      Regroup(k, t, p, EdgeWires(w, c));
    } else {
      Regroup(k + [w], t, p, []);
    }
  }

  lemma SnocStep(c: Component, snap: seq<Wire>, j: nat)
    requires j < |snap|
    ensures Keep(c, snap[..j + 1]) == Keep(c, snap[..j]) + (if IsOnWire(c, snap[j]) then [] else [snap[j]])
    ensures Pieces(c, snap[..j + 1]) == Pieces(c, snap[..j]) + (if IsOnWire(c, snap[j]) then EdgeWires(snap[j], c) else [])
  {
    assert snap[..j + 1][..j] == snap[..j];
  }

  lemma Regroup(a: seq<Wire>, b: seq<Wire>, p: seq<Wire>, e: seq<Wire>)
    ensures a + (b + p) + e == a + b + (p + e)
  {
  }

  /** Each split replaces one wire by two: a pass adds one wire per wire it splits. */
  lemma {:induction false} SplitOneCount(ws: seq<Wire>, c: Component)
    ensures |Keep(c, ws)| == |ws| - OnCount(c, ws)
    ensures |Pieces(c, ws)| == 2 * OnCount(c, ws)
    ensures |SplitOne(ws, c)| == |ws| + OnCount(c, ws)
    decreases |ws|
  {
    if ws != [] {
      SplitOneCount(ws[..|ws| - 1], c);
    }
  }

  /** A wire that is oriented (left to right, top to bottom) and split leaves pieces the component does not split again. */
  lemma PiecesNotOnAgain(w: Wire, c: Component)
    requires IsOnWire(c, w) && w.x1 <= w.x2 && w.y1 <= w.y2
    ensures !IsOnWire(c, EdgeWires(w, c)[0]) && !IsOnWire(c, EdgeWires(w, c)[1])
  {
  }

  predicate Oriented(w: Wire) { w.x1 <= w.x2 && w.y1 <= w.y2 }

  lemma {:induction false} PiecesOfOrientedNotOn(c: Component, ws: seq<Wire>)
    requires forall i :: 0 <= i < |ws| ==> Oriented(ws[i])
    ensures forall i :: 0 <= i < |Pieces(c, ws)| ==> !IsOnWire(c, Pieces(c, ws)[i])
    decreases |ws|
  {
    if ws != [] {
      var n := |ws| - 1;
      PiecesOfOrientedNotOn(c, ws[..n]);
      if IsOnWire(c, ws[n]) {
        PiecesNotOnAgain(ws[n], c);
      }
    }
  }

  lemma {:induction false} KeepOfNoneOn(c: Component, ws: seq<Wire>)
    requires forall i :: 0 <= i < |ws| ==> !IsOnWire(c, ws[i])
    ensures Keep(c, ws) == ws && Pieces(c, ws) == []
    decreases |ws|
  {
    if ws != [] {
      var n := |ws| - 1;
      KeepOfNoneOn(c, ws[..n]);
      assert ws[..n] + [ws[n]] == ws;
    }
  }

  lemma {:induction false} KeepAppend(c: Component, a: seq<Wire>, b: seq<Wire>)
    ensures Keep(c, a + b) == Keep(c, a) + Keep(c, b)
    ensures Pieces(c, a + b) == Pieces(c, a) + Pieces(c, b)
    decreases |b|
  {
    if b != [] {
      var n := |b| - 1;
      assert (a + b)[..|a + b| - 1] == a + b[..n];
      assert (a + b)[|a + b| - 1] == b[n];
      KeepAppend(c, a, b[..n]);
      assert Keep(c, a + b) == Keep(c, a + b[..n]) + (if IsOnWire(c, b[n]) then [] else [b[n]]);
      assert Pieces(c, a + b) == Pieces(c, a + b[..n]) + (if IsOnWire(c, b[n]) then EdgeWires(b[n], c) else []);
      assert Keep(c, b) == Keep(c, b[..n]) + (if IsOnWire(c, b[n]) then [] else [b[n]]);
      assert Pieces(c, b) == Pieces(c, b[..n]) + (if IsOnWire(c, b[n]) then EdgeWires(b[n], c) else []);
    } else {
      assert a + b == a;
    }
  }

  lemma {:induction false} KeepIdempotent(c: Component, ws: seq<Wire>)
    ensures Keep(c, Keep(c, ws)) == Keep(c, ws)
    ensures Pieces(c, Keep(c, ws)) == []
  {
    var k := Keep(c, ws);
    KeepMembers(c, ws);
    assert forall i :: 0 <= i < |k| ==> k[i] in k;
    KeepOfNoneOn(c, k);
  }

  /** When every wire is oriented, a second pass for the same component changes nothing. */
  lemma SplitOneIdempotentWhenOriented(ws: seq<Wire>, c: Component)
    requires forall i :: 0 <= i < |ws| ==> Oriented(ws[i])
    ensures SplitOne(SplitOne(ws, c), c) == SplitOne(ws, c)
  {
    var k := Keep(c, ws);
    var p := Pieces(c, ws);
    PiecesOfOrientedNotOn(c, ws);
    KeepOfNoneOn(c, p);
    KeepIdempotent(c, ws);
    KeepAppend(c, k, p);
  }

  /** A wire drawn right to left is split into two overlapping pieces, and the first still holds the component. */
  lemma ReversedWireExample(w: Wire, c: Component)
    requires w == Wire(100.0, 0.0, 0.0, 0.0, None) && c.kind == "resistor" && c.x == 50.0 && c.y == 0.0
    ensures IsOnWire(c, w)
    ensures EdgeWires(w, c) == [Wire(100.0, 0.0, 1.25, 0.0, None), Wire(98.75, 0.0, 0.0, 0.0, None)]
    ensures IsOnWire(c, EdgeWires(w, c)[0])
  {
  }

  /** The module-level wire list of the exporter, which the split pass changes in place. */
  class WireList {
    var wires: seq<Wire>

    constructor(ws: seq<Wire>)
      ensures wires == ws
    {
      wires := ws;
    }

    /** add_edge_wires: append the two pieces. */
    method AddEdgeWires(w: Wire, c: Component)
      modifies this
      ensures wires == old(wires) + EdgeWires(w, c)
    {
      var offset := Offset(c.kind);
      var upper := RMin(c.y - offset, c.y + offset);
      var lower := RMax(c.y - offset, c.y + offset);
      var left := RMin(c.x - offset, c.x + offset);
      var right := RMax(c.x - offset, c.x + offset);
      if w.x1 == w.x2 {
        wires := wires + [Wire(w.x1, w.y1, c.x, upper, None)];
        wires := wires + [Wire(c.x, lower, w.x2, w.y2, None)];
      } else {
        wires := wires + [Wire(w.x1, w.y1, left, c.y, None)];
        wires := wires + [Wire(right, c.y, w.x2, w.y2, None)];
      }
    }

    /** One component's pass over a copy of the list: each wire it lies on is removed and replaced. */
    method SplitFor(c: Component)
      modifies this
      ensures wires == SplitOne(old(wires), c)
    {
      var snapshot := wires;
      for j := 0 to |snapshot|
        invariant wires == Keep(c, snapshot[..j]) + snapshot[j..] + Pieces(c, snapshot[..j])
      {
        var w := snapshot[j];
        SplitStep(c, snapshot, j);
        if IsOnWire(c, w) {
          wires := RemoveFirst(wires, w);
          AddEdgeWires(w, c);
        }
      }
      assert snapshot[..|snapshot|] == snapshot;
      assert wires == Keep(c, snapshot) + Pieces(c, snapshot);
    }

    /** The whole split pass, component by component. */
    method SplitWires(components: seq<Component>)
      modifies this
      ensures wires == SplitAll(old(wires), components)
    {
      for i := 0 to |components|
        invariant wires == SplitAll(old(wires), components[..i])
      {
        assert components[..i + 1][..i] == components[..i];
        SplitFor(components[i]);
      }
      assert components[..|components|] == components;
    }
  }

  // ---------------------------------------------------------------- drawing (circuittikz.py:84-144)

  /** A point in CircuiTikZ coordinates. */
  datatype TPoint = TPoint(x: real, y: real)

  /** An app point in CircuiTikZ coordinates: scaled down, with y pointing up. */
  function ToTikz(x: real, y: real): TPoint { TPoint(x / Scale, -y / Scale) }

  datatype WireDraw = WireDraw(from: TPoint, to: TPoint)

  /** The `\draw` of one wire (circuittikz.py:84-89). */
  function DrawWire(w: Wire): WireDraw
  {
    WireDraw(ToTikz(w.x1, w.y1), ToTikz(w.x2, w.y2))
  }

  /** Scaling back up gives the wire's own ends. */
  lemma DrawWireRoundTrip(w: Wire)
    ensures var d := DrawWire(w);
      d.from.x * Scale == w.x1 && -d.from.y * Scale == w.y1 && d.to.x * Scale == w.x2 && -d.to.y * Scale == w.y2
  {
  }

  /** The loop drawing every wire. */
  method DrawWires(wires: seq<Wire>) returns (lines: seq<WireDraw>)
    ensures |lines| == |wires|
    ensures forall i :: 0 <= i < |wires| ==> lines[i] == DrawWire(wires[i])
  {
    lines := [];
    for i := 0 to |wires|
      invariant |lines| == i
      invariant forall k :: 0 <= k < i ==> lines[k] == DrawWire(wires[k])
    {
      var x1 := wires[i].x1 / Scale;
      var y1 := wires[i].y1 / Scale;
      var x2 := wires[i].x2 / Scale;
      var y2 := wires[i].y2 / Scale;
      lines := lines + [WireDraw(TPoint(x1, -y1), TPoint(x2, -y2))];
    }
  }

  /**
   * The two terminals of a component (circuittikz.py:91-108): at rotation 0 or 180 (modulo
   * 180) a resistor lies along x with half-length 0.65 and any other type along y with
   * half-length 0.5; at 90 or 270 the axes swap; at any other rotation both are the centre.
   */
  function Terminals(c: Component): (t: (TPoint, TPoint))
  {
    var centre := ToTikz(c.x, c.y);
    var cx, cy := centre.x, centre.y;
    var quarter := c.rotation % 180;
    if quarter == 0 then
      if c.kind == "resistor" then (TPoint(cx - 0.65, cy), TPoint(cx + 0.65, cy))
      else (TPoint(cx, cy - 0.5), TPoint(cx, cy + 0.5))
    else if quarter == 90 then
      if c.kind == "resistor" then (TPoint(cx, cy - 0.65), TPoint(cx, cy + 0.65))
      else (TPoint(cx - 0.5, cy), TPoint(cx + 0.5, cy))
    else (centre, centre)
  }

  /** The terminals are symmetric about the centre, 1.3 apart for a resistor and 1 apart otherwise, unless the rotation is oblique. */
  lemma TerminalsGeometry(c: Component)
    ensures var (a, b) := Terminals(c);
      (a.x + b.x) / 2.0 == c.x / Scale && (a.y + b.y) / 2.0 == -c.y / Scale
    ensures var (a, b) := Terminals(c);
      c.rotation % 180 == 0 ==>
        if c.kind == "resistor" then b.x - a.x == 1.3 && a.y == b.y else b.y - a.y == 1.0 && a.x == b.x
    ensures var (a, b) := Terminals(c);
      c.rotation % 180 == 90 ==>
        if c.kind == "resistor" then b.y - a.y == 1.3 && a.x == b.x else b.x - a.x == 1.0 && a.y == b.y
    ensures c.rotation % 90 != 0 ==> Terminals(c).0 == Terminals(c).1
  {
  }

  /** A half turn leaves the terminals where they were. */
  lemma TerminalsHalfTurn(c: Component)
    ensures Terminals(c.(rotation := c.rotation + 180)) == Terminals(c)
  {
    assert (c.rotation + 180) % 180 == c.rotation % 180;
  }

  /**
   * The pieces a split leaves end at the drawn terminals: when the component lies along the
   * wire (a resistor at rotation 0 on a horizontal wire, a source at rotation 0 on a vertical
   * wire, and the other way round at rotation 90), the inner ends of the two pieces are the
   * component's two terminals.
   */
  lemma PiecesMeetTerminals(w: Wire, c: Component)
    requires IsOnWire(c, w)
    requires var q := c.rotation % 180;
      (q == 0 || q == 90) && ((w.x1 == w.x2) == ((c.kind == "resistor") == (q == 90)))
    ensures var p := EdgeWires(w, c);
      var (a, b) := Terminals(c);
      var e0 := ToTikz(p[0].x2, p[0].y2);
      var e1 := ToTikz(p[1].x1, p[1].y1);
      (e0 == a && e1 == b) || (e0 == b && e1 == a)
  {
  }

  /**
   * A component across its wire: a voltage source turned a quarter on a vertical wire is drawn
   * horizontally, but the split still cuts the wire along its column, so neither piece ends at
   * a terminal.
   */
  lemma CrossedSourceExample()
    ensures var c := Component("voltage", 200.0, 200.0, 90, Label("", "above"));
      var w := Wire(200.0, 0.0, 200.0, 400.0, None);
      var (a, b) := Terminals(c);
      IsOnWire(c, w) &&
      EdgeWires(w, c) == [Wire(200.0, 0.0, 200.0, 162.5, None), Wire(200.0, 237.5, 200.0, 400.0, None)] &&
      a == TPoint(200.0 / Scale - 0.5, -200.0 / Scale) && b == TPoint(200.0 / Scale + 0.5, -200.0 / Scale) &&
      ToTikz(200.0, 162.5) != a && ToTikz(200.0, 162.5) != b &&
      ToTikz(200.0, 237.5) != a && ToTikz(200.0, 237.5) != b
  {
  }

  // ---------------------------------------------------------------- options (circuittikz.py:110-139)

  /** The CircuiTikZ element of a type. */
  function Element(kind: string): string
  {
    if kind == "voltage" then "vsource"
    else if kind == "current" then "isource"
    else if kind == "resistor" then "resistor, european"
    else "generic"
  }

  /** The unit a labelled component's value carries, for the types that have one. */
  function Unit(kind: string): Option<string>
  {
    if kind == "voltage" then Some("<\\volt>")
    else if kind == "current" then Some("<\\ampere>")
    else if kind == "resistor" then Some("<\\ohm>")
    else None
  }

  /** A source drawn at 180 or 270 degrees has its polarity inverted. */
  predicate Inverted(c: Component)
  {
    (c.kind == "voltage" || c.kind == "current") && (c.rotation == 180 || c.rotation == 270)
  }

  /** Label placement: above and left put it on one side, anything else on the other. */
  function LabelSide(pos: string): string
  {
    if pos == "above" || pos == "left" then ", l^=" else ", l_="
  }

  /**
   * The option string of a component: its element, inverted when it is a flipped source, then
   * for a non-empty label the side, the text and the unit; a labelled component of a type
   * without a unit is plain `generic`.
   */
  function TikzOptions(c: Component): (o: string)
    ensures o == "generic" || (|Element(c.kind)| <= |o| && o[..|Element(c.kind)|] == Element(c.kind))
  {
    var labelled := c.lbl.text != "";
    if labelled && Unit(c.kind).None? then "generic"
    else
      Element(c.kind) + (if Inverted(c) then ", invert" else "") +
      (if labelled then LabelSide(c.lbl.pos) + c.lbl.text + Unit(c.kind).value else "")
  }

  /** The string built step by step with `+=`, as the exporter does. */
  method ComponentOptions(c: Component) returns (comp: string)
    ensures comp == TikzOptions(c)
  {
    comp := ElementOptions(c);
    var lbl := c.lbl;
    if lbl.text != "" {
      comp := AppendSide(comp, lbl.pos);
      comp := comp + lbl.text;
      comp := AppendUnit(comp, c.kind);
    }
  }

  /** The label side appended to the options: `l^` above or left, `l_` otherwise. */
  method AppendSide(comp: string, pos: string) returns (r: string)
    ensures r == comp + LabelSide(pos)
  {
    if pos == "above" || pos == "left" {
      r := comp + ", l^=";
    } else {
      r := comp + ", l_=";
    }
  }

  /** The unit appended after the label text; a type without a unit resets the options to `generic`. */
  method AppendUnit(comp: string, kind: string) returns (r: string)
    ensures r == if Unit(kind).Some? then comp + Unit(kind).value else "generic"
  {
    if kind == "voltage" {
      r := comp + "<\\volt>";
    } else if kind == "current" {
      r := comp + "<\\ampere>";
    } else if kind == "resistor" {
      r := comp + "<\\ohm>";
    } else {
      r := "generic";
    }
  }

  /** The element part of the options, with the inversion of a flipped source. */
  method ElementOptions(c: Component) returns (comp: string)
    ensures comp == Element(c.kind) + (if Inverted(c) then ", invert" else "")
  {
    if c.kind == "voltage" {
      comp := "vsource";
      if c.rotation == 180 || c.rotation == 270 {
        comp := comp + ", invert";
      }
    } else if c.kind == "current" {
      comp := "isource";
      if c.rotation == 180 || c.rotation == 270 {
        comp := comp + ", invert";
      }
    } else if c.kind == "resistor" {
      comp := "resistor, european";
    } else {
      comp := "generic";
    }
  }

  /** A type the exporter does not know is always drawn as `generic`, labelled or not. */
  lemma UnknownTypeIsGeneric(c: Component)
    requires c.kind !in {"voltage", "current", "resistor"}
    ensures TikzOptions(c) == "generic"
  {
  }

  /** A known type's options start with its element and `, invert` exactly when it is a flipped source. */
  lemma KnownTypeInvert(c: Component)
    requires c.kind in {"voltage", "current", "resistor"}
    ensures var e := Element(c.kind) + ", invert";
      var o := TikzOptions(c);
      (|o| >= |e| && o[..|e|] == e) <==> Inverted(c)
  {
    var o := TikzOptions(c);
    var e := Element(c.kind) + ", invert";
    var base := Element(c.kind) + (if Inverted(c) then ", invert" else "");
    var rest := if c.lbl.text != "" then LabelSide(c.lbl.pos) + c.lbl.text + Unit(c.kind).value else "";
    assert o == base + rest;
    if Inverted(c) {
      assert o[..|e|] == e;
    } else if |o| >= |e| {
      NotInvertPrefix(c, o, rest);
    }
  }

  /** A labelled component of a known type has options ending with the label text and the unit. */
  lemma KnownTypeLabel(c: Component)
    requires c.kind in {"voltage", "current", "resistor"} && c.lbl.text != ""
    ensures var tail := c.lbl.text + Unit(c.kind).value;
      var o := TikzOptions(c);
      |o| >= |tail| && o[|o| - |tail|..] == tail
  {
    var tail := c.lbl.text + Unit(c.kind).value;
    var base := Element(c.kind) + (if Inverted(c) then ", invert" else "");
    assert TikzOptions(c) == (base + LabelSide(c.lbl.pos)) + tail;
    EndsWith(base + LabelSide(c.lbl.pos), tail);
  }

  /** An unlabelled component of a known type has the bare element (inverted for a flipped source). */
  lemma UnlabelledOptions(c: Component)
    requires c.kind in {"voltage", "current", "resistor"} && c.lbl.text == ""
    ensures TikzOptions(c) == Element(c.kind) + (if Inverted(c) then ", invert" else "")
  {
  }

  lemma EndsWith(a: string, t: string)
    ensures |a + t| >= |t| && (a + t)[|a + t| - |t|..] == t
  {
  }

  /** Without inversion the character after the element opens the label (or there is none), never `, invert`. */
  lemma NotInvertPrefix(c: Component, o: string, rest: string)
    requires c.kind in {"voltage", "current", "resistor"} && !Inverted(c)
    requires rest == (if c.lbl.text != "" then LabelSide(c.lbl.pos) + c.lbl.text + Unit(c.kind).value else "")
    requires o == Element(c.kind) + rest
    ensures !(|o| >= |Element(c.kind) + ", invert"| && o[..|Element(c.kind) + ", invert"|] == Element(c.kind) + ", invert")
  {
    var n := |Element(c.kind)|;
    if |o| >= n + 8 && rest != "" {
      assert o[n + 2] == rest[2];
      assert rest[2] == 'l';
      assert (Element(c.kind) + ", invert")[n + 2] == 'i';
    }
  }

  /** A resistor's options do not depend on its rotation. */
  lemma ResistorIgnoresRotation(c: Component, r: int)
    requires c.kind == "resistor"
    ensures TikzOptions(c.(rotation := r)) == TikzOptions(c)
  {
  }

  datatype ComponentDraw = ComponentDraw(from: TPoint, options: string, to: TPoint)

  /** The loop drawing every component between its terminals. */
  method DrawComponents(components: seq<Component>) returns (lines: seq<ComponentDraw>)
    ensures |lines| == |components|
    ensures forall i :: 0 <= i < |components| ==>
      lines[i] == ComponentDraw(Terminals(components[i]).0, TikzOptions(components[i]), Terminals(components[i]).1)
  {
    lines := [];
    for i := 0 to |components|
      invariant |lines| == i
      invariant forall k :: 0 <= k < i ==>
        lines[k] == ComponentDraw(Terminals(components[k]).0, TikzOptions(components[k]), Terminals(components[k]).1)
    {
      var c := components[i];
      var comp := ComponentOptions(c);
      var ends := Terminals(c);
      lines := lines + [ComponentDraw(ends.0, comp, ends.1)];
    }
  }

  /** The exporter after loading: split the wires, then draw the wires and the components. */
  method Export(components: seq<Component>, wires: seq<Wire>) returns (wireLines: seq<WireDraw>, componentLines: seq<ComponentDraw>)
    ensures |wireLines| == |SplitAll(wires, components)|
    ensures forall i :: 0 <= i < |wireLines| ==> wireLines[i] == DrawWire(SplitAll(wires, components)[i])
    ensures |componentLines| == |components|
    ensures forall i :: 0 <= i < |components| ==>
      componentLines[i] == ComponentDraw(Terminals(components[i]).0, TikzOptions(components[i]), Terminals(components[i]).1)
  {
    var list := new WireList(wires);
    list.SplitWires(components);
    wireLines := DrawWires(list.wires);
    componentLines := DrawComponents(components);
  }
}
