/** The merge on two small stores: touching wires on one row, and wires on two different rows. */
module MergeExamples {
  import opened Wrappers
  import opened WireModel
  import opened Spans
  import opened Merge

  lemma TouchingClasses(rs: seq<Run>)
    requires rs == [Run(0, 0, 40, 0), Run(40, 0, 80, 0)]
    ensures OfClass(rs, true) == rs && OfClass(rs, false) == []
  {
    OfClassAll(rs, true);
    OfClassNone(rs, false);
  }

  lemma TouchingKeys(rs: seq<Run>)
    requires rs == [Run(0, 0, 40, 0), Run(40, 0, 80, 0)]
    ensures LineKeys(rs, true) == [0]
  {
    assert rs[..1] == [Run(0, 0, 40, 0)];
    assert LineKeys([Run(0, 0, 40, 0)], true) == [0];
  }

  lemma TouchingSpanList(rs: seq<Run>)
    requires rs == [Run(0, 0, 40, 0), Run(40, 0, 80, 0)]
    ensures SpansOf(OnLine(rs, true, 0), true) == [Span(0, 40), Span(40, 80)]
  {
    OnLineAll(rs, true, 0);
  }

  lemma TouchingSorted(sp: seq<Span>)
    requires sp == [Span(0, 40), Span(40, 80)]
    ensures SortByLo(sp) == sp
  {
    SortOfSorted(sp);
  }

  lemma TouchingSpans(rs: seq<Run>)
    requires rs == [Run(0, 0, 40, 0), Run(40, 0, 80, 0)]
    ensures MergeLine(rs, true, 0) == [Run(0, 0, 80, 0)]
  {
    var sp := SpansOf(OnLine(rs, true, 0), true);
    TouchingSpanList(rs);
    TouchingSorted(sp);
    SweepExamples();
    var c := LineSpans(rs, true, 0);
    assert c == [Span(0, 80)];
    assert ToRuns(0, true, c)[0] == Run(0, 0, 80, 0);
  }

  lemma TouchingLine(rs: seq<Run>)
    requires rs == [Run(0, 0, 40, 0), Run(40, 0, 80, 0)]
    ensures MergeLines(rs, true, [0]) == [Run(0, 0, 80, 0)]
  {
    TouchingSpans(rs);
    assert MergeLines(rs, true, [0]) == MergeLines(rs, true, []) + MergeLine(rs, true, 0);
  }

  lemma TouchingGeometry(rs: seq<Run>)
    requires rs == [Run(0, 0, 40, 0), Run(40, 0, 80, 0)]
    ensures Geometry(rs) == [Run(0, 0, 80, 0)]
  {
    TouchingClasses(rs);
    TouchingKeys(rs);
    TouchingLine(rs);
    assert LineKeys([], false) == [];
    assert MergeLines([], false, []) == [];
  }

  lemma TouchingStyle(store: seq<Segment>, g: seq<Run>)
    requires store == [Segment(0, 0, 0, 40, 0, None, None), Segment(1, 40, 0, 80, 0, None, None)]
    requires g == [Run(0, 0, 80, 0)]
    ensures Restyle(g, store, "#000", 2) == [Segment(0, 0, 0, 80, 0, Some("#000"), Some(2))]
  {
    assert FirstMatch(store, g[0]) == None;
  }

  /** Two touching horizontal wires merge into one, styled with the defaults. */
  lemma TouchingMergeExample(store: seq<Segment>)
    requires store == [Segment(0, 0, 0, 40, 0, None, None), Segment(1, 40, 0, 80, 0, None, None)]
    ensures Normalize(store, "#000", 2) == [Segment(0, 0, 0, 80, 0, Some("#000"), Some(2))]
  {
    var rs := Runs(store);
    assert rs == [Run(0, 0, 40, 0), Run(40, 0, 80, 0)];
    TouchingGeometry(rs);
    TouchingStyle(store, Geometry(rs));
  }

  lemma ApartClasses(rs: seq<Run>)
    requires rs == [Run(0, 0, 40, 0), Run(0, 40, 40, 40)]
    ensures OfClass(rs, true) == rs && OfClass(rs, false) == []
  {
    OfClassAll(rs, true);
    OfClassNone(rs, false);
  }

  lemma ApartKeys(rs: seq<Run>)
    requires rs == [Run(0, 0, 40, 0), Run(0, 40, 40, 40)]
    ensures LineKeys(rs, true) == [0, 40]
  {
    assert rs[..1] == [Run(0, 0, 40, 0)];
    assert LineKeys([Run(0, 0, 40, 0)], true) == [0];
    assert [0][1..] == [];
    assert InsertKey(40, [0]) == [0, 40];
  }

  lemma ApartLine(rs: seq<Run>, k: int)
    requires rs == [Run(0, 0, 40, 0), Run(0, 40, 40, 40)] && (k == 0 || k == 40)
    ensures MergeLine(rs, true, k) == [Run(0, k, 40, k)]
  {
    assert rs[..1] == [Run(0, 0, 40, 0)];
    assert OnLine(rs, true, k) == [Run(0, k, 40, k)];
  }

  lemma ApartLines(rs: seq<Run>)
    requires rs == [Run(0, 0, 40, 0), Run(0, 40, 40, 40)]
    ensures MergeLines(rs, true, [0, 40]) == rs
  {
    ApartLine(rs, 0);
    ApartLine(rs, 40);
    assert [0, 40][..1] == [0];
    assert MergeLines(rs, true, [0]) == MergeLines(rs, true, []) + MergeLine(rs, true, 0);
    assert MergeLines(rs, true, [0, 40]) == MergeLines(rs, true, [0]) + MergeLine(rs, true, 40);
  }

  lemma ApartGeometry(rs: seq<Run>)
    requires rs == [Run(0, 0, 40, 0), Run(0, 40, 40, 40)]
    ensures Geometry(rs) == rs
  {
    ApartClasses(rs);
    ApartKeys(rs);
    ApartLines(rs);
    assert LineKeys([], false) == [];
    assert MergeLines([], false, []) == [];
  }

  lemma ApartStyle(store: seq<Segment>, g: seq<Run>)
    requires store == [Segment(0, 0, 0, 40, 0, None, None), Segment(1, 0, 40, 40, 40, None, None)]
    requires g == [Run(0, 0, 40, 0), Run(0, 40, 40, 40)]
    ensures Restyle(g, store, "#000", 2)
         == [Segment(0, 0, 0, 40, 0, Some("#000"), Some(2)), Segment(1, 0, 40, 40, 40, Some("#000"), Some(2))]
  {
    assert FirstMatch(store, g[0]) == Some(0);
    assert FirstMatch(store, g[1]) == Some(1);
  }

  /** Two horizontal wires on different grid lines stay two wires. */
  lemma DifferentLinesExample(store: seq<Segment>)
    requires store == [Segment(0, 0, 0, 40, 0, None, None), Segment(1, 0, 40, 40, 40, None, None)]
    ensures Normalize(store, "#000", 2)
         == [Segment(0, 0, 0, 40, 0, Some("#000"), Some(2)), Segment(1, 0, 40, 40, 40, Some("#000"), Some(2))]
  {
    var rs := Runs(store);
    assert rs == [Run(0, 0, 40, 0), Run(0, 40, 40, 40)];
    ApartGeometry(rs);
    ApartStyle(store, Geometry(rs));
  }
}
