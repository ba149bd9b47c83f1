/**
 * mergeCollinearWires (app.js:459-551) as a specification: the store is partitioned into
 * horizontal and vertical runs, each class is grouped by grid line, each line is sorted and
 * swept, and the merged runs are restyled from the store and renumbered wire-0 .. wire-(n-1).
 */
module Merge {
  import opened Wrappers
  import opened WireModel
  import opened Spans

  // ---------------------------------------------------------------- partition and grouping

  /** The runs of class `h` among `rs`, in their order (the partition loop, app.js:464-467). */
  function OfClass(rs: seq<Run>, h: bool): (r: seq<Run>)
    ensures |r| <= |rs|
    decreases |rs|
  {
    if rs == [] then []
    else OfClass(rs[..|rs| - 1], h) + (if InClass(rs[|rs| - 1], h) then [rs[|rs| - 1]] else [])
  }

  /** OfClass keeps exactly the runs of the class. */
  lemma {:induction false} OfClassMembers(rs: seq<Run>, h: bool)
    ensures forall x :: x in OfClass(rs, h) <==> x in rs && InClass(x, h)
    ensures AllInClass(OfClass(rs, h), h)
    decreases |rs|
  {
    if rs != [] {
      var n := |rs| - 1;
      OfClassMembers(rs[..n], h);
      assert rs == rs[..n] + [rs[n]];
    }
  }

  /** The runs of `arr` on grid line `k`, in their order: one group of groupBy (app.js:469-480). */
  function OnLine(arr: seq<Run>, h: bool, k: int): (r: seq<Run>)
    ensures forall x :: x in r <==> x in arr && Key(x, h) == k
    ensures |r| <= |arr|
    decreases |arr|
  {
    if arr == [] then []
    else OnLine(arr[..|arr| - 1], h, k) + (if Key(arr[|arr| - 1], h) == k then [arr[|arr| - 1]] else [])
  }

  /** The runs of `arr` on any of the lines in `ks`. */
  function OnLines(arr: seq<Run>, h: bool, ks: seq<int>): (r: seq<Run>)
    ensures |r| <= |arr|
    decreases |arr|
  {
    if arr == [] then []
    else OnLines(arr[..|arr| - 1], h, ks) + (if Key(arr[|arr| - 1], h) in ks then [arr[|arr| - 1]] else [])
  }

  function SpansOf(rs: seq<Run>, h: bool): (s: seq<Span>)
    ensures |s| == |rs|
    ensures forall i :: 0 <= i < |rs| ==> s[i] == SpanOf(rs[i], h)
  {
    seq(|rs|, i requires 0 <= i < |rs| => SpanOf(rs[i], h))
  }

  predicate StrictlyAscending(ks: seq<int>)
  {
    forall i, j :: 0 <= i < j < |ks| ==> ks[i] < ks[j]
  }

  /** Adds grid line `k` to the ascending list of lines `ks`, unless it is there already. */
  function InsertKey(k: int, ks: seq<int>): (r: seq<int>)
    requires StrictlyAscending(ks)
    ensures StrictlyAscending(r)
    ensures forall j :: j in r <==> j in ks || j == k
    decreases |ks|
  {
    if ks == [] then [k]
    else if k < ks[0] then
      AscendingCons(k, ks);
      [k] + ks
    else if k == ks[0] then ks
    else
      assert ks == [ks[0]] + ks[1..];
      AscendingTail(ks);
      var tail := InsertKey(k, ks[1..]);
      AscendingCons(ks[0], tail);
      [ks[0]] + tail
  }

  lemma AscendingTail(s: seq<int>)
    requires StrictlyAscending(s) && s != []
    ensures StrictlyAscending(s[1..])
    ensures forall j :: j in s[1..] ==> s[0] < j
  {
    forall j | j in s[1..] ensures s[0] < j {
      var i :| 0 <= i < |s[1..]| && s[1..][i] == j;
      assert s[i + 1] == j;
    }
  }

  lemma AscendingCons(x: int, s: seq<int>)
    requires StrictlyAscending(s) && forall j :: j in s ==> x < j
    ensures StrictlyAscending([x] + s)
  {
    var r := [x] + s;
    forall i, j | 0 <= i < j < |r| ensures r[i] < r[j] {
      assert r[j] == s[j - 1];
      assert s[j - 1] in s;
      if i > 0 {
        assert r[i] == s[i - 1];
      }
    }
  }

  /**
   * The grid lines holding a run of `arr`, in ascending order: the keys of the grouped object
   * in the order Object.values visits them. Keys that are array indices (the non-negative
   * integer coordinates the editor produces) are visited in ascending order.
   */
  function LineKeys(arr: seq<Run>, h: bool): (r: seq<int>)
    ensures StrictlyAscending(r)
    ensures forall k :: k in r <==> exists x :: x in arr && Key(x, h) == k
    decreases |arr|
  {
    if arr == [] then []
    else
      var last := arr[|arr| - 1];
      assert forall x :: x in arr <==> x in arr[..|arr| - 1] || x == last by {
        assert arr == arr[..|arr| - 1] + [last];
      }
      InsertKey(Key(last, h), LineKeys(arr[..|arr| - 1], h))
  }

  /** Two strictly ascending sequences with the same elements are equal. */
  lemma {:induction false} AscendingSameElements(a: seq<int>, b: seq<int>)
    requires StrictlyAscending(a) && StrictlyAscending(b)
    requires forall k :: k in a <==> k in b
    ensures a == b
    decreases |a|
  {
    if a != [] {
      assert a[0] in b && b != [];
      assert b[0] in a;
      assert a[0] == b[0] by {
        var i :| 0 <= i < |b| && b[i] == a[0];
        var j :| 0 <= j < |a| && a[j] == b[0];
      }
      forall k ensures k in a[1..] <==> k in b[1..] {
        if k in a[1..] {
          var i :| 1 <= i < |a| && a[i] == k;
          assert k in b && k != b[0];
          var j :| 0 <= j < |b| && b[j] == k;
          assert j != 0;
          assert b[1..][j - 1] == k;
        }
        if k in b[1..] {
          var i :| 1 <= i < |b| && b[i] == k;
          assert k in a && k != a[0];
          var j :| 0 <= j < |a| && a[j] == k;
          assert j != 0;
          assert a[1..][j - 1] == k;
        }
      }
      AscendingSameElements(a[1..], b[1..]);
      assert a == [a[0]] + a[1..] && b == [b[0]] + b[1..];
    } else if b != [] {
      HeadIsElement(b);
      assert false;
    }
  }

  lemma HeadIsElement(s: seq<int>)
    requires s != []
    ensures s[0] in s
  {
  }

  // ---------------------------------------------------------------- merging the lines

  /** The merged intervals of grid line `k`: the line's intervals, sorted by start and swept. */
  function LineSpans(arr: seq<Run>, h: bool, k: int): seq<Span>
  {
    MergeSorted(SortByLo(SpansOf(OnLine(arr, h, k), h)))
  }

  /** The merged runs of grid line `k`, emitted on that line (app.js:484-517). */
  function MergeLine(arr: seq<Run>, h: bool, k: int): seq<Run>
  {
    ToRuns(k, h, LineSpans(arr, h, k))
  }

  /** The merged runs of the lines `keys`, one line after another. */
  function MergeLines(arr: seq<Run>, h: bool, keys: seq<int>): seq<Run>
    decreases |keys|
  {
    if keys == [] then []
    else MergeLines(arr, h, keys[..|keys| - 1]) + MergeLine(arr, h, keys[|keys| - 1])
  }

  /** The geometry of the merge's output: the merged horizontal lines, then the vertical ones. */
  function Geometry(rs: seq<Run>): seq<Run>
  {
    var hs := OfClass(rs, true);
    var vs := OfClass(rs, false);
    MergeLines(hs, true, LineKeys(hs, true)) + MergeLines(vs, false, LineKeys(vs, false))
  }

  /**
   * Output `idx` of the merge: run `r` with identifier wire-idx and the colour and width of
   * the first store segment whose endpoints match `r` in either direction, each falling back
   * to the default when it is absent or falsy (app.js:523-536).
   */
  function Styled(idx: nat, r: Run, store: seq<Segment>, defaultColor: string, defaultWidth: int): Segment
  {
    var original := FirstMatch(store, r);
    var color := if original.Some? then store[original.value].color else None;
    var width := if original.Some? then store[original.value].width else None;
    Segment(idx, r.x1, r.y1, r.x2, r.y2, Some(ColorOr(color, defaultColor)), Some(WidthOr(width, defaultWidth)))
  }

  function Restyle(g: seq<Run>, store: seq<Segment>, defaultColor: string, defaultWidth: int): (r: seq<Segment>)
    ensures |r| == |g|
    ensures forall i :: 0 <= i < |g| ==> r[i] == Styled(i, g[i], store, defaultColor, defaultWidth)
  {
    seq(|g|, i requires 0 <= i < |g| => Styled(i, g[i], store, defaultColor, defaultWidth))
  }

  /** The store after mergeCollinearWires. */
  function Normalize(store: seq<Segment>, defaultColor: string, defaultWidth: int): (n: seq<Segment>)
    ensures Runs(n) == Geometry(Runs(store))
  {
    RunsOfRestyle(Geometry(Runs(store)), store, defaultColor, defaultWidth);
    Restyle(Geometry(Runs(store)), store, defaultColor, defaultWidth)
  }

  // ---------------------------------------------------------------- filters over concatenations

  predicate AllInClass(rs: seq<Run>, h: bool) { forall i :: 0 <= i < |rs| ==> InClass(rs[i], h) }

  lemma {:induction false} OfClassAppend(a: seq<Run>, b: seq<Run>, h: bool)
    ensures OfClass(a + b, h) == OfClass(a, h) + OfClass(b, h)
    decreases |b|
  {
    if b != [] {
      var b' := b[..|b| - 1];
      assert (a + b)[..|a + b| - 1] == a + b';
      assert (a + b)[|a + b| - 1] == b[|b| - 1];
      OfClassAppend(a, b', h);
    } else {
      assert a + b == a;
    }
  }

  lemma {:induction false} OfClassAll(rs: seq<Run>, h: bool)
    requires AllInClass(rs, h)
    ensures OfClass(rs, h) == rs
    decreases |rs|
  {
    if rs != [] {
      var n := |rs| - 1;
      assert AllInClass(rs[..n], h) by {
        forall i | 0 <= i < n ensures InClass(rs[..n][i], h) {
          assert rs[..n][i] == rs[i];
        }
      }
      OfClassAll(rs[..n], h);
      assert InClass(rs[n], h);
      assert OfClass(rs, h) == OfClass(rs[..n], h) + [rs[n]];
      assert rs[..n] + [rs[n]] == rs;
    }
  }

  lemma {:induction false} OfClassNone(rs: seq<Run>, h: bool)
    requires AllInClass(rs, !h)
    ensures OfClass(rs, h) == []
    decreases |rs|
  {
    if rs != [] {
      var n := |rs| - 1;
      assert AllInClass(rs[..n], !h) by {
        forall i | 0 <= i < n ensures InClass(rs[..n][i], !h) {
          assert rs[..n][i] == rs[i];
        }
      }
      OfClassNone(rs[..n], h);
    }
  }

  /** A run is in at most one class, so the partition keeps no more runs than it is given. */
  lemma {:induction false} PartitionSize(rs: seq<Run>)
    ensures |OfClass(rs, true)| + |OfClass(rs, false)| <= |rs|
    decreases |rs|
  {
    if rs != [] {
      PartitionSize(rs[..|rs| - 1]);
    }
  }

  lemma {:induction false} OnLineAppend(a: seq<Run>, b: seq<Run>, h: bool, k: int)
    ensures OnLine(a + b, h, k) == OnLine(a, h, k) + OnLine(b, h, k)
    decreases |b|
  {
    if b != [] {
      var b' := b[..|b| - 1];
      assert (a + b)[..|a + b| - 1] == a + b';
      assert (a + b)[|a + b| - 1] == b[|b| - 1];
      OnLineAppend(a, b', h, k);
    } else {
      assert a + b == a;
    }
  }

  lemma {:induction false} OnLineAll(rs: seq<Run>, h: bool, k: int)
    requires forall i :: 0 <= i < |rs| ==> Key(rs[i], h) == k
    ensures OnLine(rs, h, k) == rs
    decreases |rs|
  {
    if rs != [] {
      OnLineAll(rs[..|rs| - 1], h, k);
    }
  }

  lemma {:induction false} OnLineNone(rs: seq<Run>, h: bool, k: int)
    requires forall i :: 0 <= i < |rs| ==> Key(rs[i], h) != k
    ensures OnLine(rs, h, k) == []
    decreases |rs|
  {
    if rs != [] {
      OnLineNone(rs[..|rs| - 1], h, k);
    }
  }

  /** Filtering by one more, new, line adds exactly that line's runs. */
  lemma {:induction false} OnLinesSnoc(arr: seq<Run>, h: bool, ks: seq<int>, k: int)
    requires k !in ks
    ensures |OnLines(arr, h, ks + [k])| == |OnLines(arr, h, ks)| + |OnLine(arr, h, k)|
    decreases |arr|
  {
    if arr != [] {
      OnLinesSnoc(arr[..|arr| - 1], h, ks, k);
    }
  }

  lemma OnLinesBound(arr: seq<Run>, h: bool, ks: seq<int>)
    ensures |OnLines(arr, h, ks)| <= |arr|
  {
  }

  // ---------------------------------------------------------------- one line

  /** The intervals of line `k` cover exactly the points the runs of `arr` on line `k` cover. */
  lemma LineIntervalsCover(arr: seq<Run>, h: bool, k: int, t: real)
    requires AllInClass(arr, h)
    ensures Covers(SpansOf(OnLine(arr, h, k), h), t) <==> LineCovers(arr, h, k, t)
  {
    var on := OnLine(arr, h, k);
    var sp := SpansOf(on, h);
    if Covers(sp, t) {
      var i :| 0 <= i < |sp| && Contains(sp[i], t);
      assert on[i] in on;
      var j :| 0 <= j < |arr| && arr[j] == on[i];
      assert RunCovers(arr[j], h, k, t);
    }
    if LineCovers(arr, h, k, t) {
      var j :| 0 <= j < |arr| && RunCovers(arr[j], h, k, t);
      assert arr[j] in arr;
      var i :| 0 <= i < |on| && on[i] == arr[j];
      assert Contains(sp[i], t);
    }
  }

  /**
   * The merged intervals of one line are ascending, pairwise apart (neither overlapping nor
   * touching), never more than the line's runs, present when the line has a run, not points
   * on a vertical line, and cover exactly what the line's runs cover.
   */
  lemma LineSpansShape(arr: seq<Run>, h: bool, k: int)
    requires AllInClass(arr, h)
    ensures var m := LineSpans(arr, h, k);
      WellFormed(m) && Separated(m) && (!h ==> Proper(m)) &&
      |m| <= |OnLine(arr, h, k)| && (OnLine(arr, h, k) != [] ==> m != []) &&
      (forall t :: Covers(m, t) <==> LineCovers(arr, h, k, t))
  {
    var on := OnLine(arr, h, k);
    var sp := SpansOf(on, h);
    var sorted := SortByLo(sp);
    assert WellFormed(sp);
    assert !h ==> Proper(sp) by {
      if !h {
        forall i | 0 <= i < |sp| ensures sp[i].lo < sp[i].hi {
          assert on[i] in on;
        }
      }
    }
    SameElements(sp, sorted);
    MergeSortedShape(sorted);
    forall t ensures Covers(LineSpans(arr, h, k), t) <==> LineCovers(arr, h, k, t) {
      MergeSortedCovers(sorted, t);
      LineIntervalsCover(arr, h, k, t);
    }
  }

  /** Runs are ordered by line, then along the line, with a gap between runs on one line. */
  predicate Before(a: Run, b: Run, h: bool)
  {
    Key(a, h) < Key(b, h) || (Key(a, h) == Key(b, h) && SpanOf(a, h).hi < SpanOf(b, h).lo)
  }

  predicate Ordered(rs: seq<Run>, h: bool)
  {
    forall i, j :: 0 <= i < j < |rs| ==> Before(rs[i], rs[j], h)
  }

  /** Runs built from well-formed intervals on line `k`. */
  lemma ToRunsShape(k: int, h: bool, m: seq<Span>)
    requires WellFormed(m) && (!h ==> Proper(m))
    ensures var rs := ToRuns(k, h, m);
      AllInClass(rs, h) && SpansOf(rs, h) == m &&
      (forall i :: 0 <= i < |rs| ==> Key(rs[i], h) == k && Normalised(rs[i])) &&
      (Separated(m) ==> Ordered(rs, h))
  {
  }

  lemma MergeLineShape(arr: seq<Run>, h: bool, k: int)
    requires AllInClass(arr, h)
    ensures var ml := MergeLine(arr, h, k);
      AllInClass(ml, h) && Ordered(ml, h) && SpansOf(ml, h) == LineSpans(arr, h, k) &&
      (forall i :: 0 <= i < |ml| ==> Key(ml[i], h) == k && Normalised(ml[i])) &&
      |ml| <= |OnLine(arr, h, k)| && (OnLine(arr, h, k) != [] ==> ml != [])
  {
    LineSpansShape(arr, h, k);
    ToRunsShape(k, h, LineSpans(arr, h, k));
  }

  // ---------------------------------------------------------------- all lines of a class

  /** Every run of a line's merge lies on that line. */
  lemma MergeLineOnLine(arr: seq<Run>, h: bool, k: int)
    ensures forall i :: 0 <= i < |MergeLine(arr, h, k)| ==> Key(MergeLine(arr, h, k)[i], h) == k
  {
  }

  predicate AllNormalised(rs: seq<Run>) { forall i :: 0 <= i < |rs| ==> Normalised(rs[i]) }

  predicate KeysIn(rs: seq<Run>, h: bool, ks: seq<int>) { forall i :: 0 <= i < |rs| ==> Key(rs[i], h) in ks }

  lemma AppendShape(a: seq<Run>, b: seq<Run>, h: bool)
    ensures AllInClass(a, h) && AllInClass(b, h) ==> AllInClass(a + b, h)
    ensures AllNormalised(a) && AllNormalised(b) ==> AllNormalised(a + b)
  {
    if AllInClass(a, h) && AllInClass(b, h) {
      forall i | 0 <= i < |a + b| ensures InClass((a + b)[i], h) {
        if i >= |a| { assert (a + b)[i] == b[i - |a|]; }
      }
    }
    if AllNormalised(a) && AllNormalised(b) {
      forall i | 0 <= i < |a + b| ensures Normalised((a + b)[i]) {
        if i >= |a| { assert (a + b)[i] == b[i - |a|]; }
      }
    }
  }

  /** The runs of the earlier lines, then those of a later line `k`. */
  lemma AppendLine(a: seq<Run>, b: seq<Run>, h: bool, init: seq<int>, k: int)
    requires KeysIn(a, h, init) && forall i :: 0 <= i < |b| ==> Key(b[i], h) == k
    ensures KeysIn(a + b, h, init + [k])
    ensures (forall x :: x in init ==> x < k) && Ordered(a, h) && Ordered(b, h) ==> Ordered(a + b, h)
  {
    forall i | 0 <= i < |a + b| ensures Key((a + b)[i], h) in init + [k] {
      if i < |a| {
        assert (a + b)[i] == a[i];
      } else {
        assert (a + b)[i] == b[i - |a|];
      }
    }
    if (forall x :: x in init ==> x < k) && Ordered(a, h) && Ordered(b, h) {
      forall i, j | 0 <= i < j < |a + b| ensures Before((a + b)[i], (a + b)[j], h) {
        if j < |a| {
          assert (a + b)[i] == a[i] && (a + b)[j] == a[j];
        } else if i >= |a| {
          assert (a + b)[i] == b[i - |a|] && (a + b)[j] == b[j - |a|];
        } else {
          assert (a + b)[i] == a[i] && (a + b)[j] == b[j - |a|];
          assert Key(a[i], h) in init;
        }
      }
    }
  }

  lemma AscendingLast(keys: seq<int>)
    requires StrictlyAscending(keys) && keys != []
    ensures var init := keys[..|keys| - 1];
      keys == init + [keys[|keys| - 1]] && StrictlyAscending(init) &&
      forall x :: x in init ==> x < keys[|keys| - 1]
  {
  }

  /**
   * The merged lines of one class: all of that class, normalised, on lines of `keys`, in
   * ascending order of line and then of position, and no more than the runs on those lines.
   */
  lemma {:induction false} MergeLinesShape(arr: seq<Run>, h: bool, keys: seq<int>)
    requires AllInClass(arr, h) && StrictlyAscending(keys)
    ensures var ml := MergeLines(arr, h, keys);
      AllInClass(ml, h) && AllNormalised(ml) && KeysIn(ml, h, keys) && Ordered(ml, h) &&
      |ml| <= |OnLines(arr, h, keys)|
    decreases |keys|
  {
    if keys != [] {
      var init := keys[..|keys| - 1];
      var k := keys[|keys| - 1];
      AscendingLast(keys);
      MergeLinesShape(arr, h, init);
      MergeLineShape(arr, h, k);
      var a := MergeLines(arr, h, init);
      var b := MergeLine(arr, h, k);
      assert MergeLines(arr, h, keys) == a + b;
      AppendShape(a, b, h);
      AppendLine(a, b, h, init, k);
      OnLinesSnoc(arr, h, init, k);
    }
  }

  /** Picking line `k` out of the merged lines gives that line's merge, or nothing. */
  lemma {:induction false} OnLineOfMergeLines(arr: seq<Run>, h: bool, keys: seq<int>, k: int)
    requires StrictlyAscending(keys)
    ensures OnLine(MergeLines(arr, h, keys), h, k) == if k in keys then MergeLine(arr, h, k) else []
    decreases |keys|
  {
    if keys != [] {
      var init := keys[..|keys| - 1];
      var last := keys[|keys| - 1];
      var ml := MergeLine(arr, h, last);
      AscendingLast(keys);
      assert (k in keys <==> k in init || k == last) && last !in init;
      OnLineOfMergeLines(arr, h, init, k);
      OnLineAppend(MergeLines(arr, h, init), ml, h, k);
      assert OnLine(ml, h, k) == if k == last then ml else [] by {
        MergeLineOnLine(arr, h, last);
        if k == last {
          OnLineAll(ml, h, k);
        } else {
          OnLineNone(ml, h, k);
        }
      }
    }
  }

  lemma LineCoversOnLine(rs: seq<Run>, h: bool, k: int, t: real)
    ensures LineCovers(OnLine(rs, h, k), h, k, t) <==> LineCovers(rs, h, k, t)
  {
    var on := OnLine(rs, h, k);
    if LineCovers(on, h, k, t) {
      var i :| 0 <= i < |on| && RunCovers(on[i], h, k, t);
      assert on[i] in on;
      var j :| 0 <= j < |rs| && rs[j] == on[i];
    }
    if LineCovers(rs, h, k, t) {
      var j :| 0 <= j < |rs| && RunCovers(rs[j], h, k, t);
      assert rs[j] in rs;
      var i :| 0 <= i < |on| && on[i] == rs[j];
    }
  }

  lemma LineCoversToRuns(k: int, h: bool, m: seq<Span>, t: real)
    requires WellFormed(m) && (!h ==> Proper(m))
    ensures LineCovers(ToRuns(k, h, m), h, k, t) <==> Covers(m, t)
  {
    var rs := ToRuns(k, h, m);
    ToRunsShape(k, h, m);
    if Covers(m, t) {
      var i :| 0 <= i < |m| && Contains(m[i], t);
      assert RunCovers(rs[i], h, k, t);
    }
  }

  lemma LineCoversAppend(a: seq<Run>, b: seq<Run>, h: bool, k: int, t: real)
    ensures LineCovers(a + b, h, k, t) <==> LineCovers(a, h, k, t) || LineCovers(b, h, k, t)
  {
    if LineCovers(a + b, h, k, t) {
      var i :| 0 <= i < |a + b| && RunCovers((a + b)[i], h, k, t);
      if i >= |a| { assert RunCovers(b[i - |a|], h, k, t); }
    }
    if LineCovers(b, h, k, t) {
      var i :| 0 <= i < |b| && RunCovers(b[i], h, k, t);
      assert (a + b)[|a| + i] == b[i];
    }
    if LineCovers(a, h, k, t) {
      var i :| 0 <= i < |a| && RunCovers(a[i], h, k, t);
      assert (a + b)[i] == a[i];
    }
  }

  lemma LineCoversOfClass(rs: seq<Run>, h: bool, k: int, t: real)
    ensures LineCovers(OfClass(rs, h), h, k, t) <==> LineCovers(rs, h, k, t)
  {
    var c := OfClass(rs, h);
    OfClassMembers(rs, h);
    if LineCovers(c, h, k, t) {
      var i :| 0 <= i < |c| && RunCovers(c[i], h, k, t);
      assert c[i] in c;
      var j :| 0 <= j < |rs| && rs[j] == c[i];
    }
    if LineCovers(rs, h, k, t) {
      var j :| 0 <= j < |rs| && RunCovers(rs[j], h, k, t);
      assert rs[j] in rs;
      var i :| 0 <= i < |c| && c[i] == rs[j];
    }
  }

  /** The merged lines of a class cover the point at `t` of line `k` exactly when its runs did. */
  lemma MergeLinesCover(arr: seq<Run>, h: bool, keys: seq<int>, k: int, t: real)
    requires AllInClass(arr, h) && StrictlyAscending(keys)
    ensures LineCovers(MergeLines(arr, h, keys), h, k, t) <==> k in keys && LineCovers(arr, h, k, t)
  {
    LineCoversOnLine(MergeLines(arr, h, keys), h, k, t);
    OnLineOfMergeLines(arr, h, keys, k);
    if k in keys {
      LineSpansShape(arr, h, k);
      LineCoversToRuns(k, h, LineSpans(arr, h, k), t);
    }
  }

  /** The geometry split into its two classes, with the shape of each. */
  lemma GeometryParts(rs: seq<Run>)
    ensures var hs := OfClass(rs, true);
      var vs := OfClass(rs, false);
      var mh := MergeLines(hs, true, LineKeys(hs, true));
      var mv := MergeLines(vs, false, LineKeys(vs, false));
      Geometry(rs) == mh + mv &&
      AllInClass(mh, true) && AllInClass(mv, false) && Ordered(mh, true) && Ordered(mv, false) &&
      OfClass(Geometry(rs), true) == mh && OfClass(Geometry(rs), false) == mv &&
      AllNormalised(mh) && AllNormalised(mv) &&
      |mh| + |mv| <= |rs|
  {
    var hs := OfClass(rs, true);
    var vs := OfClass(rs, false);
    OfClassMembers(rs, true);
    OfClassMembers(rs, false);
    MergeLinesShape(hs, true, LineKeys(hs, true));
    MergeLinesShape(vs, false, LineKeys(vs, false));
    OnLinesBound(hs, true, LineKeys(hs, true));
    OnLinesBound(vs, false, LineKeys(vs, false));
    var mh := MergeLines(hs, true, LineKeys(hs, true));
    var mv := MergeLines(vs, false, LineKeys(vs, false));
    OfClassAppend(mh, mv, true);
    OfClassAppend(mh, mv, false);
    OfClassAll(mh, true);
    OfClassNone(mv, true);
    OfClassAll(mv, false);
    OfClassNone(mh, false);
    PartitionSize(rs);
  }

  // ---------------------------------------------------------------- the geometry

  /**
   * The merge keeps exactly the covered points: on every grid line of either class, the
   * output passes through a point exactly when some input run of that class did. Diagonal
   * runs belong to no class, so what they covered is dropped.
   */
  lemma GeometryCovers(rs: seq<Run>, h: bool, k: int, t: real)
    ensures LineCovers(Geometry(rs), h, k, t) <==> LineCovers(rs, h, k, t)
  {
    GeometryParts(rs);
    var hs := OfClass(rs, true);
    var vs := OfClass(rs, false);
    var mh := MergeLines(hs, true, LineKeys(hs, true));
    var mv := MergeLines(vs, false, LineKeys(vs, false));
    LineCoversAppend(mh, mv, h, k, t);
    var c := OfClass(rs, h);
    OfClassMembers(rs, h);
    LineCoversOfClass(rs, h, k, t);
    MergeLinesCover(c, h, LineKeys(c, h), k, t);
    if LineCovers(c, h, k, t) {
      var i :| 0 <= i < |c| && RunCovers(c[i], h, k, t);
      assert c[i] in c;
    }
    if h {
      assert !LineCovers(mv, true, k, t);
    } else {
      assert !LineCovers(mh, false, k, t);
    }
  }

  /**
   * The merge's runs are normalised, never more than the store's, the horizontal runs come
   * first, and within each class they ascend by line and then along it with a gap between
   * consecutive runs of a line: no two output runs of a class overlap or touch.
   */
  lemma GeometryShape(rs: seq<Run>)
    ensures var g := Geometry(rs);
      AllNormalised(g) && |g| <= |rs| &&
      g == OfClass(g, true) + OfClass(g, false) &&
      Ordered(OfClass(g, true), true) && Ordered(OfClass(g, false), false)
  {
    GeometryParts(rs);
    var hs := OfClass(rs, true);
    var vs := OfClass(rs, false);
    AppendShape(MergeLines(hs, true, LineKeys(hs, true)), MergeLines(vs, false, LineKeys(vs, false)), true);
  }

  predicate Distinct(rs: seq<Run>) { forall i, j :: 0 <= i < j < |rs| ==> rs[i] != rs[j] }

  /** Ordered runs are pairwise distinct. */
  lemma OrderedDistinct(rs: seq<Run>, h: bool)
    requires Ordered(rs, h)
    ensures Distinct(rs)
  {
    forall i, j | 0 <= i < j < |rs| ensures rs[i] != rs[j] {
      assert Before(rs[i], rs[j], h);
    }
  }

  lemma AppendDistinct(a: seq<Run>, b: seq<Run>)
    requires Distinct(a) && Distinct(b) && AllInClass(a, true) && AllInClass(b, false)
    ensures Distinct(a + b)
  {
    forall i, j | 0 <= i < j < |a + b| ensures (a + b)[i] != (a + b)[j] {
      if j < |a| {
        assert (a + b)[i] == a[i] && (a + b)[j] == a[j];
      } else if i >= |a| {
        assert (a + b)[i] == b[i - |a|] && (a + b)[j] == b[j - |a|];
      } else {
        assert (a + b)[i] == a[i] && (a + b)[j] == b[j - |a|];
      }
    }
  }

  /** No run occurs twice in the merge's output. */
  lemma GeometryDistinct(rs: seq<Run>)
    ensures Distinct(Geometry(rs))
  {
    GeometryParts(rs);
    var hs := OfClass(rs, true);
    var vs := OfClass(rs, false);
    var mh := MergeLines(hs, true, LineKeys(hs, true));
    var mv := MergeLines(vs, false, LineKeys(vs, false));
    OrderedDistinct(mh, true);
    OrderedDistinct(mv, false);
    AppendDistinct(mh, mv);
  }

  // ---------------------------------------------------------------- merging twice

  lemma SeparatedSorted(s: seq<Span>)
    requires WellFormed(s) && Separated(s)
    ensures SortedByLo(s)
  {
    forall i, j | 0 <= i < j < |s| ensures s[i].lo <= s[j].lo {
      assert s[i].lo <= s[i].hi < s[j].lo;
    }
  }

  /** A merged line, merged again, is unchanged. */
  lemma MergeLineOfMerged(arr: seq<Run>, h: bool, keys: seq<int>, k: int)
    requires AllInClass(arr, h) && StrictlyAscending(keys) && k in keys
    ensures MergeLine(MergeLines(arr, h, keys), h, k) == MergeLine(arr, h, k)
  {
    var c := LineSpans(arr, h, k);
    OnLineOfMergeLines(arr, h, keys, k);
    LineSpansShape(arr, h, k);
    ToRunsShape(k, h, c);
    SeparatedSorted(c);
    SortOfSorted(c);
    MergeSortedOfSeparated(c);
  }

  lemma {:induction false} MergeLinesCongruent(a: seq<Run>, b: seq<Run>, h: bool, keys: seq<int>)
    requires forall k :: k in keys ==> MergeLine(a, h, k) == MergeLine(b, h, k)
    ensures MergeLines(a, h, keys) == MergeLines(b, h, keys)
    decreases |keys|
  {
    if keys != [] {
      assert keys[|keys| - 1] in keys;
      assert forall k :: k in keys[..|keys| - 1] ==> k in keys;
      MergeLinesCongruent(a, b, h, keys[..|keys| - 1]);
    }
  }

  /** The merged runs of a class lie on exactly the lines its runs lay on. */
  lemma LineKeysOfMerged(arr: seq<Run>, h: bool)
    requires AllInClass(arr, h)
    ensures LineKeys(MergeLines(arr, h, LineKeys(arr, h)), h) == LineKeys(arr, h)
  {
    var keys := LineKeys(arr, h);
    var m := MergeLines(arr, h, keys);
    assert forall k :: k in LineKeys(m, h) ==> k in keys by {
      forall k | k in LineKeys(m, h) ensures k in keys {
        MergedKeyWithin(arr, h, k);
      }
    }
    assert forall k :: k in keys ==> k in LineKeys(m, h) by {
      forall k | k in keys ensures k in LineKeys(m, h) {
        MergedKeyCovered(arr, h, k);
      }
    }
    AscendingSameElements(LineKeys(m, h), keys);
  }

  lemma MergedKeyWithin(arr: seq<Run>, h: bool, k: int)
    requires AllInClass(arr, h)
    requires k in LineKeys(MergeLines(arr, h, LineKeys(arr, h)), h)
    ensures k in LineKeys(arr, h)
  {
    var keys := LineKeys(arr, h);
    var m := MergeLines(arr, h, keys);
    MergeLinesShape(arr, h, keys);
    var x :| x in m && Key(x, h) == k;
    var i :| 0 <= i < |m| && m[i] == x;
  }

  lemma MergedKeyCovered(arr: seq<Run>, h: bool, k: int)
    requires AllInClass(arr, h) && k in LineKeys(arr, h)
    ensures k in LineKeys(MergeLines(arr, h, LineKeys(arr, h)), h)
  {
    var keys := LineKeys(arr, h);
    var m := MergeLines(arr, h, keys);
    var x :| x in arr && Key(x, h) == k;
    assert x in OnLine(arr, h, k);
    MergeLineShape(arr, h, k);
    OnLineOfMergeLines(arr, h, keys, k);
    var on := OnLine(m, h, k);
    assert on[0] in on;
  }

  /** Merging the lines of one class again reproduces them. */
  lemma MergeLinesIdempotent(arr: seq<Run>, h: bool)
    requires AllInClass(arr, h)
    ensures var m := MergeLines(arr, h, LineKeys(arr, h));
      MergeLines(m, h, LineKeys(m, h)) == m
  {
    var keys := LineKeys(arr, h);
    var m := MergeLines(arr, h, keys);
    LineKeysOfMerged(arr, h);
    forall k | k in keys ensures MergeLine(m, h, k) == MergeLine(arr, h, k) {
      MergeLineOfMerged(arr, h, keys, k);
    }
    MergeLinesCongruent(m, arr, h, keys);
  }

  /** mergeCollinearWires is idempotent on geometry: merging merged wires changes nothing. */
  lemma GeometryIdempotent(rs: seq<Run>)
    ensures Geometry(Geometry(rs)) == Geometry(rs)
  {
    var hs := OfClass(rs, true);
    var vs := OfClass(rs, false);
    var mh := MergeLines(hs, true, LineKeys(hs, true));
    var mv := MergeLines(vs, false, LineKeys(vs, false));
    var g := Geometry(rs);
    assert g == mh + mv && OfClass(g, true) == mh && OfClass(g, false) == mv by {
      GeometryParts(rs);
    }
    assert MergeLines(mh, true, LineKeys(mh, true)) == mh by {
      OfClassMembers(rs, true);
      MergeLinesIdempotent(hs, true);
    }
    assert MergeLines(mv, false, LineKeys(mv, false)) == mv by {
      OfClassMembers(rs, false);
      MergeLinesIdempotent(vs, false);
    }
    GeometryOfFixedParts(g, mh, mv);
  }

  lemma GeometryOfFixedParts(g: seq<Run>, mh: seq<Run>, mv: seq<Run>)
    requires g == mh + mv && OfClass(g, true) == mh && OfClass(g, false) == mv
    requires MergeLines(mh, true, LineKeys(mh, true)) == mh
    requires MergeLines(mv, false, LineKeys(mv, false)) == mv
    ensures Geometry(g) == g
  {
  }

  // ---------------------------------------------------------------- the store after a merge

  lemma RunsOfRestyle(g: seq<Run>, store: seq<Segment>, defaultColor: string, defaultWidth: int)
    ensures Runs(Restyle(g, store, defaultColor, defaultWidth)) == g
  {
  }

  /**
   * After a merge the store holds normalised runs, no more segments than before, every one
   * with a colour and a width, and identifiers exactly 0 .. n-1 in emission order.
   */
  lemma NormalizeShape(store: seq<Segment>, defaultColor: string, defaultWidth: int)
    ensures var n := Normalize(store, defaultColor, defaultWidth);
      |n| <= |store| && UniqueIds(n) &&
      (forall i :: 0 <= i < |n| ==> n[i].id == i && Normalised(RunOf(n[i])) &&
                                    n[i].color.Some? && n[i].width.Some?)
  {
    var g := Geometry(Runs(store));
    assert AllNormalised(g) && |g| <= |store| by {
      GeometryShape(Runs(store));
    }
    RestyleShape(g, store, defaultColor, defaultWidth);
  }

  lemma RestyleShape(g: seq<Run>, store: seq<Segment>, defaultColor: string, defaultWidth: int)
    requires AllNormalised(g)
    ensures var n := Restyle(g, store, defaultColor, defaultWidth);
      UniqueIds(n) &&
      (forall i :: 0 <= i < |n| ==> n[i].id == i && Normalised(RunOf(n[i])) &&
                                    n[i].color.Some? && n[i].width.Some?)
  {
    var n := Restyle(g, store, defaultColor, defaultWidth);
    forall i | 0 <= i < |n|
      ensures n[i].id == i && RunOf(n[i]) == g[i] && n[i].color.Some? && n[i].width.Some?
    {
      assert n[i] == Styled(i, g[i], store, defaultColor, defaultWidth);
    }
  }

  /** The merged store covers exactly the points of every grid line that the store covered. */
  lemma NormalizeCovers(store: seq<Segment>, defaultColor: string, defaultWidth: int, h: bool, k: int, t: real)
    ensures LineCovers(Runs(Normalize(store, defaultColor, defaultWidth)), h, k, t) <==> LineCovers(Runs(store), h, k, t)
  {
    RunsOfRestyle(Geometry(Runs(store)), store, defaultColor, defaultWidth);
    GeometryCovers(Runs(store), h, k, t);
  }

  /** Two intervals that neither overlap nor touch. */
  predicate Apart(a: Span, b: Span) { a.hi < b.lo || b.hi < a.lo }

  /** Two runs of one class on one grid line neither overlap nor touch. */
  predicate RunsApart(a: Run, b: Run)
  {
    (IsHorizontal(a) && IsHorizontal(b) && a.y1 == b.y1 ==> Apart(SpanOf(a, true), SpanOf(b, true))) &&
    (IsVertical(a) && IsVertical(b) && a.x1 == b.x1 ==> Apart(SpanOf(a, false), SpanOf(b, false)))
  }

  predicate Minimal(rs: seq<Run>)
  {
    forall i, j :: 0 <= i < |rs| && 0 <= j < |rs| && i != j ==> RunsApart(rs[i], rs[j])
  }

  lemma OrderedClassesMinimal(a: seq<Run>, b: seq<Run>)
    requires AllInClass(a, true) && AllInClass(b, false) && Ordered(a, true) && Ordered(b, false)
    ensures Minimal(a + b)
  {
    var g := a + b;
    forall i, j | 0 <= i < |g| && 0 <= j < |g| && i != j ensures RunsApart(g[i], g[j]) {
      var lo := if i < j then i else j;
      var hi := if i < j then j else i;
      if hi < |a| {
        assert g[lo] == a[lo] && g[hi] == a[hi];
        assert Before(a[lo], a[hi], true);
      } else if lo >= |a| {
        assert g[lo] == b[lo - |a|] && g[hi] == b[hi - |a|];
        assert Before(b[lo - |a|], b[hi - |a|], false);
      } else {
        assert g[lo] == a[lo] && g[hi] == b[hi - |a|];
      }
    }
  }

  /** No two segments of the merged store of one class overlap or touch on a grid line. */
  lemma NormalizeMinimal(store: seq<Segment>, defaultColor: string, defaultWidth: int)
    ensures Minimal(Runs(Normalize(store, defaultColor, defaultWidth)))
  {
    var g := Geometry(Runs(store));
    RunsOfRestyle(g, store, defaultColor, defaultWidth);
    GeometryParts(Runs(store));
    var hs := OfClass(Runs(store), true);
    var vs := OfClass(Runs(store), false);
    OrderedClassesMinimal(MergeLines(hs, true, LineKeys(hs, true)), MergeLines(vs, false, LineKeys(vs, false)));
  }

  lemma RestyleStyle(g: seq<Run>, store: seq<Segment>, defaultColor: string, defaultWidth: int, i: nat, j: nat)
    requires i < |g| && j < |store| && Matches(store[j], g[i])
    requires forall m :: 0 <= m < j ==> !Matches(store[m], g[i])
    ensures Restyle(g, store, defaultColor, defaultWidth)[i].color == Some(ColorOr(store[j].color, defaultColor))
    ensures Restyle(g, store, defaultColor, defaultWidth)[i].width == Some(WidthOr(store[j].width, defaultWidth))
  {
    var m := FirstMatch(store, g[i]);
    assert m == Some(j);
  }

  /**
   * A merged segment keeps the non-empty colour and the non-zero width of the first store
   * segment with the same endpoints in either direction; when that style is falsy it takes
   * the defaults.
   */
  lemma NormalizeStyle(store: seq<Segment>, defaultColor: string, defaultWidth: int, i: nat, j: nat)
    requires i < |Normalize(store, defaultColor, defaultWidth)| && j < |store|
    requires Matches(store[j], RunOf(Normalize(store, defaultColor, defaultWidth)[i]))
    requires forall m :: 0 <= m < j ==> !Matches(store[m], RunOf(Normalize(store, defaultColor, defaultWidth)[i]))
    ensures Normalize(store, defaultColor, defaultWidth)[i].color == Some(ColorOr(store[j].color, defaultColor))
    ensures Normalize(store, defaultColor, defaultWidth)[i].width == Some(WidthOr(store[j].width, defaultWidth))
  {
    var g := Geometry(Runs(store));
    RunsOfRestyle(g, store, defaultColor, defaultWidth);
    RestyleStyle(g, store, defaultColor, defaultWidth, i, j);
  }

  /** Without a store segment of the same endpoints a merged segment takes the default style. */
  lemma NormalizeDefaultStyle(store: seq<Segment>, defaultColor: string, defaultWidth: int, i: nat)
    requires i < |Normalize(store, defaultColor, defaultWidth)|
    requires forall m :: 0 <= m < |store| ==> !Matches(store[m], RunOf(Normalize(store, defaultColor, defaultWidth)[i]))
    ensures Normalize(store, defaultColor, defaultWidth)[i].color == Some(defaultColor)
    ensures Normalize(store, defaultColor, defaultWidth)[i].width == Some(defaultWidth)
  {
    var g := Geometry(Runs(store));
    RunsOfRestyle(g, store, defaultColor, defaultWidth);
    var m := FirstMatch(store, g[i]);
    assert m.None?;
  }

  /** Two normalised runs that match in either direction are the same run. */
  lemma MatchNormalised(a: Run, b: Run, s: Segment)
    requires Normalised(a) && Normalised(b) && RunOf(s) == a && Matches(s, b)
    ensures a == b
  {
  }

  lemma RestyleIdempotent(g: seq<Run>, store: seq<Segment>, defaultColor: string, defaultWidth: int)
    requires Distinct(g) && AllNormalised(g)
    ensures var n := Restyle(g, store, defaultColor, defaultWidth);
      Restyle(g, n, defaultColor, defaultWidth) == n
  {
    var n := Restyle(g, store, defaultColor, defaultWidth);
    var n2 := Restyle(g, n, defaultColor, defaultWidth);
    forall i | 0 <= i < |g| ensures n2[i] == n[i] {
      forall j | 0 <= j < i ensures !Matches(n[j], g[i]) {
        if Matches(n[j], g[i]) {
          MatchNormalised(g[j], g[i], n[j]);
          assert false;
        }
      }
      RestyleStyle(g, n, defaultColor, defaultWidth, i, i);
      FallbackIdempotent(n[i].color, defaultColor, n[i].width, defaultWidth);
    }
  }

  /** Merging a merged store changes nothing, identifiers, colours and widths included. */
  lemma NormalizeIdempotent(store: seq<Segment>, defaultColor: string, defaultWidth: int)
    ensures var n := Normalize(store, defaultColor, defaultWidth);
      Normalize(n, defaultColor, defaultWidth) == n
  {
    var g := Geometry(Runs(store));
    var n := Restyle(g, store, defaultColor, defaultWidth);
    RunsOfRestyle(g, store, defaultColor, defaultWidth);
    GeometryIdempotent(Runs(store));
    GeometryShape(Runs(store));
    GeometryDistinct(Runs(store));
    RestyleIdempotent(g, store, defaultColor, defaultWidth);
  }
}
