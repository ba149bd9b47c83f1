/**
 * The per-line part of the collinear merge (app.js:482-517): the intervals of one grid line
 * are sorted by their start and swept left to right, a running interval absorbing every
 * interval that starts at or before its end.
 */
module Spans {
  import opened WireModel

  predicate WellFormed(s: seq<Span>) { forall i :: 0 <= i < |s| ==> s[i].lo <= s[i].hi }

  /** Every interval has positive length. */
  predicate Proper(s: seq<Span>) { forall i :: 0 <= i < |s| ==> s[i].lo < s[i].hi }

  predicate SortedByLo(s: seq<Span>) { forall i, j :: 0 <= i < j < |s| ==> s[i].lo <= s[j].lo }

  /** Each interval ends strictly before the next one starts: none overlap and none touch. */
  predicate Separated(s: seq<Span>) { forall i, j :: 0 <= i < j < |s| ==> s[i].hi < s[j].lo }

  /** The point at `t` lies in one of the closed intervals of `s`. */
  ghost predicate Covers(s: seq<Span>, t: real) { exists i :: 0 <= i < |s| && Contains(s[i], t) }

  // ---------------------------------------------------------------- sorting (segs.sort)

  function Insert(x: Span, s: seq<Span>): (r: seq<Span>)
    ensures |r| == |s| + 1
    decreases |s|
  {
    if s == [] then [x]
    else if x.lo <= s[0].lo then [x] + s
    else [s[0]] + Insert(x, s[1..])
  }

  /** Inserting adds `x` and loses nothing. */
  lemma {:induction false} InsertPermutes(x: Span, s: seq<Span>)
    ensures multiset(Insert(x, s)) == multiset(s) + multiset{x}
    decreases |s|
  {
    if s != [] && x.lo > s[0].lo {
      InsertPermutes(x, s[1..]);
      assert s == [s[0]] + s[1..];
    }
  }

  lemma {:induction false} InsertSorted(x: Span, s: seq<Span>)
    requires SortedByLo(s)
    ensures SortedByLo(Insert(x, s))
    decreases |s|
  {
    if s != [] && x.lo > s[0].lo {
      var tail := Insert(x, s[1..]);
      assert SortedByLo(s[1..]) by {
        forall i, j | 0 <= i < j < |s[1..]| ensures s[1..][i].lo <= s[1..][j].lo {
          assert s[1..][i] == s[i + 1] && s[1..][j] == s[j + 1];
        }
      }
      InsertSorted(x, s[1..]);
      assert forall i :: 0 <= i < |s[1..]| ==> s[0].lo <= s[1..][i].lo by {
        forall i | 0 <= i < |s[1..]| ensures s[0].lo <= s[1..][i].lo {
          assert s[1..][i] == s[i + 1];
        }
      }
      InsertBound(x, s[1..], s[0].lo);
      var r := [s[0]] + tail;
      assert Insert(x, s) == r;
      forall i, j | 0 <= i < j < |r| ensures r[i].lo <= r[j].lo {
        assert r[j] == tail[j - 1];
        if i > 0 { assert r[i] == tail[i - 1]; }
      }
    } else if s != [] {
      var r := [x] + s;
      assert Insert(x, s) == r;
      forall i, j | 0 <= i < j < |r| ensures r[i].lo <= r[j].lo {
        assert r[j] == s[j - 1];
        if i > 0 { assert r[i] == s[i - 1]; } else { assert s[0].lo <= s[j - 1].lo; }
      }
    }
  }

  /** Inserting keeps a lower bound that `x` and all of `s` respect. */
  lemma {:induction false} InsertBound(x: Span, s: seq<Span>, b: int)
    requires b <= x.lo && forall i :: 0 <= i < |s| ==> b <= s[i].lo
    ensures forall i :: 0 <= i < |Insert(x, s)| ==> b <= Insert(x, s)[i].lo
    decreases |s|
  {
    var r := Insert(x, s);
    if s != [] && x.lo > s[0].lo {
      assert forall i :: 0 <= i < |s[1..]| ==> b <= s[1..][i].lo by {
        forall i | 0 <= i < |s[1..]| ensures b <= s[1..][i].lo {
          assert s[1..][i] == s[i + 1];
        }
      }
      InsertBound(x, s[1..], b);
      forall i | 0 <= i < |r| ensures b <= r[i].lo {
        if i > 0 { assert r[i] == Insert(x, s[1..])[i - 1]; }
      }
    } else if s != [] {
      forall i | 0 <= i < |r| ensures b <= r[i].lo {
        if i > 0 { assert r[i] == s[i - 1]; }
      }
    }
  }

  /**
   * The comparator `aStart - bStart` of the source, as a stable insertion sort. Only the
   * multiset of intervals matters to the sweep's result, not the order among equal starts.
   */
  function SortByLo(s: seq<Span>): (r: seq<Span>)
    ensures |r| == |s| && SortedByLo(r) && multiset(r) == multiset(s)
    decreases |s|
  {
    if s == [] then [] else
      assert s == [s[0]] + s[1..];
      var tail := SortByLo(s[1..]);
      InsertSorted(s[0], tail);
      InsertPermutes(s[0], tail);
      Insert(s[0], tail)
  }

  lemma {:induction false} SortOfSorted(s: seq<Span>)
    requires SortedByLo(s)
    ensures SortByLo(s) == s
    decreases |s|
  {
    if s != [] {
      SortOfSorted(s[1..]);
      assert s == [s[0]] + s[1..];
    }
  }

  lemma SameElements(a: seq<Span>, b: seq<Span>)
    requires multiset(a) == multiset(b)
    ensures WellFormed(a) ==> WellFormed(b)
    ensures Proper(a) ==> Proper(b)
    ensures forall t :: Covers(a, t) <==> Covers(b, t)
  {
    forall i | 0 <= i < |b| ensures b[i] in a {
      assert b[i] in multiset(b);
    }
    forall i | 0 <= i < |a| ensures a[i] in b {
      assert a[i] in multiset(a);
    }
  }

  // ---------------------------------------------------------------- coverage algebra

  lemma CoversAppend(a: seq<Span>, b: seq<Span>, t: real)
    ensures Covers(a + b, t) <==> Covers(a, t) || Covers(b, t)
  {
    if Covers(a + b, t) {
      var i :| 0 <= i < |a + b| && Contains((a + b)[i], t);
      if i < |a| { assert Contains(a[i], t); } else { assert Contains(b[i - |a|], t); }
    }
    if Covers(a, t) {
      var i :| 0 <= i < |a| && Contains(a[i], t);
      assert (a + b)[i] == a[i];
    }
    if Covers(b, t) {
      var i :| 0 <= i < |b| && Contains(b[i], t);
      assert (a + b)[|a| + i] == b[i];
    }
  }

  lemma CoversSingle(x: Span, t: real)
    ensures Covers([x], t) <==> Contains(x, t)
  {
    if Contains(x, t) { assert [x][0] == x; }
  }

  // ---------------------------------------------------------------- the sweep

  /**
   * The sweep of the source, from the running interval `cur` over the remaining sorted
   * intervals: an interval that starts at or before the running end extends it, any other
   * one flushes the running interval and becomes the new one.
   */
  function Sweep(cur: Span, rest: seq<Span>): (r: seq<Span>)
    ensures 1 <= |r| <= |rest| + 1 && r[0].lo == cur.lo
    decreases |rest|
  {
    if rest == [] then [cur]
    else if rest[0].lo <= cur.hi then Sweep(Span(cur.lo, Max(cur.hi, rest[0].hi)), rest[1..])
    else [cur] + Sweep(rest[0], rest[1..])
  }

  /** The sweep of one group of sorted intervals; the source never sweeps an empty group. */
  function MergeSorted(s: seq<Span>): (r: seq<Span>)
    ensures |r| <= |s| && (s != [] <==> r != [])
  {
    if s == [] then [] else Sweep(s[0], s[1..])
  }

  lemma {:induction false} SweepShape(cur: Span, rest: seq<Span>)
    requires cur.lo <= cur.hi && WellFormed(rest) && SortedByLo(rest)
    requires forall i :: 0 <= i < |rest| ==> cur.lo <= rest[i].lo
    ensures var r := Sweep(cur, rest);
      1 <= |r| <= |rest| + 1 && r[0].lo == cur.lo && WellFormed(r) && Separated(r) &&
      (forall j :: 0 <= j < |r| ==> cur.lo <= r[j].lo) &&
      (cur.lo < cur.hi && Proper(rest) ==> Proper(r))
    decreases |rest|
  {
    if rest != [] {
      var next := rest[0];
      var more := rest[1..];
      assert WellFormed(more) && SortedByLo(more) && (Proper(rest) ==> Proper(more)) &&
             (forall i :: 0 <= i < |more| ==> next.lo <= more[i].lo) by {
        forall i | 0 <= i < |more| ensures more[i] == rest[i + 1] { }
      }
      if next.lo <= cur.hi {
        SweepShape(Span(cur.lo, Max(cur.hi, next.hi)), more);
      } else {
        SweepShape(next, more);
        ConsSeparated(cur, Sweep(next, more));
      }
    }
  }

  lemma ConsSeparated(cur: Span, tail: seq<Span>)
    requires cur.lo <= cur.hi && |tail| >= 1 && cur.hi < tail[0].lo
    requires WellFormed(tail) && Separated(tail)
    requires forall j :: 0 <= j < |tail| ==> tail[0].lo <= tail[j].lo
    ensures var r := [cur] + tail;
      WellFormed(r) && Separated(r) && (forall j :: 0 <= j < |r| ==> cur.lo <= r[j].lo) &&
      (cur.lo < cur.hi && Proper(tail) ==> Proper(r))
  {
    var r := [cur] + tail;
    forall i, j | 0 <= i < j < |r| ensures r[i].hi < r[j].lo {
      if i > 0 { assert r[i] == tail[i - 1] && r[j] == tail[j - 1]; }
      else { assert r[j] == tail[j - 1]; }
    }
    forall j | 0 <= j < |r| ensures cur.lo <= r[j].lo && r[j].lo <= r[j].hi {
      if j > 0 { assert r[j] == tail[j - 1]; }
    }
  }

  lemma {:induction false} SweepCovers(cur: Span, rest: seq<Span>, t: real)
    requires SortedByLo(rest)
    requires forall i :: 0 <= i < |rest| ==> cur.lo <= rest[i].lo
    ensures Covers(Sweep(cur, rest), t) <==> Contains(cur, t) || Covers(rest, t)
    decreases |rest|
  {
    if rest == [] {
      CoversSingle(cur, t);
    } else {
      assert rest == [rest[0]] + rest[1..];
      CoversAppend([rest[0]], rest[1..], t);
      CoversSingle(rest[0], t);
      if rest[0].lo <= cur.hi {
        SweepCovers(Span(cur.lo, Max(cur.hi, rest[0].hi)), rest[1..], t);
      } else {
        SweepCovers(rest[0], rest[1..], t);
        CoversAppend([cur], Sweep(rest[0], rest[1..]), t);
        CoversSingle(cur, t);
      }
    }
  }

  /** One group's result: disjoint, non-touching, in ascending order, and no longer than the group. */
  lemma MergeSortedShape(s: seq<Span>)
    requires WellFormed(s) && SortedByLo(s)
    ensures var r := MergeSorted(s);
      |r| <= |s| && (|s| > 0 ==> |r| > 0) && WellFormed(r) && Separated(r) && (Proper(s) ==> Proper(r))
  {
    if s != [] {
      SweepShape(s[0], s[1..]);
    }
  }

  /** One group's result covers exactly the points its intervals cover. */
  lemma MergeSortedCovers(s: seq<Span>, t: real)
    requires SortedByLo(s)
    ensures Covers(MergeSorted(s), t) <==> Covers(s, t)
  {
    if s != [] {
      SweepCovers(s[0], s[1..], t);
      assert s == [s[0]] + s[1..];
      CoversAppend([s[0]], s[1..], t);
      CoversSingle(s[0], t);
    }
  }

  lemma {:induction false} SweepOfSeparated(cur: Span, rest: seq<Span>)
    requires Separated([cur] + rest)
    ensures Sweep(cur, rest) == [cur] + rest
    decreases |rest|
  {
    if rest != [] {
      assert ([cur] + rest)[0] == cur && ([cur] + rest)[1] == rest[0];
      assert [rest[0]] + rest[1..] == rest;
      forall i, j | 0 <= i < j < |[rest[0]] + rest[1..]|
        ensures ([rest[0]] + rest[1..])[i].hi < ([rest[0]] + rest[1..])[j].lo
      {
        assert ([cur] + rest)[i + 1] == rest[i] && ([cur] + rest)[j + 1] == rest[j];
      }
      SweepOfSeparated(rest[0], rest[1..]);
    }
  }

  /** A group that is already disjoint and non-touching comes out of the sweep unchanged. */
  lemma MergeSortedOfSeparated(s: seq<Span>)
    requires Separated(s)
    ensures MergeSorted(s) == s
  {
    if s != [] {
      assert [s[0]] + s[1..] == s;
      SweepOfSeparated(s[0], s[1..]);
    }
  }

  /** Touching intervals merge; intervals with a gap between them do not. */
  lemma SweepExamples()
    ensures MergeSorted([Span(0, 40), Span(40, 80)]) == [Span(0, 80)]
    ensures MergeSorted([Span(0, 40), Span(41, 80)]) == [Span(0, 40), Span(41, 80)]
    ensures MergeSorted([Span(0, 120), Span(40, 80)]) == [Span(0, 120)]
  {
  }

  /**
   * The sweep loop of mergeLineSegments (app.js:491-514) over one sorted group: it keeps a
   * running [currentStart, currentEnd], pushes a run on line `constantCoord` whenever a gap
   * appears, and pushes the last running interval after the loop.
   */
  method SweepGroup(segs: seq<Span>, constantCoord: int, isHorizontal: bool) returns (merged: seq<Run>)
    requires |segs| > 0
    ensures merged == ToRuns(constantCoord, isHorizontal, MergeSorted(segs))
  {
    var currentStart := segs[0].lo;
    var currentEnd := segs[0].hi;
    merged := [];
    ghost var done: seq<Span> := [];
    for i := 1 to |segs|
      invariant merged == ToRuns(constantCoord, isHorizontal, done)
      invariant done + Sweep(Span(currentStart, currentEnd), segs[i..]) == MergeSorted(segs)
    {
      var sStart := segs[i].lo;
      var sEnd := segs[i].hi;
      assert segs[i..][0] == segs[i] && segs[i..][1..] == segs[i + 1..];
      if sStart <= currentEnd {
        currentEnd := Max(currentEnd, sEnd);
      } else {
        ToRunsSnoc(constantCoord, isHorizontal, done, Span(currentStart, currentEnd));
        merged := merged + [ToRun(constantCoord, isHorizontal, Span(currentStart, currentEnd))];
        done := done + [Span(currentStart, currentEnd)];
        currentStart := sStart;
        currentEnd := sEnd;
      }
    }
    ToRunsSnoc(constantCoord, isHorizontal, done, Span(currentStart, currentEnd));
    merged := merged + [ToRun(constantCoord, isHorizontal, Span(currentStart, currentEnd))];
  }

  lemma ToRunsSnoc(k: int, h: bool, s: seq<Span>, x: Span)
    ensures ToRuns(k, h, s + [x]) == ToRuns(k, h, s) + [ToRun(k, h, x)]
  {
  }
}
