/**
 * The loops of mergeCollinearWires (app.js:459-538): partition, grouping by grid line, and the
 * per-line sort and sweep, each proved to compute the specification in module Merge.
 */
module MergeEngine {
  import opened Wrappers
  import opened WireModel
  import opened Spans
  import opened Merge

  lemma OfClassSnoc(rs: seq<Run>, i: nat, h: bool)
    requires i < |rs|
    ensures OfClass(rs[..i + 1], h) == OfClass(rs[..i], h) + (if InClass(rs[i], h) then [rs[i]] else [])
  {
    assert rs[..i + 1][..i] == rs[..i];
  }

  /** The partition loop (app.js:463-467): y1 == y2 is horizontal, else x1 == x2 is vertical. */
  method Partition(segments: seq<Segment>) returns (horizontal: seq<Run>, vertical: seq<Run>)
    ensures horizontal == OfClass(Runs(segments), true)
    ensures vertical == OfClass(Runs(segments), false)
  {
    var rs := Runs(segments);
    horizontal, vertical := [], [];
    for i := 0 to |segments|
      invariant horizontal == OfClass(rs[..i], true)
      invariant vertical == OfClass(rs[..i], false)
    {
      var seg := RunOf(segments[i]);
      OfClassSnoc(rs, i, true);
      OfClassSnoc(rs, i, false);
      if seg.y1 == seg.y2 {
        horizontal := horizontal + [seg];
      } else if seg.x1 == seg.x2 {
        vertical := vertical + [seg];
      }
    }
    assert rs[..|segments|] == rs;
  }

  /** `grouped` and `keys` hold the groups of `arr` by grid line. */
  ghost predicate GroupedAs(grouped: map<int, seq<Run>>, keys: seq<int>, arr: seq<Run>, h: bool)
  {
    keys == LineKeys(arr, h) &&
    (forall k :: k in grouped <==> k in keys) &&
    (forall k :: k in grouped ==> grouped[k] == OnLine(arr, h, k))
  }

  lemma LineKeysSnoc(arr: seq<Run>, i: nat, h: bool)
    requires i < |arr|
    ensures LineKeys(arr[..i + 1], h) == InsertKey(Key(arr[i], h), LineKeys(arr[..i], h))
  {
    assert arr[..i + 1][..i] == arr[..i];
  }

  lemma OnLineSnoc(arr: seq<Run>, i: nat, h: bool, k: int)
    requires i < |arr|
    ensures OnLine(arr[..i + 1], h, k) == OnLine(arr[..i], h, k) + (if Key(arr[i], h) == k then [arr[i]] else [])
  {
    assert arr[..i + 1][..i] == arr[..i];
  }

  lemma {:induction false} InsertKeyPresent(k: int, ks: seq<int>)
    requires StrictlyAscending(ks) && k in ks
    ensures InsertKey(k, ks) == ks
    decreases |ks|
  {
    if ks[0] != k {
      assert k in ks[1..];
      InsertKeyPresent(k, ks[1..]);
      assert ks == [ks[0]] + ks[1..];
    }
  }

  lemma GroupStep(grouped: map<int, seq<Run>>, keys: seq<int>, arr: seq<Run>, i: nat, h: bool)
    requires i < |arr| && GroupedAs(grouped, keys, arr[..i], h)
    ensures var key := Key(arr[i], h);
      var g0 := if key in grouped then grouped else grouped[key := []];
      var k0 := if key in grouped then keys else InsertKey(key, keys);
      var g1 := g0[key := g0[key] + [arr[i]]];
      k0 == LineKeys(arr[..i + 1], h) &&
      (forall k :: k in g1 <==> k in k0) &&
      (forall k :: k in g1 ==> g1[k] == OnLine(arr[..i + 1], h, k))
  {
    var key := Key(arr[i], h);
    var g0 := if key in grouped then grouped else grouped[key := []];
    var k0 := if key in grouped then keys else InsertKey(key, keys);
    var g1 := g0[key := g0[key] + [arr[i]]];
    assert k0 == LineKeys(arr[..i + 1], h) by { GroupStepKeys(grouped, keys, arr, i, h); }
    assert key in grouped || OnLine(arr[..i], h, key) == [] by {
      if key !in grouped { GroupStepNewKey(grouped, keys, arr, i, h); }
    }
    GroupStepDomain(grouped, keys, key, arr[i]);
    GroupStepValues(grouped, arr, i, h);
  }

  lemma GroupStepDomain(grouped: map<int, seq<Run>>, keys: seq<int>, key: int, x: Run)
    requires StrictlyAscending(keys) && forall k :: k in grouped <==> k in keys
    ensures var g0 := if key in grouped then grouped else grouped[key := []];
      var k0 := if key in grouped then keys else InsertKey(key, keys);
      forall k :: k in g0[key := g0[key] + [x]] <==> k in k0
  {
  }

  lemma GroupStepValues(grouped: map<int, seq<Run>>, arr: seq<Run>, i: nat, h: bool)
    requires i < |arr| && forall k :: k in grouped ==> grouped[k] == OnLine(arr[..i], h, k)
    requires Key(arr[i], h) in grouped || OnLine(arr[..i], h, Key(arr[i], h)) == []
    ensures var key := Key(arr[i], h);
      var g0 := if key in grouped then grouped else grouped[key := []];
      var g1 := g0[key := g0[key] + [arr[i]]];
      forall k :: k in g1 ==> g1[k] == OnLine(arr[..i + 1], h, k)
  {
    var key := Key(arr[i], h);
    var g0 := if key in grouped then grouped else grouped[key := []];
    var g1 := g0[key := g0[key] + [arr[i]]];
    forall k | k in g1 ensures g1[k] == OnLine(arr[..i + 1], h, k) {
      OnLineSnoc(arr, i, h, k);
    }
  }

  lemma GroupStepKeys(grouped: map<int, seq<Run>>, keys: seq<int>, arr: seq<Run>, i: nat, h: bool)
    requires i < |arr| && GroupedAs(grouped, keys, arr[..i], h)
    ensures var key := Key(arr[i], h);
      (if key in grouped then keys else InsertKey(key, keys)) == LineKeys(arr[..i + 1], h)
  {
    var key := Key(arr[i], h);
    LineKeysSnoc(arr, i, h);
    if key in grouped {
      InsertKeyPresent(key, keys);
    }
  }

  lemma GroupStepNewKey(grouped: map<int, seq<Run>>, keys: seq<int>, arr: seq<Run>, i: nat, h: bool)
    requires i < |arr| && GroupedAs(grouped, keys, arr[..i], h) && Key(arr[i], h) !in grouped
    ensures OnLine(arr[..i], h, Key(arr[i], h)) == []
  {
    var key := Key(arr[i], h);
    forall j | 0 <= j < i ensures Key(arr[..i][j], h) != key {
      assert arr[..i][j] in arr[..i];
    }
    OnLineNone(arr[..i], h, key);
  }

  /**
   * groupBy (app.js:469-480): the runs of each grid line in the order they came, and the lines
   * in the order Object.values visits the keys, which for the editor's non-negative integer
   * coordinates is ascending.
   */
  method GroupBy(arr: seq<Run>, isHorizontal: bool) returns (grouped: map<int, seq<Run>>, keys: seq<int>)
    ensures keys == LineKeys(arr, isHorizontal)
    ensures forall k :: k in grouped <==> k in keys
    ensures forall k :: k in grouped ==> grouped[k] == OnLine(arr, isHorizontal, k)
  {
    grouped, keys := map[], [];
    for i := 0 to |arr|
      invariant GroupedAs(grouped, keys, arr[..i], isHorizontal)
    {
      var seg := arr[i];
      var key := Key(seg, isHorizontal);
      GroupStep(grouped, keys, arr, i, isHorizontal);
      if key !in grouped {
        grouped := grouped[key := []];
        keys := InsertKey(key, keys);
      }
      grouped := grouped[key := grouped[key] + [seg]];
    }
    assert arr[..|arr|] == arr;
  }

  lemma GroupNonEmpty(arr: seq<Run>, h: bool, k: int)
    requires k in LineKeys(arr, h)
    ensures OnLine(arr, h, k) != []
  {
    var x :| x in arr && Key(x, h) == k;
    assert x in OnLine(arr, h, k);
  }

  /** The groups `keys` of `grouped`, each sorted by start and swept, one line after another. */
  function MergedGroups(grouped: map<int, seq<Run>>, keys: seq<int>, h: bool): seq<Run>
    requires forall k :: k in keys ==> k in grouped
    decreases |keys|
  {
    if keys == [] then []
    else
      var k := keys[|keys| - 1];
      MergedGroups(grouped, keys[..|keys| - 1], h) +
      ToRuns(k, h, MergeSorted(SortByLo(SpansOf(grouped[k], h))))
  }

  lemma {:induction false} MergedGroupsAreMergeLines(grouped: map<int, seq<Run>>, keys: seq<int>, h: bool, arr: seq<Run>)
    requires forall k :: k in keys ==> k in grouped && grouped[k] == OnLine(arr, h, k)
    ensures MergedGroups(grouped, keys, h) == MergeLines(arr, h, keys)
    decreases |keys|
  {
    if keys != [] {
      var init := keys[..|keys| - 1];
      assert forall k :: k in init ==> k in keys;
      MergedGroupsAreMergeLines(grouped, init, h, arr);
      assert keys[|keys| - 1] in keys;
    }
  }

  lemma MergedGroupsSnoc(grouped: map<int, seq<Run>>, keys: seq<int>, h: bool, i: nat)
    requires forall k :: k in keys ==> k in grouped
    requires i < |keys|
    ensures forall k :: k in keys[..i] ==> k in grouped
    ensures MergedGroups(grouped, keys[..i + 1], h) ==
      MergedGroups(grouped, keys[..i], h) + ToRuns(keys[i], h, MergeSorted(SortByLo(SpansOf(grouped[keys[i]], h))))
  {
    assert keys[..i + 1][..i] == keys[..i];
    assert forall k :: k in keys[..i + 1] ==> k in keys;
  }

  /** The body of mergeLineSegments for one group (app.js:484-517): sort by start, then sweep. */
  method MergeGroup(group: seq<Run>, k: int, isHorizontal: bool) returns (line: seq<Run>)
    requires group != []
    ensures line == ToRuns(k, isHorizontal, MergeSorted(SortByLo(SpansOf(group, isHorizontal))))
  {
    var segs := SortByLo(SpansOf(group, isHorizontal));
    line := SweepGroup(segs, k, isHorizontal);
  }

  /**
   * mergeLineSegments (app.js:482-519): each group is sorted by start and swept, and the runs
   * of all groups are collected in key order.
   */
  method MergeLineSegments(grouped: map<int, seq<Run>>, keys: seq<int>, isHorizontal: bool)
    returns (merged: seq<Run>)
    requires forall k :: k in keys ==> k in grouped && grouped[k] != []
    ensures merged == MergedGroups(grouped, keys, isHorizontal)
  {
    merged := [];
    for i := 0 to |keys|
      invariant merged == MergedGroups(grouped, keys[..i], isHorizontal)
    {
      var k := keys[i];
      assert k in keys;
      var line := MergeGroup(grouped[k], k, isHorizontal);
      MergedGroupsSnoc(grouped, keys, isHorizontal, i);
      merged := merged + line;
    }
    assert keys[..|keys|] == keys;
  }

  lemma GroupsNonEmpty(grouped: map<int, seq<Run>>, keys: seq<int>, h: bool, arr: seq<Run>)
    requires keys == LineKeys(arr, h)
    requires forall k :: k in grouped ==> grouped[k] == OnLine(arr, h, k)
    requires forall k :: k in grouped <==> k in keys
    ensures forall k :: k in keys ==> k in grouped && grouped[k] != []
    ensures MergedGroups(grouped, keys, h) == MergeLines(arr, h, keys)
  {
    forall k | k in keys ensures k in grouped && grouped[k] != [] {
      GroupNonEmpty(arr, h, k);
    }
    MergedGroupsAreMergeLines(grouped, keys, h, arr);
  }

  /**
   * mergeCollinearWires over the store `segments` with the current default style: the merged
   * store, identifiers renumbered and style carried over from the first matching segment.
   */
  method MergeSegments(segments: seq<Segment>, defaultColor: string, defaultWidth: int)
    returns (merged: seq<Segment>)
    ensures merged == Normalize(segments, defaultColor, defaultWidth)
  {
    var horizontal, vertical := Partition(segments);
    var horizGrouped, horizKeys := GroupBy(horizontal, true);
    var vertGrouped, vertKeys := GroupBy(vertical, false);
    GroupsNonEmpty(horizGrouped, horizKeys, true, horizontal);
    GroupsNonEmpty(vertGrouped, vertKeys, false, vertical);
    var mh := MergeLineSegments(horizGrouped, horizKeys, true);
    var mv := MergeLineSegments(vertGrouped, vertKeys, false);
    merged := Restyle(mh + mv, segments, defaultColor, defaultWidth);
  }
}
