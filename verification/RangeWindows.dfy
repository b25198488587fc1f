/** The daemon's window plan for a byte range (plan_windows, antd/src/range.rs):
    the range cut at chunk boundaries into windows of a bounded chunk count. */
module RangeWindows {
  import opened Text

  const MAX_U64: nat := 0xFFFF_FFFF_FFFF_FFFF

  datatype Window = Window(start: nat, end: nat)

  function Min(a: nat, b: nat): nat { if a < b then a else b }

  function Max(a: nat, b: nat): nat { if a < b then b else a }

  /** Where chunk i starts: saturating prefix sums of the chunk sizes. */
  function Boundary(sizes: seq<nat>, i: nat): (b: nat)
    requires i <= |sizes|
    ensures b <= MAX_U64
  {
    if i == 0 then 0 else Min(Boundary(sizes, i - 1) + sizes[i - 1], MAX_U64)
  }

  lemma BoundaryStart(sizes: seq<nat>)
    ensures Boundary(sizes, 0) == 0
  {}

  lemma BoundaryStep(sizes: seq<nat>, i: nat)
    requires i < |sizes|
    ensures Boundary(sizes, i) <= Boundary(sizes, i + 1) == Min(Boundary(sizes, i) + sizes[i], MAX_U64)
  {}

  lemma {:induction false} BoundaryMonotone(sizes: seq<nat>, i: nat, j: nat)
    requires i <= j <= |sizes|
    ensures Boundary(sizes, i) <= Boundary(sizes, j)
  {
    if i < j { BoundaryMonotone(sizes, i, j - 1); }
  }

  /** The part of the range that chunks lo, .., hi - 1 hold. */
  function Part(sizes: seq<nat>, range: Window, lo: nat, hi: nat): Window
    requires lo <= hi <= |sizes|
  {
    Window(Max(Boundary(sizes, lo), range.start), Min(Boundary(sizes, hi), range.end))
  }

  /** `cuts` are the chunk indices at which the windows meet: window j holds
      the range's part of chunks cuts[j], .., cuts[j + 1] - 1. */
  ghost predicate Plan(sizes: seq<nat>, range: Window, per: nat, windows: seq<Window>, cuts: seq<nat>) {
    && |cuts| == |windows| + 1
    && cuts[0] < |sizes| && Boundary(sizes, cuts[0]) <= range.start < Boundary(sizes, cuts[0] + 1)
    && (forall j :: 0 <= j < |windows| ==> Planned(sizes, range, per, windows[j], cuts[j], cuts[j + 1]))
  }

  ghost predicate Planned(sizes: seq<nat>, range: Window, per: nat, w: Window, lo: nat, hi: nat) {
    lo < hi <= lo + per && hi <= |sizes| && w == Part(sizes, range, lo, hi)
  }

  lemma PlanStart(sizes: seq<nat>, range: Window, per: nat, i: nat)
    requires i < |sizes| && Boundary(sizes, i) <= range.start < Boundary(sizes, i + 1)
    ensures Plan(sizes, range, per, [], [i])
  {}

  lemma PlanPush(sizes: seq<nat>, range: Window, per: nat, windows: seq<Window>, cuts: seq<nat>, w: Window, hi: nat)
    requires Plan(sizes, range, per, windows, cuts) && Planned(sizes, range, per, w, cuts[|cuts| - 1], hi)
    ensures Plan(sizes, range, per, windows + [w], cuts + [hi])
  {
    var windows', cuts' := windows + [w], cuts + [hi];
    forall j | 0 <= j < |windows'| ensures Planned(sizes, range, per, windows'[j], cuts'[j], cuts'[j + 1]) {
      if j < |windows| { assert Planned(sizes, range, per, windows[j], cuts[j], cuts[j + 1]); }
    }
  }

  /** The whole range is planned. */
  ghost predicate Complete(sizes: seq<nat>, range: Window, cuts: seq<nat>) {
    && |cuts| > 1 && 0 < cuts[|cuts| - 1] <= |sizes|
    && Boundary(sizes, cuts[|cuts| - 1] - 1) < range.end <= Boundary(sizes, cuts[|cuts| - 1])
  }

  /** The first n windows each span the whole of `per` chunks. */
  ghost predicate Full(cuts: seq<nat>, per: nat, n: nat)
    requires n < |cuts|
  {
    forall j :: 0 <= j < n ==> cuts[j + 1] == cuts[j] + per
  }

  lemma FullStart(i: nat, per: nat)
    ensures Full([i], per, 0)
  {}

  lemma FullLess(cuts: seq<nat>, per: nat, n: nat)
    requires 1 <= n < |cuts| && Full(cuts, per, n)
    ensures Full(cuts, per, n - 1)
  {}

  lemma FullPush(cuts: seq<nat>, per: nat, n: nat)
    requires |cuts| == n + 1 && Full(cuts, per, n)
    ensures Full(cuts + [cuts[n] + per], per, n + 1)
  {}

  lemma FullBut(cuts: seq<nat>, per: nat, n: nat, last: nat)
    requires |cuts| == n + 1 && Full(cuts, per, n)
    ensures Full(cuts + [last], per, n)
  {}

  /** plan_windows. The range lies within the object, as the callers' does. */
  method PlanWindows(sizes: seq<nat>, range: Window, per: nat) returns (windows: seq<Window>, ghost cuts: seq<nat>)
    requires per > 0 && range.start < range.end <= Boundary(sizes, |sizes|)
    ensures Plan(sizes, range, per, windows, cuts) && Complete(sizes, range, cuts)
    ensures Tiles(windows, range.start, range.end)
    ensures windows != [] && |cuts| == |windows| + 1 && Full(cuts, per, |windows| - 1)
  {
    hide Plan, Tiles, Full, Boundary;
    BoundaryStart(sizes);
    windows := [];
    cuts := [];
    var windowStart: Option<nat> := None;
    var chunksInWindow := 0;
    var chunkStart := 0;
    var i := 0;
    while i < |sizes|
      invariant 0 <= i <= |sizes| && chunkStart == Boundary(sizes, i)
      invariant cuts == [] ==> windows == [] && windowStart == None && chunksInWindow == 0 && chunkStart <= range.start
      invariant cuts != [] ==> |cuts| == |windows| + 1 && Full(cuts, per, |windows|)
      invariant cuts != [] ==>
                  && Plan(sizes, range, per, windows, cuts)
                  && cuts[|cuts| - 1] + chunksInWindow == i && chunksInWindow < per && 0 < i
                  && (chunksInWindow == 0 ==> |cuts| > 1)
                  && range.start < chunkStart && Boundary(sizes, i - 1) < range.end
                  && windowStart == (if chunksInWindow == 0 then None
                                     else Some(Max(Boundary(sizes, cuts[|cuts| - 1]), range.start)))
    {
      var chunkEnd := Min(chunkStart + sizes[i], MAX_U64);
      if chunkStart >= range.end { break; }
      BoundaryStep(sizes, i);
      if chunkEnd > range.start {
        if windowStart == None { windowStart := Some(Max(chunkStart, range.start)); }
        if cuts == [] {
          PlanStart(sizes, range, per, i);
          cuts := [i];
          FullStart(i, per);
        }
        chunksInWindow := chunksInWindow + 1;
        if chunksInWindow == per {
          PlanPush(sizes, range, per, windows, cuts, Window(windowStart.value, Min(chunkEnd, range.end)), i + 1);
          FullPush(cuts, per, |windows|);
          windows := windows + [Window(windowStart.value, Min(chunkEnd, range.end))];
          cuts := cuts + [i + 1];
          windowStart := None;
          chunksInWindow := 0;
        }
      }
      chunkStart := chunkEnd;
      i := i + 1;
    }
    if windowStart.Some? {
      PlanPush(sizes, range, per, windows, cuts, Window(windowStart.value, range.end), i);
      FullBut(cuts, per, |windows|, i);
      windows := windows + [Window(windowStart.value, range.end)];
      cuts := cuts + [i];
    } else {
      FullLess(cuts, per, |windows|);
    }
    WindowsTile(sizes, range, per, windows, cuts);
  }

  // ----- what the plan means -----

  /** The windows follow each other without gap or overlap from `a` to `b`. */
  ghost predicate Tiles(windows: seq<Window>, a: nat, b: nat) {
    if windows == [] then a == b
    else windows[0].start == a && windows[0].start <= windows[0].end && Tiles(windows[1..], windows[0].end, b)
  }

  /** A window's two ends, seen from the cuts. */
  lemma WindowEnds(sizes: seq<nat>, range: Window, per: nat, windows: seq<Window>, cuts: seq<nat>, j: nat)
    requires Plan(sizes, range, per, windows, cuts) && Complete(sizes, range, cuts)
    requires j < |windows| && range.start < range.end
    ensures windows[j].start <= windows[j].end
    ensures j == 0 ==> windows[j].start == range.start
    ensures j + 1 == |windows| ==> windows[j].end == range.end
    ensures j + 1 < |windows| ==> windows[j].end == windows[j + 1].start == Boundary(sizes, cuts[j + 1])
  {
    hide Boundary;
    var m := |windows|;
    var lo, hi := cuts[j], cuts[j + 1];
    assert Planned(sizes, range, per, windows[j], lo, hi);
    CutsIncrease(sizes, range, per, windows, cuts, 0, j);
    CutsIncrease(sizes, range, per, windows, cuts, j + 1, m);
    BoundaryMonotone(sizes, lo, hi);
    BoundaryMonotone(sizes, lo, cuts[m] - 1);
    BoundaryMonotone(sizes, cuts[0] + 1, hi);
    if j > 0 {
      CutsIncrease(sizes, range, per, windows, cuts, 0, j - 1);
      BoundaryMonotone(sizes, cuts[0] + 1, lo);
    }
    if j + 1 < m {
      assert Planned(sizes, range, per, windows[j + 1], hi, cuts[j + 2]);
      CutsIncrease(sizes, range, per, windows, cuts, j + 2, m);
      BoundaryMonotone(sizes, hi, cuts[m] - 1);
    }
  }

  lemma {:induction false} CutsIncrease(sizes: seq<nat>, range: Window, per: nat, windows: seq<Window>,
                                        cuts: seq<nat>, i: nat, j: nat)
    requires Plan(sizes, range, per, windows, cuts) && i <= j <= |windows|
    ensures cuts[i] + (j - i) <= cuts[j]
  {
    if i < j {
      CutsIncrease(sizes, range, per, windows, cuts, i, j - 1);
      assert Planned(sizes, range, per, windows[j - 1], cuts[j - 1], cuts[j]);
    }
  }

  /** The windows cover the range exactly. */
  lemma WindowsTile(sizes: seq<nat>, range: Window, per: nat, windows: seq<Window>, cuts: seq<nat>)
    requires Plan(sizes, range, per, windows, cuts) && Complete(sizes, range, cuts) && range.start < range.end
    ensures Tiles(windows, range.start, range.end)
  {
    WindowEnds(sizes, range, per, windows, cuts, 0);
    TilesFrom(sizes, range, per, windows, cuts, 0);
    assert windows[0..] == windows;
  }

  lemma {:induction false} TilesFrom(sizes: seq<nat>, range: Window, per: nat, windows: seq<Window>, cuts: seq<nat>,
                                     j: nat)
    requires Plan(sizes, range, per, windows, cuts) && Complete(sizes, range, cuts) && range.start < range.end
    requires j < |windows|
    ensures Tiles(windows[j..], windows[j].start, range.end)
    decreases |windows| - j
  {
    hide Plan, Complete;
    WindowEnds(sizes, range, per, windows, cuts, j);
    assert windows[j..][0] == windows[j] && windows[j..][1..] == windows[j + 1..];
    if j + 1 < |windows| { TilesFrom(sizes, range, per, windows, cuts, j + 1); }
  }

  /** Chunk i and window w share a byte. */
  predicate Overlaps(sizes: seq<nat>, i: nat, w: Window)
    requires i < |sizes|
  {
    Max(Boundary(sizes, i), w.start) < Min(Boundary(sizes, i + 1), w.end)
  }

  /** Every chunk is fetched for exactly one window: a window overlaps just the
      chunks between its two cuts that the range itself overlaps, at most `per`. */
  lemma ChunkInOneWindow(sizes: seq<nat>, range: Window, per: nat, windows: seq<Window>, cuts: seq<nat>, i: nat, j: nat)
    requires Plan(sizes, range, per, windows, cuts) && Complete(sizes, range, cuts)
    requires i < |sizes| && j < |windows| && range.start < range.end
    ensures Overlaps(sizes, i, windows[j]) <==> Overlaps(sizes, i, range) && cuts[j] <= i < cuts[j + 1]
    ensures cuts[j + 1] - cuts[j] <= per
  {
    var lo, hi := cuts[j], cuts[j + 1];
    assert Planned(sizes, range, per, windows[j], lo, hi);
    if i < lo {
      BoundaryMonotone(sizes, i + 1, lo);
    } else if i >= hi {
      BoundaryMonotone(sizes, hi, i);
    } else {
      BoundaryMonotone(sizes, lo, i);
      BoundaryMonotone(sizes, i + 1, hi);
    }
  }

  /** Some window takes every chunk that the range overlaps. */
  lemma ChunkInSomeWindow(sizes: seq<nat>, range: Window, per: nat, windows: seq<Window>, cuts: seq<nat>,
                          i: nat) returns (j: nat)
    requires Plan(sizes, range, per, windows, cuts) && Complete(sizes, range, cuts)
    requires i < |sizes| && range.start < range.end && Overlaps(sizes, i, range)
    ensures j < |windows| && cuts[j] <= i < cuts[j + 1] && Overlaps(sizes, i, windows[j])
  {
    if i < cuts[0] { BoundaryMonotone(sizes, i + 1, cuts[0]); }
    if i >= cuts[|windows|] { BoundaryMonotone(sizes, cuts[|windows|], i); }
    j := 0;
    while cuts[j + 1] <= i
      invariant j < |windows| && cuts[j] <= i
      decreases |windows| - j
    {
      j := j + 1;
    }
    ChunkInOneWindow(sizes, range, per, windows, cuts, i, j);
  }

  // ----- the bytes -----

  function Slices<T>(object_: seq<T>, windows: seq<Window>): seq<seq<T>>
    requires forall j :: 0 <= j < |windows| ==> windows[j].start <= windows[j].end <= |object_|
  {
    if windows == [] then [] else [object_[windows[0].start..windows[0].end]] + Slices(object_, windows[1..])
  }

  lemma {:induction false} TilesWithin(windows: seq<Window>, a: nat, b: nat)
    requires Tiles(windows, a, b)
    ensures a <= b && forall j :: 0 <= j < |windows| ==> windows[j].start <= windows[j].end <= b
  {
    if windows != [] {
      TilesWithin(windows[1..], windows[0].end, b);
      assert forall j :: 1 <= j < |windows| ==> windows[j] == windows[1..][j - 1];
    }
  }

  /** Reading the windows one after the other is reading the range. */
  lemma {:induction false} SlicesConcatenate<T>(object_: seq<T>, windows: seq<Window>, a: nat, b: nat)
    requires Tiles(windows, a, b) && b <= |object_|
    ensures forall j :: 0 <= j < |windows| ==> windows[j].start <= windows[j].end <= |object_|
    ensures a <= b && Flatten(Slices(object_, windows)) == object_[a..b]
  {
    TilesWithin(windows, a, b);
    if windows != [] {
      var m := windows[0].end;
      SlicesConcatenate(object_, windows[1..], m, b);
      TilesWithin(windows[1..], m, b);
      assert Slices(object_, windows)[1..] == Slices(object_, windows[1..]);
      assert object_[a..b] == object_[a..m] + object_[m..b];
    }
  }
}
