/** Cutting a time range into materialization windows by row number. */
module Windows {

  type Time = int  // microseconds

  datatype Window = Window(lo: Time, hi: Time)

  function Interior(start: Time, end: Time, boundaries: seq<Time>): seq<Time> {
    if boundaries == [] then []
    else (if start < boundaries[0] < end then [boundaries[0]] else []) + Interior(start, end, boundaries[1..])
  }

  function Edges(start: Time, end: Time, boundaries: seq<Time>): seq<Time> {
    [start] + Interior(start, end, boundaries) + [end]
  }

  /** Consecutive edges, without empty or reversed pairs. */
  function PairUp(edges: seq<Time>): seq<Window> {
    if |edges| < 2 then []
    else (if edges[0] < edges[1] then [Window(edges[0], edges[1])] else []) + PairUp(edges[1..])
  }

  function Cut(start: Time, end: Time, boundaries: seq<Time>): seq<Window> {
    PairUp(Edges(start, end, boundaries))
  }

  ghost predicate Covers(ws: seq<Window>, t: Time) {
    exists i :: 0 <= i < |ws| && ws[i].lo <= t <= ws[i].hi
  }

  ghost predicate Sorted(ts: seq<Time>) {
    forall i, j :: 0 <= i < j < |ts| ==> ts[i] <= ts[j]
  }

  ghost predicate AllWithin(ts: seq<Time>, lo: Time, hi: Time) {
    forall i :: 0 <= i < |ts| ==> lo <= ts[i] <= hi
  }

  // ----- coverage, for every boundary list -----

  lemma {:induction false} InteriorIsInside(start: Time, end: Time, boundaries: seq<Time>)
    ensures forall t :: t in Interior(start, end, boundaries) <==> t in boundaries && start < t < end
  {
    if boundaries != [] {
      InteriorIsInside(start, end, boundaries[1..]);
      assert boundaries == [boundaries[0]] + boundaries[1..];
    }
  }

  lemma {:induction false} EmptyInterior(start: Time, end: Time, boundaries: seq<Time>)
    requires start >= end
    ensures Interior(start, end, boundaries) == []
  {
    if boundaries != [] {
      EmptyInterior(start, end, boundaries[1..]);
    }
  }

  lemma CoversMore(w: seq<Window>, ws: seq<Window>, t: Time)
    requires Covers(ws, t)
    ensures Covers(w + ws, t)
  {
    var i :| 0 <= i < |ws| && ws[i].lo <= t <= ws[i].hi;
    assert (w + ws)[|w| + i] == ws[i];
  }

  /** A walk that starts at or below `t` and ends above it, or starts below and ends at or above, crosses
      `t` inside some emitted window, however it wanders in between. */
  lemma {:induction false} WalkCrosses(edges: seq<Time>, t: Time)
    requires |edges| >= 2
    requires edges[0] <= t <= edges[|edges| - 1] && (edges[0] < t || t < edges[|edges| - 1])
    ensures Covers(PairUp(edges), t)
  {
    if edges[0] < edges[1] && t <= edges[1] {
      assert PairUp(edges)[0] == Window(edges[0], edges[1]);
    } else {
      WalkCrosses(edges[1..], t);
      CoversMore(if edges[0] < edges[1] then [Window(edges[0], edges[1])] else [], PairUp(edges[1..]), t);
    }
  }

  lemma {:induction false} PairsStayWithin(edges: seq<Time>, lo: Time, hi: Time)
    requires AllWithin(edges, lo, hi)
    ensures forall i :: 0 <= i < |PairUp(edges)| ==> lo <= PairUp(edges)[i].lo < PairUp(edges)[i].hi <= hi
  {
    if |edges| >= 2 {
      PairsStayWithin(edges[1..], lo, hi);
    }
  }

  lemma EdgesWithin(start: Time, end: Time, boundaries: seq<Time>)
    requires start <= end
    ensures AllWithin(Edges(start, end, boundaries), start, end)
  {
    InteriorIsInside(start, end, boundaries);
    var inner := Interior(start, end, boundaries);
    forall i | 0 <= i < |inner|
      ensures start < inner[i] < end
    {
      assert inner[i] in inner;
    }
  }

  /** For any boundary list, sorted or not, with duplicates or out-of-range values: the windows cover
      exactly [start, end], none is empty, and an empty range yields none. */
  lemma WindowsCoverTheRange(start: Time, end: Time, boundaries: seq<Time>, t: Time)
    ensures start < end ==> (Covers(Cut(start, end, boundaries), t) <==> start <= t <= end)
    ensures start >= end ==> Cut(start, end, boundaries) == []
    ensures forall i :: 0 <= i < |Cut(start, end, boundaries)| ==> Cut(start, end, boundaries)[i].lo < Cut(start, end, boundaries)[i].hi
  {
    var edges := Edges(start, end, boundaries);
    InteriorIsInside(start, end, boundaries);
    if start < end {
      EdgesWithin(start, end, boundaries);
      PairsStayWithin(edges, start, end);
      if start <= t <= end {
        WalkCrosses(edges, t);
      }
    } else {
      EmptyInterior(start, end, boundaries);
      assert edges == [start, end];
      assert PairUp(edges[1..]) == [];
    }
  }

  // ----- tiling, for sorted boundary lists -----

  /** Non-empty windows, each starting where the one before ended, from `a` to `b`. */
  ghost predicate Tiles(ws: seq<Window>, a: Time, b: Time) {
    if ws == [] then a == b
    else ws[0].lo == a && a < ws[0].hi && Tiles(ws[1..], ws[0].hi, b)
  }

  lemma {:induction false} SortedPairsTile(edges: seq<Time>)
    requires edges != [] && Sorted(edges)
    ensures Tiles(PairUp(edges), edges[0], edges[|edges| - 1])
  {
    if |edges| >= 2 {
      SortedPairsTile(edges[1..]);
      var first := if edges[0] < edges[1] then [Window(edges[0], edges[1])] else [];
      assert first != [] ==> (first + PairUp(edges[1..]))[1..] == PairUp(edges[1..]);
      assert first == [] ==> first + PairUp(edges[1..]) == PairUp(edges[1..]);
    }
  }

  lemma {:induction false} InteriorSorted(start: Time, end: Time, boundaries: seq<Time>)
    requires Sorted(boundaries)
    ensures Sorted(Interior(start, end, boundaries))
  {
    if boundaries != [] {
      InteriorSorted(start, end, boundaries[1..]);
      InteriorIsInside(start, end, boundaries[1..]);
      var inner := Interior(start, end, boundaries[1..]);
      forall j | 0 <= j < |inner|
        ensures boundaries[0] <= inner[j]
      {
        assert inner[j] in inner;
        var k :| 0 <= k < |boundaries[1..]| && boundaries[1..][k] == inner[j];
      }
    }
  }

  lemma EdgesSorted(start: Time, end: Time, boundaries: seq<Time>)
    requires start <= end && Sorted(boundaries)
    ensures Sorted(Edges(start, end, boundaries))
  {
    InteriorSorted(start, end, boundaries);
    EdgesWithin(start, end, boundaries);
  }

  lemma WindowsTile(start: Time, end: Time, boundaries: seq<Time>)
    requires start <= end && Sorted(boundaries)
    ensures Tiles(Cut(start, end, boundaries), start, end)
  {
    EdgesSorted(start, end, boundaries);
    SortedPairsTile(Edges(start, end, boundaries));
  }

  /** A tiling is contiguous and its windows have disjoint interiors, in order. */
  lemma {:induction false} TilesAreContiguous(ws: seq<Window>, a: Time, b: Time)
    requires Tiles(ws, a, b) && ws != []
    ensures ws[0].lo == a && ws[|ws| - 1].hi == b
    ensures forall i :: 0 <= i < |ws| - 1 ==> ws[i].hi == ws[i + 1].lo
    ensures forall i, j :: 0 <= i < j < |ws| ==> ws[i].hi <= ws[j].lo
    ensures forall i :: 0 <= i < |ws| ==> a <= ws[i].lo < ws[i].hi <= b
  {
    if |ws| > 1 {
      TilesAreContiguous(ws[1..], ws[0].hi, b);
      assert forall i :: 0 < i < |ws| ==> ws[i] == ws[1..][i - 1];
    } else {
      assert ws[1..] == [];
    }
  }

  // ----- window size -----

  /** Rows strictly inside, on, and in the closed window. */
  function Inside(ts: seq<Time>, lo: Time, hi: Time): nat {
    if ts == [] then 0 else Inside(ts[..|ts| - 1], lo, hi) + if lo < ts[|ts| - 1] < hi then 1 else 0
  }
  function At(ts: seq<Time>, t: Time): nat {
    if ts == [] then 0 else At(ts[..|ts| - 1], t) + if ts[|ts| - 1] == t then 1 else 0
  }
  /** What BETWEEN lo AND hi returns. */
  function InClosed(ts: seq<Time>, lo: Time, hi: Time): nat {
    if ts == [] then 0 else InClosed(ts[..|ts| - 1], lo, hi) + if lo <= ts[|ts| - 1] <= hi then 1 else 0
  }

  /** Every `chunkRows`-th of the sorted timestamps: row_number() % chunk_rows = 0. */
  function EveryNth(ts: seq<Time>, chunkRows: nat): seq<Time>
    requires 0 < chunkRows
  {
    if |ts| < chunkRows then [] else [ts[chunkRows - 1]] + EveryNth(ts[chunkRows..], chunkRows)
  }

  /** The rows the boundary query looks at. */
  function Selected(ts: seq<Time>, start: Time, end: Time): seq<Time> {
    if ts == [] then []
    else Selected(ts[..|ts| - 1], start, end) + if start <= ts[|ts| - 1] <= end then [ts[|ts| - 1]] else []
  }

  lemma {:induction false} ClosedIsInsidePlusEnds(ts: seq<Time>, lo: Time, hi: Time)
    requires lo < hi
    ensures InClosed(ts, lo, hi) == Inside(ts, lo, hi) + At(ts, lo) + At(ts, hi)
  {
    if ts != [] {
      ClosedIsInsidePlusEnds(ts[..|ts| - 1], lo, hi);
    }
  }

  lemma {:induction false} SelectionKeepsWindows(ts: seq<Time>, start: Time, end: Time, lo: Time, hi: Time)
    requires start <= lo && hi <= end
    ensures Inside(Selected(ts, start, end), lo, hi) == Inside(ts, lo, hi)
  {
    if ts != [] {
      var init, last := ts[..|ts| - 1], ts[|ts| - 1];
      SelectionKeepsWindows(init, start, end, lo, hi);
      if start <= last <= end {
        assert (Selected(init, start, end) + [last])[..|Selected(init, start, end)|] == Selected(init, start, end);
      } else {
        assert Selected(ts, start, end) == Selected(init, start, end);
      }
    }
  }

  lemma {:induction false} SelectedSorted(ts: seq<Time>, start: Time, end: Time)
    requires Sorted(ts)
    ensures Sorted(Selected(ts, start, end))
    ensures forall t :: t in Selected(ts, start, end) ==> t in ts
  {
    if ts != [] {
      var init := ts[..|ts| - 1];
      SelectedSorted(init, start, end);
      forall i | 0 <= i < |Selected(init, start, end)|
        ensures Selected(init, start, end)[i] <= ts[|ts| - 1]
      {
        assert Selected(init, start, end)[i] in Selected(init, start, end);
        assert Selected(init, start, end)[i] in init;
      }
    }
  }

  /** If every row inside the window has its index in [a, b), there are at most b - a of them. */
  lemma {:induction false} InsideAtMost(ts: seq<Time>, lo: Time, hi: Time, a: nat, b: nat)
    requires a <= b
    requires forall i :: 0 <= i < |ts| && lo < ts[i] < hi ==> a <= i < b
    ensures Inside(ts, lo, hi) <= b - a
  {
    if ts != [] {
      var n := |ts| - 1;
      if lo < ts[n] < hi {
        InsideAtMost(ts[..n], lo, hi, a, n);
      } else {
        InsideAtMost(ts[..n], lo, hi, a, b);
      }
    }
  }

  lemma {:induction false} EveryNthHas(ts: seq<Time>, chunkRows: nat, q: nat)
    requires 0 < chunkRows && (q + 1) * chunkRows <= |ts|
    ensures ts[(q + 1) * chunkRows - 1] in EveryNth(ts, chunkRows)
    decreases q
  {
    if q == 0 {
      assert EveryNth(ts, chunkRows)[0] == ts[chunkRows - 1];
    } else {
      var rest := ts[chunkRows..];
      assert (q + 1) * chunkRows == q * chunkRows + chunkRows;
      EveryNthHas(rest, chunkRows, q - 1);
      assert rest[q * chunkRows - 1] == ts[(q + 1) * chunkRows - 1];
      assert rest[q * chunkRows - 1] in EveryNth(rest, chunkRows);
    }
  }

  lemma {:induction false} EveryNthComesFrom(ts: seq<Time>, chunkRows: nat)
    requires 0 < chunkRows && Sorted(ts)
    ensures Sorted(EveryNth(ts, chunkRows))
    ensures forall t :: t in EveryNth(ts, chunkRows) ==> t in ts
    decreases |ts|
  {
    if |ts| >= chunkRows {
      var rest := ts[chunkRows..];
      EveryNthComesFrom(rest, chunkRows);
      var tail := EveryNth(rest, chunkRows);
      forall j | 0 <= j < |tail|
        ensures ts[chunkRows - 1] <= tail[j]
      {
        assert tail[j] in tail && tail[j] in rest;
        var k :| 0 <= k < |rest| && rest[k] == tail[j];
        assert rest[k] == ts[chunkRows + k];
      }
    }
  }

  /** The cuts are exactly the rows whose number is a multiple of `chunkRows`, in order. */
  lemma {:induction false} EveryNthExactly(ts: seq<Time>, chunkRows: nat, k: nat)
    requires 0 < chunkRows
    ensures k < |EveryNth(ts, chunkRows)| <==> (k + 1) * chunkRows <= |ts|
    ensures k < |EveryNth(ts, chunkRows)| ==> (k + 1) * chunkRows <= |ts| && EveryNth(ts, chunkRows)[k] == ts[(k + 1) * chunkRows - 1]
    decreases k
  {
    if |ts| < chunkRows {
      assert chunkRows <= (k + 1) * chunkRows;
    } else if k != 0 {
      EveryNthExactly(ts[chunkRows..], chunkRows, k - 1);
      assert (k + 1) * chunkRows == k * chunkRows + chunkRows;
    }
  }

  /** The boundary query looks at exactly the rows in the range, each as often as it occurs. */
  lemma {:induction false} SelectedExactly(ts: seq<Time>, start: Time, end: Time, t: Time)
    ensures At(Selected(ts, start, end), t) == if start <= t <= end then At(ts, t) else 0
  {
    if ts != [] {
      var init, last := ts[..|ts| - 1], ts[|ts| - 1];
      SelectedExactly(init, start, end, t);
      if start <= last <= end {
        assert (Selected(init, start, end) + [last])[..|Selected(init, start, end)|] == Selected(init, start, end);
      } else {
        assert Selected(ts, start, end) == Selected(init, start, end);
      }
    }
  }

  /** Between two cuts fewer than `chunkRows` rows fit: a stretch of `chunkRows` consecutive rows holds one
      whose number is a multiple of it. */
  lemma FewRowsBetweenCuts(ts: seq<Time>, chunkRows: nat, lo: Time, hi: Time)
    requires 0 < chunkRows && Sorted(ts)
    requires forall t :: t in EveryNth(ts, chunkRows) ==> !(lo < t < hi)
    ensures Inside(ts, lo, hi) <= chunkRows - 1
  {
    if i :| 0 <= i < |ts| && lo < ts[i] < hi {
      var q := i / chunkRows;
      DivMod(i, chunkRows);
      forall j | 0 <= j < |ts| && lo < ts[j] < hi
        ensures q * chunkRows <= j < q * chunkRows + chunkRows - 1
      {
        SameStretch(ts, chunkRows, lo, hi, i, j, q, q * chunkRows);
      }
      InsideAtMost(ts, lo, hi, q * chunkRows, q * chunkRows + chunkRows - 1);
    } else {
      InsideAtMost(ts, lo, hi, 0, 0);
    }
  }

  lemma SameStretch(ts: seq<Time>, chunkRows: nat, lo: Time, hi: Time, i: nat, j: nat, q: nat, a: nat)
    requires 0 < chunkRows && Sorted(ts)
    requires forall t :: t in EveryNth(ts, chunkRows) ==> !(lo < t < hi)
    requires i < |ts| && lo < ts[i] < hi && j < |ts| && lo < ts[j] < hi
    requires a == q * chunkRows && a <= i < a + chunkRows
    ensures a <= j < a + chunkRows - 1
  {
    if j < a {
      assert ((q - 1) + 1) * chunkRows == a;
      EveryNthHas(ts, chunkRows, q - 1);
    } else if a + chunkRows - 1 <= j {
      assert (q + 1) * chunkRows == a + chunkRows;
      EveryNthHas(ts, chunkRows, q);
    }
  }

  lemma DivMod(i: nat, d: nat)
    requires 0 < d
    ensures i / d * d <= i < i / d * d + d
  {
    assert i == i / d * d + i % d;
  }

  lemma {:induction false} NoEdgeInside(edges: seq<Time>)
    requires Sorted(edges)
    ensures forall i, k :: 0 <= i < |PairUp(edges)| && 0 <= k < |edges| ==>
      !(PairUp(edges)[i].lo < edges[k] < PairUp(edges)[i].hi)
  {
    if |edges| >= 2 {
      var rest := PairUp(edges[1..]);
      NoEdgeInside(edges[1..]);
      assert AllWithin(edges[1..], edges[1], edges[|edges| - 1]);
      PairsStayWithin(edges[1..], edges[1], edges[|edges| - 1]);
      assert forall k :: 0 < k < |edges| ==> edges[k] == edges[1..][k - 1];
    }
  }

  /** Windows cut at every `chunkRows`-th row of the range hold at most chunkRows - 1 rows strictly inside,
      so at most that plus the rows that share their two end timestamps: also the first window, the last
      one, and a resumed range. */
  lemma WindowsAreBounded(ts: seq<Time>, start: Time, end: Time, chunkRows: nat, i: nat)
    requires 0 < chunkRows && Sorted(ts)
    requires i < |Cut(start, end, EveryNth(Selected(ts, start, end), chunkRows))|
    ensures var w := Cut(start, end, EveryNth(Selected(ts, start, end), chunkRows))[i];
            && Inside(ts, w.lo, w.hi) <= chunkRows - 1
            && InClosed(ts, w.lo, w.hi) <= chunkRows - 1 + At(ts, w.lo) + At(ts, w.hi)
  {
    var rows := Selected(ts, start, end);
    var cuts := EveryNth(rows, chunkRows);
    WindowsCoverTheRange(start, end, cuts, start);
    assert start < end;
    SelectedSorted(ts, start, end);
    EveryNthComesFrom(rows, chunkRows);
    EdgesSorted(start, end, cuts);
    EdgesWithin(start, end, cuts);
    var edges := Edges(start, end, cuts);
    PairsStayWithin(edges, start, end);
    NoEdgeInside(edges);
    InteriorIsInside(start, end, cuts);
    var w := Cut(start, end, cuts)[i];
    var inner := Interior(start, end, cuts);
    assert forall k :: 0 <= k < |inner| ==> inner[k] == edges[k + 1];
    forall t | t in cuts
      ensures !(w.lo < t < w.hi)
    {
      assert t in inner ==> t in edges;
    }
    FewRowsBetweenCuts(rows, chunkRows, w.lo, w.hi);
    SelectionKeepsWindows(ts, start, end, w.lo, w.hi);
    ClosedIsInsidePlusEnds(ts, w.lo, w.hi);
  }

  lemma {:induction false} DistinctAtMostOne(ts: seq<Time>, t: Time)
    requires forall i, j :: 0 <= i < j < |ts| ==> ts[i] != ts[j]
    ensures At(ts, t) <= 1
    ensures t !in ts ==> At(ts, t) == 0
  {
    if ts != [] {
      var init, last := ts[..|ts| - 1], ts[|ts| - 1];
      DistinctAtMostOne(init, t);
      assert last !in init;
    }
  }

  /** With distinct timestamps a window loads at most chunkRows + 1 rows. */
  lemma DistinctTimestampsBound(ts: seq<Time>, start: Time, end: Time, chunkRows: nat, i: nat)
    requires 0 < chunkRows && Sorted(ts)
    requires forall j, k :: 0 <= j < k < |ts| ==> ts[j] != ts[k]
    requires i < |Cut(start, end, EveryNth(Selected(ts, start, end), chunkRows))|
    ensures var w := Cut(start, end, EveryNth(Selected(ts, start, end), chunkRows))[i];
            InClosed(ts, w.lo, w.hi) <= chunkRows + 1
  {
    WindowsAreBounded(ts, start, end, chunkRows, i);
    var w := Cut(start, end, EveryNth(Selected(ts, start, end), chunkRows))[i];
    DistinctAtMostOne(ts, w.lo);
    DistinctAtMostOne(ts, w.hi);
  }
}
