/** Materializing window by window into the online store. */
module Materialization {
  import opened Windows

  /** A source row; `rank` is the offline store's tie-break between rows of one entity and timestamp. */
  datatype SourceRow = SourceRow(entity: string, ts: Time, rank: nat, value: string)

  type Online = map<string, SourceRow>

  predicate NotNewer(a: SourceRow, b: SourceRow) {
    a.ts < b.ts || (a.ts == b.ts && a.rank <= b.rank)
  }

  /** The tie-break decides: no two different rows of an entity share timestamp and rank. */
  ghost predicate Ranked(rows: seq<SourceRow>) {
    forall a, b :: a in rows && b in rows && a.entity == b.entity && a.ts == b.ts && a.rank == b.rank ==> a == b
  }

  /** One materialize call: BETWEEN lo AND hi, the latest row per entity. */
  function LatestIn(rows: seq<SourceRow>, lo: Time, hi: Time): Online {
    if rows == [] then map[]
    else
      var before, r := LatestIn(rows[..|rows| - 1], lo, hi), rows[|rows| - 1];
      if lo <= r.ts <= hi && (r.entity in before ==> NotNewer(before[r.entity], r)) then before[r.entity := r] else before
  }

  lemma {:induction false} LatestMeaning(rows: seq<SourceRow>, lo: Time, hi: Time)
    ensures var m := LatestIn(rows, lo, hi);
            && (forall e :: e in m ==> m[e] in rows && m[e].entity == e && lo <= m[e].ts <= hi)
            && (forall r :: r in rows && lo <= r.ts <= hi ==> r.entity in m && NotNewer(r, m[r.entity]) && r.ts <= m[r.entity].ts)
  {
    if rows != [] {
      LatestMeaning(rows[..|rows| - 1], lo, hi);
    }
  }

  function Materialize(store: Online, rows: seq<SourceRow>, w: Window): Online {
    store + LatestIn(rows, w.lo, w.hi)
  }

  /** Window after window, in the order they were cut. */
  function Fold(store: Online, rows: seq<SourceRow>, ws: seq<Window>): Online
    decreases |ws|
  {
    if ws == [] then store
    else Fold(Materialize(store, rows, ws[0]), rows, ws[1..])
  }

  ghost predicate Same(a: Online, b: Online, e: string) {
    && (e in a <==> e in b)
    && (e in a ==> a[e] == b[e])
  }

  ghost predicate IsLatest(rows: seq<SourceRow>, lo: Time, hi: Time, e: string, best: SourceRow) {
    && best in rows && best.entity == e && lo <= best.ts <= hi
    && forall r :: r in rows && r.entity == e && lo <= r.ts <= hi ==> NotNewer(r, best)
  }

  lemma LatestIsLatest(rows: seq<SourceRow>, lo: Time, hi: Time, e: string)
    ensures e in LatestIn(rows, lo, hi) ==> IsLatest(rows, lo, hi, e, LatestIn(rows, lo, hi)[e])
    ensures e !in LatestIn(rows, lo, hi) ==> forall r :: r in rows && r.entity == e ==> !(lo <= r.ts <= hi)
  {
    LatestMeaning(rows, lo, hi);
  }

  /** Between two ranges, one inside the other, that both hold a latest row, those agree once the inner
      range reaches the outer one's latest row. */
  lemma LatestUnique(rows: seq<SourceRow>, start: Time, end: Time, lo: Time, hi: Time, e: string, a: SourceRow, b: SourceRow)
    requires Ranked(rows) && start <= lo && hi <= end
    requires IsLatest(rows, start, end, e, a) && IsLatest(rows, lo, hi, e, b) && lo <= a.ts
    ensures a.ts <= hi ==> a == b
    ensures b.ts <= a.ts
  {
    assert NotNewer(b, a);
    if a.ts <= hi {
      assert NotNewer(a, b);
    }
  }

  /** In any window that reaches entity `e`'s latest row, that row is what is written; a window above it
      writes nothing for `e`. */
  lemma LatestAgain(rows: seq<SourceRow>, start: Time, end: Time, lo: Time, hi: Time, e: string, best: SourceRow)
    requires Ranked(rows) && start <= lo && hi <= end && IsLatest(rows, start, end, e, best)
    ensures lo <= best.ts <= hi ==> e in LatestIn(rows, lo, hi) && LatestIn(rows, lo, hi)[e] == best
    ensures best.ts < lo ==> e !in LatestIn(rows, lo, hi)
  {
    LatestIsLatest(rows, lo, hi, e);
    if e in LatestIn(rows, lo, hi) {
      var r := LatestIn(rows, lo, hi)[e];
      assert NotNewer(r, best);
      if lo <= best.ts <= hi {
        LatestUnique(rows, start, end, lo, hi, e, best, r);
      }
    }
  }

  /** Walking on along the edges: if `e`'s latest row is stored whenever the walk stands at or above its
      timestamp, it is stored at the end, where the walk is above it. */
  lemma {:induction false} WalkStoresLatest(store: Online, rows: seq<SourceRow>, start: Time, end: Time, edges: seq<Time>, e: string)
    requires Ranked(rows) && edges != [] && AllWithin(edges, start, end)
    requires e in LatestIn(rows, start, end) && LatestIn(rows, start, end)[e].ts <= edges[|edges| - 1]
    requires LatestIn(rows, start, end)[e].ts <= edges[0] ==> e in store && store[e] == LatestIn(rows, start, end)[e]
    ensures var out := Fold(store, rows, PairUp(edges));
            e in out && out[e] == LatestIn(rows, start, end)[e]
    decreases |edges|
  {
    if |edges| > 1 {
      var best := LatestIn(rows, start, end)[e];
      var first := if edges[0] < edges[1] then [Window(edges[0], edges[1])] else [];
      var next := if edges[0] < edges[1] then Materialize(store, rows, Window(edges[0], edges[1])) else store;
      FoldStep(store, rows, first, PairUp(edges[1..]));
      if edges[0] < edges[1] && best.ts <= edges[1] {
        LatestIsLatest(rows, start, end, e);
        LatestAgain(rows, start, end, edges[0], edges[1], e, best);
      }
      WalkStoresLatest(next, rows, start, end, edges[1..], e);
    }
  }

  lemma FoldStep(store: Online, rows: seq<SourceRow>, first: seq<Window>, rest: seq<Window>)
    requires |first| <= 1
    ensures Fold(store, rows, first + rest) == Fold(if first == [] then store else Materialize(store, rows, first[0]), rows, rest)
  {
    if first == [] {
      assert first + rest == rest;
    } else {
      assert (first + rest)[1..] == rest;
    }
  }

  /** Windows inside the range touch only entities that have a row there. */
  lemma {:induction false} FoldLeavesOthers(store: Online, rows: seq<SourceRow>, start: Time, end: Time, ws: seq<Window>, e: string)
    requires forall i :: 0 <= i < |ws| ==> start <= ws[i].lo && ws[i].hi <= end
    requires e !in LatestIn(rows, start, end)
    ensures Same(Fold(store, rows, ws), store, e)
    decreases |ws|
  {
    if ws != [] {
      LatestIsLatest(rows, start, end, e);
      LatestIsLatest(rows, ws[0].lo, ws[0].hi, e);
      assert e !in LatestIn(rows, ws[0].lo, ws[0].hi);
      FoldLeavesOthers(Materialize(store, rows, ws[0]), rows, start, end, ws[1..], e);
    }
  }

  /** Chunked materialization equals one unbounded call, for any boundary list: each boundary row falls
      into two windows, the list may even be unsorted, and still every entity ends at its latest row. */
  lemma ChunkedEqualsUnbounded(store: Online, rows: seq<SourceRow>, start: Time, end: Time, boundaries: seq<Time>)
    requires Ranked(rows) && start < end
    ensures Fold(store, rows, Cut(start, end, boundaries)) == Materialize(store, rows, Window(start, end))
  {
    var ws := Cut(start, end, boundaries);
    var edges := Edges(start, end, boundaries);
    EdgesWithin(start, end, boundaries);
    PairsStayWithin(edges, start, end);
    var out, want := Fold(store, rows, ws), Materialize(store, rows, Window(start, end));
    forall e
      ensures Same(out, want, e)
    {
      if e in LatestIn(rows, start, end) {
        FirstWindowIsWritten(start, end, boundaries);
        var next := Materialize(store, rows, Window(edges[0], edges[1]));
        FoldStep(store, rows, [Window(edges[0], edges[1])], PairUp(edges[1..]));
        LatestIsLatest(rows, start, end, e);
        LatestAgain(rows, start, end, edges[0], edges[1], e, LatestIn(rows, start, end)[e]);
        WalkStoresLatest(next, rows, start, end, edges[1..], e);
      } else {
        FoldLeavesOthers(store, rows, start, end, ws, e);
      }
    }
    assert out.Keys == want.Keys by {
      assert forall e :: e in out <==> Same(out, want, e) && e in want;
    }
    assert forall e :: e in out ==> Same(out, want, e);
  }

  lemma FirstWindowIsWritten(start: Time, end: Time, boundaries: seq<Time>)
    requires start < end
    ensures Edges(start, end, boundaries)[0] == start < Edges(start, end, boundaries)[1]
    ensures Edges(start, end, boundaries)[|Edges(start, end, boundaries)| - 1] == end
  {
    InteriorIsInside(start, end, boundaries);
    var inner := Interior(start, end, boundaries);
    assert inner != [] ==> inner[0] in inner;
  }

  /** An attempt that stopped anywhere, then a full retry: the store is as if the first had never run. */
  lemma RetryAfterPartialAttempt(store: Online, partial: Online, rows: seq<SourceRow>, start: Time, end: Time, boundaries: seq<Time>)
    requires Ranked(rows) && start < end
    requires forall e :: e !in LatestIn(rows, start, end) ==> Same(partial, store, e)
    ensures Fold(partial, rows, Cut(start, end, boundaries)) == Fold(store, rows, Cut(start, end, boundaries))
  {
    ChunkedEqualsUnbounded(store, rows, start, end, boundaries);
    ChunkedEqualsUnbounded(partial, rows, start, end, boundaries);
    var latest := LatestIn(rows, start, end);
    forall e
      ensures Same(partial + latest, store + latest, e)
    {
    }
    assert (partial + latest).Keys == (store + latest).Keys by {
      assert forall e :: e in partial + latest <==> Same(partial + latest, store + latest, e) && e in store + latest;
    }
    assert forall e :: e in partial + latest ==> Same(partial + latest, store + latest, e);
  }
}
