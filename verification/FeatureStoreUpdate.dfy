/** The pipeline task that materializes a run's rows through the feature server. */
module FeatureStoreUpdate {
  import opened Windows
  import opened Materialization

  /** Padding past the newest row, one microsecond. */
  const WINDOW_END_PAD: Time := 1

  /** The windows of one run, from the sorted timestamps of the rows it inserted. */
  function WindowsForRun(ts: seq<Time>, chunkRows: nat): seq<Window>
    requires 0 < chunkRows
  {
    if ts == [] then []
    else Cut(ts[0], ts[|ts| - 1] + WINDOW_END_PAD, EveryNth(ts, chunkRows))
  }

  /** Every row of the run is materialized, also the newest one and also when all share one timestamp; a
      run that inserted nothing asks for nothing. */
  lemma EveryRunRowIsCovered(ts: seq<Time>, chunkRows: nat, t: Time)
    requires 0 < chunkRows && Sorted(ts)
    ensures t in ts ==> Covers(WindowsForRun(ts, chunkRows), t)
    ensures WindowsForRun(ts, chunkRows) == [] <==> ts == []
  {
    if ts != [] {
      var end := ts[|ts| - 1] + WINDOW_END_PAD;
      WindowsCoverTheRange(ts[0], end, EveryNth(ts, chunkRows), t);
      WindowsCoverTheRange(ts[0], end, EveryNth(ts, chunkRows), ts[0]);
    }
  }

  /** The row bound for the run's own rows. The server also loads other runs' rows that fall into the same
      window; those are not bounded by the cut. */
  lemma RunWindowsAreBounded(ts: seq<Time>, chunkRows: nat, i: nat)
    requires 0 < chunkRows && Sorted(ts) && i < |WindowsForRun(ts, chunkRows)|
    ensures var w := WindowsForRun(ts, chunkRows)[i];
            && Inside(ts, w.lo, w.hi) <= chunkRows - 1
            && InClosed(ts, w.lo, w.hi) <= chunkRows - 1 + At(ts, w.lo) + At(ts, w.hi)
            && ((forall j, k :: 0 <= j < k < |ts| ==> ts[j] != ts[k]) ==> InClosed(ts, w.lo, w.hi) <= chunkRows + 1)
  {
    var end := ts[|ts| - 1] + WINDOW_END_PAD;
    AllSelected(ts, ts[0], end);
    WindowsAreBounded(ts, ts[0], end, chunkRows, i);
    if forall j, k :: 0 <= j < k < |ts| ==> ts[j] != ts[k] {
      DistinctTimestampsBound(ts, ts[0], end, chunkRows, i);
    }
  }

  lemma {:induction false} AllSelected(ts: seq<Time>, start: Time, end: Time)
    requires AllWithin(ts, start, end)
    ensures Selected(ts, start, end) == ts
  {
    if ts != [] {
      AllSelected(ts[..|ts| - 1], start, end);
    }
  }

  /** A run's windows stay within its own rows, but for the microsecond past the newest. */
  lemma RunWindowsStayInside(ts: seq<Time>, chunkRows: nat, i: nat)
    requires 0 < chunkRows && Sorted(ts) && i < |WindowsForRun(ts, chunkRows)|
    ensures ts[0] <= WindowsForRun(ts, chunkRows)[i].lo && WindowsForRun(ts, chunkRows)[i].hi <= ts[|ts| - 1] + 1
  {
    var end := ts[|ts| - 1] + WINDOW_END_PAD;
    EdgesWithin(ts[0], end, EveryNth(ts, chunkRows));
    PairsStayWithin(Edges(ts[0], end, EveryNth(ts, chunkRows)), ts[0], end);
  }

  /** How a call ends: answered, or failed after writing some of the entities of its window. */
  datatype Reply = Answered | Failed(written: set<string>)

  class FeatureServer {
    var online: Online
    var script: seq<Reply>

    constructor (script: seq<Reply>)
      ensures online == map[] && this.script == script
    {
      online, this.script := map[], script;
    }

    method Post(rows: seq<SourceRow>, w: Window) returns (raised: bool)
      modifies this
      ensures !raised ==> online == Materialize(old(online), rows, w)
      ensures forall e :: e !in LatestIn(rows, w.lo, w.hi) ==> Same(online, old(online), e)
      ensures raised <==> old(script) != [] && old(script)[0].Failed?
    {
      var reply := Answered;
      if script != [] {
        reply, script := script[0], script[1..];
      }
      var latest := LatestIn(rows, w.lo, w.hi);
      match reply {
        case Answered => online := online + latest; raised := false;
        case Failed(written) => online := online + (map e | e in latest && e in written :: latest[e]); raised := true;
      }
    }
  }

  /** One call per window. A normal return leaves what one unbounded call would have left; an exception
      leaves a store from which a full retry still reaches exactly that. */
  method UpdateFeatureStore(server: FeatureServer, rows: seq<SourceRow>, ts: seq<Time>, chunkRows: nat)
    returns (raised: bool, windows: nat)
    requires 0 < chunkRows && Sorted(ts) && Ranked(rows)
    modifies server
    ensures ts == [] ==> !raised && windows == 0 && server.online == old(server.online)
    ensures ts != [] && !raised ==>
      && server.online == Materialize(old(server.online), rows, Window(ts[0], ts[|ts| - 1] + WINDOW_END_PAD))
      && windows == |WindowsForRun(ts, chunkRows)|
    ensures ts != [] && raised ==>
      Fold(server.online, rows, WindowsForRun(ts, chunkRows)) == Materialize(old(server.online), rows, Window(ts[0], ts[|ts| - 1] + WINDOW_END_PAD))
  {
    var ws := WindowsForRun(ts, chunkRows);
    ghost var before := server.online;
    ghost var start, end := if ts == [] then 0 else ts[0], if ts == [] then 1 else ts[|ts| - 1] + WINDOW_END_PAD;
    if ts != [] {
      EdgesWithin(start, end, EveryNth(ts, chunkRows));
      PairsStayWithin(Edges(start, end, EveryNth(ts, chunkRows)), start, end);
      ChunkedEqualsUnbounded(before, rows, start, end, EveryNth(ts, chunkRows));
    }
    windows := 0;
    while windows < |ws|
      invariant windows <= |ws|
      invariant Fold(server.online, rows, ws[windows..]) == Fold(before, rows, ws)
      invariant forall e :: e !in LatestIn(rows, start, end) ==> Same(server.online, before, e)
    {
      SubrangeWritesLess(rows, start, end, ws[windows]);
      assert ws[windows..][1..] == ws[windows + 1..];
      raised := server.Post(rows, ws[windows]);
      if raised {
        if ts != [] {
          RetryAfterPartialAttempt(before, server.online, rows, start, end, EveryNth(ts, chunkRows));
        }
        return;
      }
      windows := windows + 1;
    }
    raised := false;
  }

  lemma SubrangeWritesLess(rows: seq<SourceRow>, start: Time, end: Time, w: Window)
    requires start <= w.lo && w.hi <= end
    ensures forall e :: e in LatestIn(rows, w.lo, w.hi) ==> e in LatestIn(rows, start, end)
  {
    LatestMeaning(rows, start, end);
    LatestMeaning(rows, w.lo, w.hi);
  }
}
