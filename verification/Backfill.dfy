/** The resumable backfill: invocations that may be killed after, or in the middle of, any window, while
    new rows keep arriving. */
module Backfill {
  import opened Tables
  import opened Windows
  import opened Materialization

  /** An invocation under way has a goal: the smaller of the requested end and the newest source row. */
  datatype Status = Idle | Active(goal: Time) | Completed(goal: Time)

  /** `intervals` is what the registry has recorded, in order. */
  datatype State = State(
    rows: seq<SourceRow>, online: Online, intervals: seq<Window>, plan: seq<Window>, status: Status)

  const INIT := State([], map[], [], [], Idle)

  datatype Action =
    | Arrive(row: SourceRow)
    | Begin(end: Time, boundaries: seq<Time>)  // `boundaries`: the sorted answer of the boundary query
    | WindowDone                               // materialized and recorded
    | WindowPartly(written: set<string>)       // killed in between: some entities written, nothing recorded
    | Kill

  function MaxOf(ts: seq<Time>): Time
    requires ts != []
  {
    if |ts| == 1 then ts[0] else var m := MaxOf(ts[..|ts| - 1]); if m < ts[|ts| - 1] then ts[|ts| - 1] else m
  }

  function MinOf(ts: seq<Time>): Time
    requires ts != []
  {
    if |ts| == 1 then ts[0] else var m := MinOf(ts[..|ts| - 1]); if ts[|ts| - 1] < m then ts[|ts| - 1] else m
  }

  function Stamps(rows: seq<SourceRow>): seq<Time> { seq(|rows|, i requires 0 <= i < |rows| => rows[i].ts) }

  /** Where the registry says materialization last stopped. */
  function ResumePoint(intervals: seq<Window>): Option<Time> {
    if intervals == [] then None
    else Some(MaxOf(seq(|intervals|, i requires 0 <= i < |intervals| => intervals[i].hi)))
  }

  function StartOf(s: State): Time
    requires s.rows != []
  {
    match ResumePoint(s.intervals) case Some(t) => t case None => MinOf(Stamps(s.rows))
  }

  function GoalOf(s: State, end: Time): Time
    requires s.rows != []
  {
    var newest := MaxOf(Stamps(s.rows));
    if newest < end then newest else end
  }

  /** Nothing when there is no row, or nothing left to do; else the windows from the start to the goal. */
  function Plan(s: State, end: Time, boundaries: seq<Time>): seq<Window> {
    if s.rows == [] then []
    else if StartOf(s) >= GoalOf(s, end) then []
    else Cut(StartOf(s), GoalOf(s, end), boundaries)
  }

  ghost predicate Enabled(s: State, a: Action) {
    match a
    case Arrive(row) => Ranked(s.rows + [row])
    case Begin(_, boundaries) => s.plan == [] && Sorted(boundaries)
    case WindowDone => s.plan != []
    case WindowPartly(_) => s.plan != []
    case Kill => true
  }

  ghost function Apply(s: State, a: Action): State
    requires Enabled(s, a)
  {
    match a
    case Arrive(row) => s.(rows := s.rows + [row])
    case Begin(end, boundaries) =>
      var plan := Plan(s, end, boundaries);
      s.(plan := plan,
         status := if s.rows == [] then Idle else if plan == [] then Completed(GoalOf(s, end)) else Active(GoalOf(s, end)))
    case WindowDone =>
      var w := s.plan[0];
      s.(online := Materialize(s.online, s.rows, w), intervals := s.intervals + [w], plan := s.plan[1..],
         status := if |s.plan| == 1 && s.status.Active? then Completed(s.status.goal) else s.status)
    case WindowPartly(written) =>
      var latest := LatestIn(s.rows, s.plan[0].lo, s.plan[0].hi);
      s.(online := s.online + (map e | e in latest && e in written :: latest[e]), plan := [], status := Idle)
    case Kill => s.(plan := [], status := Idle)
  }

  ghost function Run(s: State, schedule: seq<Action>): State {
    if schedule == [] then s
    else
      var t := Run(s, schedule[..|schedule| - 1]);
      var a := schedule[|schedule| - 1];
      if Enabled(t, a) then Apply(t, a) else t
  }

  /** The hypothesis on arrivals: after the resume point; or, during a first invocation, not before the
      range it started from. */
  ghost predicate InTime(s: State, row: SourceRow) {
    match ResumePoint(s.intervals)
    case Some(t) => t < row.ts
    case None => s.plan != [] ==> s.plan[0].lo <= row.ts
  }

  ghost predicate ArrivalsInTime(schedule: seq<Action>) {
    forall n :: 0 <= n < |schedule| && schedule[n].Arrive? ==> InTime(Run(INIT, schedule[..n]), schedule[n].row)
  }

  // ----- invariant -----

  /** Every row up to `t` is in the online store, or a newer one of its entity is. */
  ghost predicate FreshTo(rows: seq<SourceRow>, online: Online, t: Time) {
    forall r :: r in rows && r.ts <= t ==> r.entity in online && NotNewer(r, online[r.entity])
  }

  ghost predicate FromSource(rows: seq<SourceRow>, online: Online) {
    forall e :: e in online ==> online[e] in rows && online[e].entity == e
  }

  ghost predicate PlanOk(s: State) {
    && (s.plan != [] <==> s.status.Active?)
    && (s.plan != [] ==>
          && Tiles(s.plan, s.plan[0].lo, s.status.goal)
          && match ResumePoint(s.intervals)
             case Some(t) => s.plan[0].lo == t
             case None => forall r :: r in s.rows ==> s.plan[0].lo <= r.ts)
  }

  ghost predicate Inv(s: State) {
    && Ranked(s.rows)
    && FromSource(s.rows, s.online)
    && PlanOk(s)
    && (ResumePoint(s.intervals).Some? ==>
          && FreshTo(s.rows, s.online, ResumePoint(s.intervals).value)
          && ResumePoint(s.intervals).value == s.intervals[|s.intervals| - 1].hi
          && (s.status.Completed? ==> s.status.goal <= ResumePoint(s.intervals).value))
  }

  lemma {:induction false} MaxMeaning(ts: seq<Time>)
    requires ts != []
    ensures MaxOf(ts) in ts && forall i :: 0 <= i < |ts| ==> ts[i] <= MaxOf(ts)
  {
    if |ts| > 1 {
      MaxMeaning(ts[..|ts| - 1]);
    }
  }

  lemma {:induction false} MinMeaning(ts: seq<Time>)
    requires ts != []
    ensures MinOf(ts) in ts && forall i :: 0 <= i < |ts| ==> MinOf(ts) <= ts[i]
  {
    if |ts| > 1 {
      MinMeaning(ts[..|ts| - 1]);
    }
  }

  /** Restarts happen exactly at the end of the last completed window. */
  lemma ResumePointMoves(intervals: seq<Window>, w: Window)
    requires w.lo < w.hi
    requires ResumePoint(intervals).Some? ==> ResumePoint(intervals).value == w.lo
    ensures ResumePoint(intervals + [w]) == Some(w.hi)
  {
    var ends := seq(|intervals| + 1, i requires 0 <= i < |intervals| + 1 => (intervals + [w])[i].hi);
    var before := seq(|intervals|, i requires 0 <= i < |intervals| => intervals[i].hi);
    assert ends[..|ends| - 1] == before;
  }

  lemma BeginKeeps(s: State, end: Time, boundaries: seq<Time>)
    requires Inv(s) && Enabled(s, Begin(end, boundaries))
    ensures Inv(Apply(s, Begin(end, boundaries)))
  {
    if s.rows != [] {
      var start, goal := StartOf(s), GoalOf(s, end);
      if start < goal {
        WindowsTile(start, goal, boundaries);
        var plan := Plan(s, end, boundaries);
        assert plan != [] && plan[0].lo == start;
        MinMeaning(Stamps(s.rows));
        forall r | r in s.rows
          ensures MinOf(Stamps(s.rows)) <= r.ts
        {
          var i :| 0 <= i < |s.rows| && s.rows[i] == r;
          assert Stamps(s.rows)[i] == r.ts;
        }
      }
    }
  }

  /** A completed window moves the fresh range to its end. */
  lemma WindowKeepsFresh(s: State, online: Online)
    requires Inv(s) && s.plan != []
    requires online == Materialize(s.online, s.rows, s.plan[0])
    ensures FreshTo(s.rows, online, s.plan[0].hi) && FromSource(s.rows, online)
  {
    var w := s.plan[0];
    LatestMeaning(s.rows, w.lo, w.hi);
    assert forall r :: r in s.rows && r.ts < w.lo ==> r.entity in s.online && NotNewer(r, s.online[r.entity]);
    forall r | r in s.rows && r.ts <= w.hi
      ensures r.entity in online && NotNewer(r, online[r.entity])
    {
      NewerStays(s.rows, s.online, w, r);
    }
  }

  /** What a window writes for an entity is newer than what it replaces. */
  lemma NewerStays(rows: seq<SourceRow>, online: Online, w: Window, r: SourceRow)
    requires r in rows && r.ts <= w.hi
    requires r.ts < w.lo ==> r.entity in online && NotNewer(r, online[r.entity])
    ensures var next := Materialize(online, rows, w);
            r.entity in next && NotNewer(r, next[r.entity])
  {
    LatestMeaning(rows, w.lo, w.hi);
  }

  /** A window killed half-way disturbs nothing below its start. */
  lemma PartKeepsFresh(s: State, written: set<string>)
    requires Inv(s) && s.plan != []
    ensures var latest := LatestIn(s.rows, s.plan[0].lo, s.plan[0].hi);
            var online := s.online + (map e | e in latest && e in written :: latest[e]);
            FromSource(s.rows, online) && (ResumePoint(s.intervals).Some? ==> FreshTo(s.rows, online, ResumePoint(s.intervals).value))
  {
    LatestMeaning(s.rows, s.plan[0].lo, s.plan[0].hi);
  }

  lemma ApplyKeeps(s: State, a: Action)
    requires Inv(s) && Enabled(s, a) && (a.Arrive? ==> InTime(s, a.row))
    ensures Inv(Apply(s, a))
  {
    match a
    case Arrive(row) =>
    case Begin(end, boundaries) => BeginKeeps(s, end, boundaries);
    case WindowDone =>
      TilesAreContiguous(s.plan, s.plan[0].lo, s.status.goal);
      WindowKeepsFresh(s, Materialize(s.online, s.rows, s.plan[0]));
      ResumePointMoves(s.intervals, s.plan[0]);
    case WindowPartly(written) => PartKeepsFresh(s, written);
    case Kill =>
  }

  lemma {:induction false} RunKeeps(schedule: seq<Action>)
    requires ArrivalsInTime(schedule)
    ensures Inv(Run(INIT, schedule))
  {
    if schedule != [] {
      var n := |schedule| - 1;
      assert forall m :: 0 <= m < n ==> schedule[..n][..m] == schedule[..m];
      RunKeeps(schedule[..n]);
      if Enabled(Run(INIT, schedule[..n]), schedule[n]) {
        ApplyKeeps(Run(INIT, schedule[..n]), schedule[n]);
      }
    }
  }

  // ----- main results -----

  /** After any invocations killed anywhere, one that completes has materialized every source row up to its
      goal: each row is in the online store, or a newer row of its entity is; what is there is a source
      row. */
  lemma {:induction false} CompletedMeansMaterialized(schedule: seq<Action>)
    requires ArrivalsInTime(schedule)
    requires var s := Run(INIT, schedule); s.status.Completed? && s.intervals != []
    ensures var s := Run(INIT, schedule);
            FreshTo(s.rows, s.online, s.status.goal) && FromSource(s.rows, s.online)
  {
    RunKeeps(schedule);
  }

  /** No window of a plan reaches past the requested end, or past the newest source row. */
  lemma PlanStaysInside(s: State, end: Time, boundaries: seq<Time>, i: nat)
    requires i < |Plan(s, end, boundaries)|
    ensures Plan(s, end, boundaries)[i].hi <= end
    ensures exists r :: r in s.rows && Plan(s, end, boundaries)[i].hi <= r.ts
  {
    var start, goal := StartOf(s), GoalOf(s, end);
    EdgesWithin(start, goal, boundaries);
    PairsStayWithin(Edges(start, goal, boundaries), start, goal);
    MaxMeaning(Stamps(s.rows));
    var j :| 0 <= j < |s.rows| && Stamps(s.rows)[j] == MaxOf(Stamps(s.rows));
    assert s.rows[j] in s.rows;
  }

  ghost predicate NoBegin(more: seq<Action>) { forall i :: 0 <= i < |more| ==> !more[i].Begin? }

  lemma RunSnoc(s: State, a: seq<Action>, last: Action)
    ensures var t := Run(s, a);
            Run(s, a + [last]) == if Enabled(t, last) then Apply(t, last) else t
  {
    assert (a + [last])[..|a|] == a;
  }

  /** Until the next one begins, an invocation keeps its goal, and no row goes away. */
  lemma {:induction false} GoalStays(schedule: seq<Action>, more: seq<Action>, goal: Time)
    requires NoBegin(more)
    requires var s := Run(INIT, schedule); s.status.Idle? || s.status.goal == goal
    ensures var t := Run(INIT, schedule + more); t.status.Idle? || t.status.goal == goal
    ensures forall r :: r in Run(INIT, schedule).rows ==> r in Run(INIT, schedule + more).rows
  {
    if more == [] {
      assert schedule + more == schedule;
    } else {
      var init, last := more[..|more| - 1], more[|more| - 1];
      GoalStays(schedule, init, goal);
      RunSnoc(INIT, schedule + init, last);
      assert schedule + more == (schedule + init) + [last];
    }
  }

  /** After any killed invocations, one begun with `end` that completes with recorded windows has put every row
      that was there at its beginning, up to `end`, into the online store, or a newer one of its entity. */
  lemma {:induction false} EverythingUpToEndIsOnline(
    before: seq<Action>, end: Time, boundaries: seq<Time>, more: seq<Action>, r: SourceRow)
    requires ArrivalsInTime(before + [Begin(end, boundaries)] + more) && NoBegin(more)
    requires Enabled(Run(INIT, before), Begin(end, boundaries))
    requires var t := Run(INIT, before + [Begin(end, boundaries)] + more); t.status.Completed? && t.intervals != []
    requires r in Run(INIT, before).rows && r.ts <= end
    ensures var t := Run(INIT, before + [Begin(end, boundaries)] + more);
            && r.entity in t.online && t.online[r.entity] in t.rows && t.online[r.entity].entity == r.entity
            && r.ts <= t.online[r.entity].ts
  {
    var begun := before + [Begin(end, boundaries)];
    var s, t := Run(INIT, before), Run(INIT, begun + more);
    RunSnoc(INIT, before, Begin(end, boundaries));
    GoalStays(begun, more, GoalOf(s, end));
    MaxMeaning(Stamps(s.rows));
    var i :| 0 <= i < |s.rows| && s.rows[i] == r;
    assert Stamps(s.rows)[i] == r.ts;
    CompletedMeansMaterialized(begun + more);
  }

  /** Every invocation can be carried through: one done window after the other completes it. */
  lemma {:induction false} CanComplete(s: State) returns (steps: seq<Action>)
    requires s.status.Active? && s.plan != []
    ensures |steps| == |s.plan| && forall i :: 0 <= i < |steps| ==> steps[i] == WindowDone
    ensures var t := Run(s, steps);
            t.status == Completed(s.status.goal) && t.intervals == s.intervals + s.plan && t.rows == s.rows
    decreases |s.plan|
  {
    var next := Apply(s, WindowDone);
    assert [WindowDone][..0] == [];
    assert Run(s, [WindowDone]) == next;
    if |s.plan| == 1 {
      steps := [WindowDone];
      assert s.plan == [s.plan[0]];
    } else {
      var rest := CanComplete(next);
      RunConcat(s, [WindowDone], rest);
      steps := [WindowDone] + rest;
    }
  }

  lemma {:induction false} RunConcat(s: State, a: seq<Action>, b: seq<Action>)
    ensures Run(s, a + b) == Run(Run(s, a), b)
  {
    if b == [] {
      assert a + b == a;
    } else {
      RunConcat(s, a, b[..|b| - 1]);
      assert (a + b)[..|a + b| - 1] == a + b[..|b| - 1];
    }
  }

  /** Whatever was killed before, a new invocation starts exactly at the end of the last window that was
      completed, and its windows tile the range from there to its goal. */
  lemma {:induction false} RestartsAtLastCompletedWindow(schedule: seq<Action>, end: Time, boundaries: seq<Time>)
    requires ArrivalsInTime(schedule) && Sorted(boundaries)
    requires var s := Run(INIT, schedule); s.intervals != [] && Plan(s, end, boundaries) != []
    ensures var s := Run(INIT, schedule);
            var plan := Plan(s, end, boundaries);
            && plan[0].lo == s.intervals[|s.intervals| - 1].hi
            && Tiles(plan, plan[0].lo, GoalOf(s, end))
  {
    RunKeeps(schedule);
    var s := Run(INIT, schedule);
    WindowsTile(StartOf(s), GoalOf(s, end), boundaries);
  }

  /** The arrival hypothesis is needed: no window of a resumed invocation reaches below the resume point. */
  lemma LateArrivalIsNeverRead(s: State, end: Time, boundaries: seq<Time>, row: SourceRow)
    requires s.rows != [] && ResumePoint(s.intervals).Some? && row.ts < ResumePoint(s.intervals).value
    ensures !Covers(Plan(s, end, boundaries), row.ts)
  {
    WindowsCoverTheRange(StartOf(s), GoalOf(s, end), boundaries, row.ts);
  }

  /** The promise fails on one edge. A first invocation whose goal is the oldest row's own timestamp plans
      no window, so the rows at that timestamp are not materialized although it completes. With
      an empty store it is exactly then that an empty first plan is wrong; with a store that an invocation
      killed inside its first window has left behind, only then. */
  lemma FirstInvocationMissesOnlyOldestStamp(s: State, end: Time, boundaries: seq<Time>)
    requires Inv(s) && Enabled(s, Begin(end, boundaries)) && s.rows != [] && s.intervals == []
    requires Plan(s, end, boundaries) == []
    ensures var t := Apply(s, Begin(end, boundaries));
            && t.status == Completed(GoalOf(s, end))
            && (GoalOf(s, end) != MinOf(Stamps(s.rows)) ==> FreshTo(t.rows, t.online, GoalOf(s, end)))
            && (s.online == map[] ==> (FreshTo(t.rows, t.online, GoalOf(s, end)) <==> GoalOf(s, end) != MinOf(Stamps(s.rows))))
  {
    var oldest, goal := MinOf(Stamps(s.rows)), GoalOf(s, end);
    MinMeaning(Stamps(s.rows));
    if oldest < goal {
      WindowsTile(oldest, goal, boundaries);
      assert false;
    }
    var i :| 0 <= i < |s.rows| && Stamps(s.rows)[i] == oldest;
    assert s.rows[i] in s.rows;
    forall r | r in s.rows
      ensures oldest <= r.ts
    {
      var k :| 0 <= k < |s.rows| && s.rows[k] == r;
      assert Stamps(s.rows)[k] == r.ts;
    }
  }

  /** A table whose rows all share one timestamp is therefore never materialized, however often and with
      whatever end the backfill is invoked. */
  lemma OneStampIsNeverMaterialized(s: State, end: Time, boundaries: seq<Time>, stamp: Time)
    requires s.rows != [] && s.intervals == [] && forall r :: r in s.rows ==> r.ts == stamp
    ensures Plan(s, end, boundaries) == []
  {
    MinMeaning(Stamps(s.rows));
    MaxMeaning(Stamps(s.rows));
    var i :| 0 <= i < |s.rows| && Stamps(s.rows)[i] == MinOf(Stamps(s.rows));
    var j :| 0 <= j < |s.rows| && Stamps(s.rows)[j] == MaxOf(Stamps(s.rows));
    assert s.rows[i] in s.rows && s.rows[j] in s.rows;
  }

  // ----- the loop -----

  /** The loop over a plan: as many window steps as there are windows, each recorded as it is done. */
  class Store {
    var online: Online
    var intervals: seq<Window>

    constructor ()
      ensures online == map[] && intervals == []
    {
      online, intervals := map[], [];
    }

    method MaterializeChunked(rows: seq<SourceRow>, end: Time, boundaries: seq<Time>) returns (n: nat)
      requires Ranked(rows) && Sorted(boundaries)
      modifies this
      ensures var s := State(rows, old(online), old(intervals), [], Idle);
              var plan := Plan(s, end, boundaries);
              && n == |plan|
              && intervals == old(intervals) + plan
              && online == (if plan == [] then old(online)
                            else Materialize(old(online), rows, Window(StartOf(s), GoalOf(s, end))))
    {
      var s := State(rows, online, intervals, [], Idle);
      var plan := Plan(s, end, boundaries);
      n := 0;
      while n < |plan|
        invariant n <= |plan|
        invariant intervals == old(intervals) + plan[..n]
        invariant Fold(online, rows, plan[n..]) == Fold(old(online), rows, plan)
      {
        assert plan[n..][1..] == plan[n + 1..];
        online := Materialize(online, rows, plan[n]);
        intervals := intervals + [plan[n]];
        n := n + 1;
      }
      if plan != [] {
        ChunkedEqualsUnbounded(old(online), rows, StartOf(s), GoalOf(s, end), boundaries);
      }
    }
  }
}
