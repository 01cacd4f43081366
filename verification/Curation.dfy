/** Watermark-gated incremental curation with arbitrarily many overlapping, retried and aborted runs. */
module Curation {
  import opened Tables
  import opened Validation

  type Time = int  // microseconds since the epoch
  const EPOCH: Time := 0

  datatype Stream = Features | Labels

  /** A landing row; its event id is the key of the landing table. */
  datatype LandingRow = LandingRow(eventId: string, body: string, ingestedAt: Time)
  datatype CuratedRow = CuratedRow(body: string, sourceRun: string)

  /** `Greatest` is what the code does; `Overwrite` is the variant it guards against. */
  datatype AdvancePolicy = Greatest | Overwrite

  datatype Config = Config(rowOk: (Stream, LandingRow) -> bool, maxInvalidFraction: real, policy: AdvancePolicy)

  /** One of the two pipelines. `sealed`, `late` and `advances` are history: the largest upper bound
      extracted so far, the rows that became visible at or below it, and the committed upper bounds. */
  datatype Lane = Lane(
    landing: map<string, LandingRow>, curated: map<string, CuratedRow>, watermark: Option<Time>,
    sealed: Time, late: set<string>, advances: seq<Time>)

  const EMPTY := Lane(map[], map[], None, EPOCH, {}, [])

  /** How far a run has got with one pipeline. */
  datatype Job =
    | Unread
    | Bounded(low: Time)
    | Extracted(low: Time, raw: seq<LandingRow>)
    | Validated(low: Time, valid: seq<LandingRow>)

  /** A DAG run: its upper bound is fixed by its data interval, whatever is retried. */
  datatype Dag = Dag(upper: Time, features: Job, labels: Job)

  datatype State = State(features: Lane, labels: Lane, dags: map<string, Dag>)

  const INIT := State(EMPTY, EMPTY, map[])

  datatype Action =
    | Land(stream: Stream, row: LandingRow)        // the row becomes visible in the landing table
    | Open(dag: string, upper: Time)
    | ReadWatermark(dag: string, stream: Stream)
    | Extract(dag: string, stream: Stream, rows: seq<LandingRow>)  // `rows` in the order the query returns them
    | ValidateBoth(dag: string)
    | Commit(dag: string)                          // curated upserts and both watermarks, one transaction

  function LaneOf(s: State, stream: Stream): Lane { if stream == Features then s.features else s.labels }
  function JobOf(d: Dag, stream: Stream): Job { if stream == Features then d.features else d.labels }

  function WithLane(s: State, stream: Stream, lane: Lane): State {
    if stream == Features then s.(features := lane) else s.(labels := lane)
  }
  function WithJob(s: State, dag: string, stream: Stream, job: Job): State
    requires dag in s.dags
  {
    var d := s.dags[dag];
    s.(dags := s.dags[dag := if stream == Features then d.(features := job) else d.(labels := job)])
  }

  function Watermark(lane: Lane): Time { if lane.watermark.Some? then lane.watermark.value else EPOCH }

  function MaxTime(a: Time, b: Time): Time { if a < b then b else a }

  function Advance(policy: AdvancePolicy, current: Option<Time>, bound: Time): Option<Time> {
    match (policy, current)
    case (Greatest, Some(w)) => Some(MaxTime(w, bound))
    case _ => Some(bound)
  }

  function RowId(r: LandingRow): string { r.eventId }

  /** `rows` is the answer to: ingested_at in (low, upper], ordered by ingested_at. */
  ghost predicate IsWindow(lane: Lane, low: Time, upper: Time, rows: seq<LandingRow>) {
    && DistinctIds(rows, RowId)
    && (forall i, j :: 0 <= i < j < |rows| ==> rows[i].ingestedAt <= rows[j].ingestedAt)
    && (forall r :: r in rows <==> r.eventId in lane.landing && lane.landing[r.eventId] == r && low < r.ingestedAt <= upper)
  }

  function RowCheck(cfg: Config, stream: Stream): LandingRow -> bool { r => cfg.rowOk(stream, r) }

  function Check(cfg: Config, stream: Stream, rows: seq<LandingRow>): (seq<LandingRow>, Report) {
    Validate(rows, RowId, RowCheck(cfg, stream))
  }

  /** The gate: a run whose windows hold too many invalid rows stops here. */
  predicate GatePasses(cfg: Config, d: Dag)
    requires d.features.Extracted? && d.labels.Extracted?
  {
    && Check(cfg, Features, d.features.raw).1.InvalidFraction() <= cfg.maxInvalidFraction
    && Check(cfg, Labels, d.labels.raw).1.InvalidFraction() <= cfg.maxInvalidFraction
  }

  function CuratedEntries(rows: seq<LandingRow>, dag: string): seq<Entry<string, CuratedRow>> {
    seq(|rows|, i requires 0 <= i < |rows| => Entry(rows[i].eventId, CuratedRow(rows[i].body, dag)))
  }

  /** The transaction, for one pipeline. */
  function Curate(cfg: Config, lane: Lane, valid: seq<LandingRow>, dag: string, upper: Time): Lane {
    lane.(curated := InsertAll(lane.curated, CuratedEntries(valid, dag)),
          watermark := Advance(cfg.policy, lane.watermark, upper),
          advances := lane.advances + [upper])
  }

  function LandIn(lane: Lane, row: LandingRow): Lane {
    lane.(landing := lane.landing[row.eventId := row],
          late := if row.ingestedAt <= lane.sealed then lane.late + {row.eventId} else lane.late)
  }

  /** Any task may be repeated at any time after its first possible moment: task retries, cleared runs. */
  ghost predicate Enabled(cfg: Config, s: State, a: Action) {
    match a
    case Land(stream, row) => row.eventId !in LaneOf(s, stream).landing
    case Open(dag, _) => dag !in s.dags
    case ReadWatermark(dag, _) => dag in s.dags
    case Extract(dag, stream, rows) =>
      && dag in s.dags && !s.dags[dag].features.Unread? && !s.dags[dag].labels.Unread?
      && IsWindow(LaneOf(s, stream), JobOf(s.dags[dag], stream).low, s.dags[dag].upper, rows)
    case ValidateBoth(dag) =>
      && dag in s.dags && s.dags[dag].features.Extracted? && s.dags[dag].labels.Extracted?
      && GatePasses(cfg, s.dags[dag])
    case Commit(dag) => dag in s.dags && s.dags[dag].features.Validated? && s.dags[dag].labels.Validated?
  }

  ghost function Apply(cfg: Config, s: State, a: Action): State
    requires Enabled(cfg, s, a)
  {
    match a
    case Land(stream, row) => WithLane(s, stream, LandIn(LaneOf(s, stream), row))
    case Open(dag, upper) => s.(dags := s.dags[dag := Dag(upper, Unread, Unread)])
    case ReadWatermark(dag, stream) => WithJob(s, dag, stream, Bounded(Watermark(LaneOf(s, stream))))
    case Extract(dag, stream, rows) =>
      var lane := LaneOf(s, stream);
      var t := WithLane(s, stream, lane.(sealed := MaxTime(lane.sealed, s.dags[dag].upper)));
      WithJob(t, dag, stream, Extracted(JobOf(s.dags[dag], stream).low, rows))
    case ValidateBoth(dag) =>
      var d := s.dags[dag];
      s.(dags := s.dags[dag := d.(
        features := Validated(d.features.low, Check(cfg, Features, d.features.raw).0),
        labels := Validated(d.labels.low, Check(cfg, Labels, d.labels.raw).0))])
    case Commit(dag) =>
      var d := s.dags[dag];
      s.(features := Curate(cfg, s.features, d.features.valid, dag, d.upper),
         labels := Curate(cfg, s.labels, d.labels.valid, dag, d.upper))
  }

  ghost function Run(cfg: Config, s: State, schedule: seq<Action>): State {
    if schedule == [] then s
    else
      var t := Run(cfg, s, schedule[..|schedule| - 1]);
      var a := schedule[|schedule| - 1];
      if Enabled(cfg, t, a) then Apply(cfg, t, a) else t
  }

  // ----- the invariant -----

  /** Every row that passes its checks, was not late, and was ingested by `t` satisfies `in`. */
  ghost predicate Wanted(cfg: Config, stream: Stream, lane: Lane, id: string, t: Time) {
    && id in lane.landing && id !in lane.late
    && cfg.rowOk(stream, lane.landing[id]) && lane.landing[id].ingestedAt <= t
  }

  /** Everything wanted up to `t` is curated, and nothing more can become wanted there. */
  ghost predicate SettledTo(cfg: Config, stream: Stream, lane: Lane, t: Time) {
    && t <= lane.sealed
    && forall id :: Wanted(cfg, stream, lane, id, t) ==> id in lane.curated
  }

  ghost predicate FromLanding(lane: Lane, rows: seq<LandingRow>) {
    && DistinctIds(rows, RowId)
    && forall i :: 0 <= i < |rows| ==> rows[i].eventId in lane.landing && lane.landing[rows[i].eventId] == rows[i]
  }

  /** Everything wanted up to `upper` is curated already or among `rows`. */
  ghost predicate CoversTo(cfg: Config, stream: Stream, lane: Lane, upper: Time, rows: seq<LandingRow>) {
    && upper <= lane.sealed
    && forall id :: Wanted(cfg, stream, lane, id, upper) ==> id in lane.curated || lane.landing[id] in rows
  }

  ghost predicate JobOk(cfg: Config, stream: Stream, lane: Lane, upper: Time, job: Job) {
    && (!job.Unread? ==> SettledTo(cfg, stream, lane, job.low))
    && (job.Extracted? ==> FromLanding(lane, job.raw) && CoversTo(cfg, stream, lane, upper, job.raw))
    && (job.Validated? ==>
          && FromLanding(lane, job.valid) && CoversTo(cfg, stream, lane, upper, job.valid)
          && forall i :: 0 <= i < |job.valid| ==> cfg.rowOk(stream, job.valid[i]))
  }

  ghost predicate Sound(cfg: Config, stream: Stream, lane: Lane) {
    forall id :: id in lane.curated ==>
      id in lane.landing && cfg.rowOk(stream, lane.landing[id]) && lane.curated[id].body == lane.landing[id].body
  }

  ghost predicate LaneOk(cfg: Config, stream: Stream, lane: Lane) {
    && EPOCH <= lane.sealed
    && (forall id :: id in lane.landing ==> lane.landing[id].eventId == id)
    && (forall id :: id in lane.landing && id !in lane.late ==> EPOCH < lane.landing[id].ingestedAt)
    && Sound(cfg, stream, lane)
    && SettledTo(cfg, stream, lane, Watermark(lane))
  }

  ghost predicate Inv(cfg: Config, s: State) {
    && LaneOk(cfg, Features, s.features) && LaneOk(cfg, Labels, s.labels)
    && forall d :: d in s.dags ==>
      && JobOk(cfg, Features, s.features, s.dags[d].upper, s.dags[d].features)
      && JobOk(cfg, Labels, s.labels, s.dags[d].upper, s.dags[d].labels)
  }

  /** How a pipeline may change without disturbing a run in flight: rows arrive after what is sealed or are
      late, curated rows stay, `sealed` grows. */
  ghost predicate Evolves(lane: Lane, lane': Lane) {
    && lane.sealed <= lane'.sealed
    && lane.late <= lane'.late
    && (forall id :: id in lane.landing ==> id in lane'.landing && lane'.landing[id] == lane.landing[id])
    && (forall id :: id in lane'.landing && id !in lane.landing && id !in lane'.late ==> lane.sealed < lane'.landing[id].ingestedAt)
    && (forall id :: id in lane.curated ==> id in lane'.curated)
  }

  lemma JobOkIsStable(cfg: Config, stream: Stream, lane: Lane, lane': Lane, upper: Time, job: Job)
    requires Evolves(lane, lane') && JobOk(cfg, stream, lane, upper, job)
    ensures JobOk(cfg, stream, lane', upper, job)
  {
    if !job.Unread? {
      SettledIsStable(cfg, stream, lane, lane', job.low);
    }
    if job.Extracted? || job.Validated? {
      forall id | Wanted(cfg, stream, lane', id, upper)
        ensures Wanted(cfg, stream, lane, id, upper)
      {
      }
    }
  }

  lemma SettledIsStable(cfg: Config, stream: Stream, lane: Lane, lane': Lane, t: Time)
    requires Evolves(lane, lane') && SettledTo(cfg, stream, lane, t)
    ensures SettledTo(cfg, stream, lane', t)
  {
    forall id | Wanted(cfg, stream, lane', id, t)
      ensures Wanted(cfg, stream, lane, id, t)
    {
    }
  }

  lemma LandKeepsLane(cfg: Config, stream: Stream, lane: Lane, row: LandingRow)
    requires LaneOk(cfg, stream, lane) && row.eventId !in lane.landing
    ensures LaneOk(cfg, stream, LandIn(lane, row)) && Evolves(lane, LandIn(lane, row))
  {
    SettledIsStable(cfg, stream, lane, LandIn(lane, row), Watermark(lane));
  }

  lemma ExtractCovers(cfg: Config, stream: Stream, lane: Lane, low: Time, upper: Time, rows: seq<LandingRow>)
    requires LaneOk(cfg, stream, lane) && SettledTo(cfg, stream, lane, low) && IsWindow(lane, low, upper, rows)
    ensures var lane' := lane.(sealed := MaxTime(lane.sealed, upper));
            && LaneOk(cfg, stream, lane') && Evolves(lane, lane')
            && JobOk(cfg, stream, lane', upper, Extracted(low, rows))
  {
    var lane' := lane.(sealed := MaxTime(lane.sealed, upper));
    SettledIsStable(cfg, stream, lane, lane', low);
    SettledIsStable(cfg, stream, lane, lane', Watermark(lane));
    assert forall i :: 0 <= i < |rows| ==> rows[i] in rows;
    forall id | Wanted(cfg, stream, lane', id, upper)
      ensures id in lane.curated || lane.landing[id] in rows
    {
      if lane.landing[id].ingestedAt <= low {
        assert Wanted(cfg, stream, lane, id, low);
      }
    }
  }

  lemma ValidateKeepsJob(cfg: Config, stream: Stream, lane: Lane, upper: Time, job: Job)
    requires LaneOk(cfg, stream, lane) && JobOk(cfg, stream, lane, upper, job) && job.Extracted?
    ensures JobOk(cfg, stream, lane, upper, Validated(job.low, Check(cfg, stream, job.raw).0))
  {
    var valid := Check(cfg, stream, job.raw).0;
    PrimaryKeyMakesDuplicateCheckVacuous(job.raw, RowId, RowCheck(cfg, stream));
    ReportAddsUp(job.raw, RowId, RowCheck(cfg, stream));
    forall i | 0 <= i < |valid|
      ensures valid[i].eventId in lane.landing && lane.landing[valid[i].eventId] == valid[i] && cfg.rowOk(stream, valid[i])
    {
      assert valid[i] in valid && valid[i] in job.raw;
    }
  }

  lemma CurateKeepsLane(cfg: Config, stream: Stream, lane: Lane, upper: Time, job: Job, dag: string)
    requires LaneOk(cfg, stream, lane) && JobOk(cfg, stream, lane, upper, job) && job.Validated?
    ensures LaneOk(cfg, stream, Curate(cfg, lane, job.valid, dag, upper))
    ensures Evolves(lane, Curate(cfg, lane, job.valid, dag, upper))
  {
    var entries := CuratedEntries(job.valid, dag);
    var lane' := Curate(cfg, lane, job.valid, dag, upper);
    InsertAllMeaning(lane.curated, entries);
    CuratedOrigin(lane.curated, job.valid, dag);
    assert Evolves(lane, lane');
    forall id | Wanted(cfg, stream, lane', id, upper)
      ensures id in lane'.curated
    {
      assert Wanted(cfg, stream, lane, id, upper);
      if id !in lane.curated {
        var i :| 0 <= i < |job.valid| && job.valid[i] == lane.landing[id];
        assert entries[i].key == id;
      }
    }
    SettledIsStable(cfg, stream, lane, lane', Watermark(lane));
  }

  /** A curated row is an old one or comes from the batch. */
  lemma {:induction false} CuratedOrigin(curated: map<string, CuratedRow>, rows: seq<LandingRow>, dag: string)
    ensures forall id :: id in InsertAll(curated, CuratedEntries(rows, dag)) ==>
      || (id in curated && InsertAll(curated, CuratedEntries(rows, dag))[id] == curated[id])
      || exists i :: 0 <= i < |rows| && rows[i].eventId == id
           && InsertAll(curated, CuratedEntries(rows, dag))[id] == CuratedRow(rows[i].body, dag)
  {
    if rows != [] {
      var init := rows[..|rows| - 1];
      CuratedOrigin(curated, init, dag);
      assert CuratedEntries(rows, dag)[..|rows| - 1] == CuratedEntries(init, dag);
    }
  }

  lemma OneLaneKeeps(cfg: Config, s: State, stream: Stream, lane: Lane)
    requires Inv(cfg, s) && LaneOk(cfg, stream, lane) && Evolves(LaneOf(s, stream), lane)
    ensures Inv(cfg, WithLane(s, stream, lane))
  {
    forall d | d in s.dags
      ensures JobOk(cfg, stream, lane, s.dags[d].upper, JobOf(s.dags[d], stream))
    {
      JobOkIsStable(cfg, stream, LaneOf(s, stream), lane, s.dags[d].upper, JobOf(s.dags[d], stream));
    }
  }

  lemma CommitKeeps(cfg: Config, s: State, dag: string)
    requires Inv(cfg, s) && Enabled(cfg, s, Commit(dag))
    ensures Inv(cfg, Apply(cfg, s, Commit(dag)))
  {
    var d := s.dags[dag];
    CurateKeepsLane(cfg, Features, s.features, d.upper, d.features, dag);
    OneLaneKeeps(cfg, s, Features, Curate(cfg, s.features, d.features.valid, dag, d.upper));
    CurateKeepsLane(cfg, Labels, s.labels, d.upper, d.labels, dag);
    var t := WithLane(s, Features, Curate(cfg, s.features, d.features.valid, dag, d.upper));
    OneLaneKeeps(cfg, t, Labels, Curate(cfg, s.labels, d.labels.valid, dag, d.upper));
  }

  lemma ExtractKeeps(cfg: Config, s: State, dag: string, stream: Stream, rows: seq<LandingRow>)
    requires Inv(cfg, s) && Enabled(cfg, s, Extract(dag, stream, rows))
    ensures Inv(cfg, Apply(cfg, s, Extract(dag, stream, rows)))
  {
    var lane, d := LaneOf(s, stream), s.dags[dag];
    ExtractCovers(cfg, stream, lane, JobOf(d, stream).low, d.upper, rows);
    OneLaneKeeps(cfg, s, stream, lane.(sealed := MaxTime(lane.sealed, d.upper)));
  }

  lemma ApplyKeeps(cfg: Config, s: State, a: Action)
    requires Inv(cfg, s) && Enabled(cfg, s, a)
    ensures Inv(cfg, Apply(cfg, s, a))
  {
    match a
    case Land(stream, row) =>
      LandKeepsLane(cfg, stream, LaneOf(s, stream), row);
      OneLaneKeeps(cfg, s, stream, LandIn(LaneOf(s, stream), row));
    case Open(_, _) =>
    case ReadWatermark(_, _) =>
    case Extract(dag, stream, rows) => ExtractKeeps(cfg, s, dag, stream, rows);
    case ValidateBoth(dag) =>
      ValidateKeepsJob(cfg, Features, s.features, s.dags[dag].upper, s.dags[dag].features);
      ValidateKeepsJob(cfg, Labels, s.labels, s.dags[dag].upper, s.dags[dag].labels);
    case Commit(dag) => CommitKeeps(cfg, s, dag);
  }

  lemma {:induction false} RunKeeps(cfg: Config, s: State, schedule: seq<Action>)
    requires Inv(cfg, s)
    ensures Inv(cfg, Run(cfg, s, schedule))
  {
    if schedule != [] {
      RunKeeps(cfg, s, schedule[..|schedule| - 1]);
      var t := Run(cfg, s, schedule[..|schedule| - 1]);
      if Enabled(cfg, t, schedule[|schedule| - 1]) {
        ApplyKeeps(cfg, t, schedule[|schedule| - 1]);
      }
    }
  }

  // ----- main results -----

  /** In every reachable state, under either advance policy and with any number of overlapping, repeated
      and abandoned runs: a row at or below the watermark that passes its checks is curated, with its own
      body, unless it became visible only after an upper bound above it had been extracted. */
  lemma {:induction false} AtWatermarkNothingIsMissing(cfg: Config, schedule: seq<Action>, stream: Stream, id: string)
    requires var lane := LaneOf(Run(cfg, INIT, schedule), stream);
             && id in lane.landing && id !in lane.late
             && lane.landing[id].ingestedAt <= Watermark(lane) && cfg.rowOk(stream, lane.landing[id])
    ensures var lane := LaneOf(Run(cfg, INIT, schedule), stream);
            id in lane.curated && lane.curated[id].body == lane.landing[id].body
  {
    RunKeeps(cfg, INIT, schedule);
    var lane := LaneOf(Run(cfg, INIT, schedule), stream);
    assert LaneOk(cfg, stream, lane);
    assert Wanted(cfg, stream, lane, id, Watermark(lane));
  }

  /** Nothing invented, nothing invalid: every curated row is a landing row that passes its checks. */
  lemma {:induction false} CuratedRowsAreLandingRows(cfg: Config, schedule: seq<Action>, stream: Stream, id: string)
    requires id in LaneOf(Run(cfg, INIT, schedule), stream).curated
    ensures var lane := LaneOf(Run(cfg, INIT, schedule), stream);
            id in lane.landing && cfg.rowOk(stream, lane.landing[id]) && lane.curated[id].body == lane.landing[id].body
  {
    RunKeeps(cfg, INIT, schedule);
    assert LaneOk(cfg, stream, LaneOf(Run(cfg, INIT, schedule), stream));
  }

  /** No row becomes visible at or below an upper bound that was extracted already. */
  ghost predicate OnTime(cfg: Config, schedule: seq<Action>) {
    forall n :: 0 <= n < |schedule| && schedule[n].Land? ==>
      LaneOf(Run(cfg, INIT, schedule[..n]), schedule[n].stream).sealed < schedule[n].row.ingestedAt
  }

  lemma {:induction false} OnTimeNeverLate(cfg: Config, schedule: seq<Action>)
    requires OnTime(cfg, schedule)
    ensures Run(cfg, INIT, schedule).features.late == {} && Run(cfg, INIT, schedule).labels.late == {}
  {
    if schedule != [] {
      var n := |schedule| - 1;
      OnTimePrefix(cfg, schedule, n);
      OnTimeNeverLate(cfg, schedule[..n]);
      if Enabled(cfg, Run(cfg, INIT, schedule[..n]), schedule[n]) {
        StepOnTime(cfg, Run(cfg, INIT, schedule[..n]), schedule[n]);
      }
    }
  }

  lemma OnTimePrefix(cfg: Config, schedule: seq<Action>, n: nat)
    requires n <= |schedule| && OnTime(cfg, schedule)
    ensures OnTime(cfg, schedule[..n])
  {
    assert forall m :: 0 <= m < n ==> schedule[..n][..m] == schedule[..m];
  }

  lemma StepOnTime(cfg: Config, s: State, a: Action)
    requires Enabled(cfg, s, a) && (a.Land? ==> LaneOf(s, a.stream).sealed < a.row.ingestedAt)
    ensures Apply(cfg, s, a).features.late == s.features.late && Apply(cfg, s, a).labels.late == s.labels.late
  {
  }

  /** Under that hypothesis incremental curation equals a full recompute at the watermark: a landing row at
      or below it is curated if and only if it passes its checks. */
  lemma {:induction false} CuratedIsFullRecompute(cfg: Config, schedule: seq<Action>, stream: Stream, id: string)
    requires OnTime(cfg, schedule)
    requires var lane := LaneOf(Run(cfg, INIT, schedule), stream);
             id in lane.landing && lane.landing[id].ingestedAt <= Watermark(lane)
    ensures var lane := LaneOf(Run(cfg, INIT, schedule), stream);
            id in lane.curated <==> cfg.rowOk(stream, lane.landing[id])
  {
    OnTimeNeverLate(cfg, schedule);
    var lane := LaneOf(Run(cfg, INIT, schedule), stream);
    if cfg.rowOk(stream, lane.landing[id]) {
      AtWatermarkNothingIsMissing(cfg, schedule, stream, id);
    }
    if id in lane.curated {
      CuratedRowsAreLandingRows(cfg, schedule, stream, id);
    }
  }

  // ----- the gate, and getting through it -----

  /** Few enough rows fail their own checks. */
  ghost predicate Acceptable(cfg: Config, stream: Stream, rows: seq<LandingRow>) {
    AtMostShare(Failing(rows, RowCheck(cfg, stream)), |rows|, cfg.maxInvalidFraction)
  }

  /** The gate passes if and only if, in each stream, the failing rows are at most the tolerated share. */
  lemma GateExactly(cfg: Config, d: Dag)
    requires d.features.Extracted? && d.labels.Extracted?
    requires DistinctIds(d.features.raw, RowId) && DistinctIds(d.labels.raw, RowId)
    ensures GatePasses(cfg, d) <==> Acceptable(cfg, Features, d.features.raw) && Acceptable(cfg, Labels, d.labels.raw)
  {
    FractionWithinExactlyWhen(d.features.raw, RowId, RowCheck(cfg, Features), cfg.maxInvalidFraction);
    FractionWithinExactlyWhen(d.labels.raw, RowId, RowCheck(cfg, Labels), cfg.maxInvalidFraction);
  }

  ghost predicate BothExtracted(s: State, dag: string) {
    dag in s.dags && s.dags[dag].features.Extracted? && s.dags[dag].labels.Extracted?
  }

  /** In every reachable state a run that has extracted both windows can be validated if and only if both are
      acceptable. */
  lemma {:induction false} ValidatedExactlyWhen(cfg: Config, schedule: seq<Action>, dag: string)
    requires BothExtracted(Run(cfg, INIT, schedule), dag)
    ensures var s := Run(cfg, INIT, schedule);
            Enabled(cfg, s, ValidateBoth(dag)) <==>
              Acceptable(cfg, Features, s.dags[dag].features.raw) && Acceptable(cfg, Labels, s.dags[dag].labels.raw)
  {
    RunKeeps(cfg, INIT, schedule);
    var s := Run(cfg, INIT, schedule);
    assert JobOk(cfg, Features, s.features, s.dags[dag].upper, s.dags[dag].features);
    assert JobOk(cfg, Labels, s.labels, s.dags[dag].upper, s.dags[dag].labels);
    GateExactly(cfg, s.dags[dag]);
  }

  /** What a finished run has done to one pipeline: its bound is committed, and of what it extracted exactly
      the passing rows are curated, under its name, besides what was curated before. */
  ghost predicate Finished(cfg: Config, stream: Stream, before: Lane, raw: seq<LandingRow>, dag: string, upper: Time, after: Lane) {
    && after.advances == before.advances + [upper] && after.landing == before.landing
    && (forall id :: id in after.curated <==>
          id in before.curated || exists i :: 0 <= i < |raw| && raw[i].eventId == id && cfg.rowOk(stream, raw[i]))
    && forall id :: id in after.curated ==>
         if id in before.curated then after.curated[id] == before.curated[id] else after.curated[id].sourceRun == dag
  }

  lemma CurateFinishes(cfg: Config, stream: Stream, lane: Lane, raw: seq<LandingRow>, dag: string, upper: Time)
    requires DistinctIds(raw, RowId)
    ensures Finished(cfg, stream, lane, raw, dag, upper, Curate(cfg, lane, Check(cfg, stream, raw).0, dag, upper))
  {
    var valid := Check(cfg, stream, raw).0;
    PrimaryKeyMakesDuplicateCheckVacuous(raw, RowId, RowCheck(cfg, stream));
    var entries := CuratedEntries(valid, dag);
    InsertAllMeaning(lane.curated, entries);
    CuratedOrigin(lane.curated, valid, dag);
    forall id
      ensures id in KeysOf(entries) <==> exists i :: 0 <= i < |raw| && raw[i].eventId == id && cfg.rowOk(stream, raw[i])
    {
      CuratedIds(cfg, stream, raw, valid, dag, id);
    }
  }

  lemma CuratedIds(cfg: Config, stream: Stream, raw: seq<LandingRow>, valid: seq<LandingRow>, dag: string, id: string)
    requires forall r :: r in valid <==> r in raw && cfg.rowOk(stream, r)
    ensures id in KeysOf(CuratedEntries(valid, dag)) <==> exists i :: 0 <= i < |raw| && raw[i].eventId == id && cfg.rowOk(stream, raw[i])
  {
    var entries := CuratedEntries(valid, dag);
    if id in KeysOf(entries) {
      var j :| 0 <= j < |entries| && entries[j].key == id;
      assert valid[j] in valid;
      var i :| 0 <= i < |raw| && raw[i] == valid[j];
    }
    if i :| 0 <= i < |raw| && raw[i].eventId == id && cfg.rowOk(stream, raw[i]) {
      assert raw[i] in valid;
      var j :| 0 <= j < |valid| && valid[j] == raw[i];
      assert entries[j].key == id;
    }
  }

  /** From every reachable state a run whose windows are acceptable can be carried to its commit. */
  lemma {:induction false} AcceptableRunCanCommit(cfg: Config, schedule: seq<Action>, dag: string)
    requires var s := Run(cfg, INIT, schedule);
             && BothExtracted(s, dag)
             && Acceptable(cfg, Features, s.dags[dag].features.raw) && Acceptable(cfg, Labels, s.dags[dag].labels.raw)
    ensures var s, t := Run(cfg, INIT, schedule), Run(cfg, INIT, schedule + [ValidateBoth(dag)] + [Commit(dag)]);
            && Finished(cfg, Features, s.features, s.dags[dag].features.raw, dag, s.dags[dag].upper, t.features)
            && Finished(cfg, Labels, s.labels, s.dags[dag].labels.raw, dag, s.dags[dag].upper, t.labels)
  {
    var s := Run(cfg, INIT, schedule);
    ValidatedExactlyWhen(cfg, schedule, dag);
    ExtractedAreDistinct(cfg, schedule, dag);
    StepTo(cfg, schedule, ValidateBoth(dag), s);
    var v := Apply(cfg, s, ValidateBoth(dag));
    CommitAfterValidation(cfg, s, dag);
    StepTo(cfg, schedule + [ValidateBoth(dag)], Commit(dag), v);
  }

  lemma StepTo(cfg: Config, schedule: seq<Action>, a: Action, s: State)
    requires Run(cfg, INIT, schedule) == s && Enabled(cfg, s, a)
    ensures Run(cfg, INIT, schedule + [a]) == Apply(cfg, s, a)
  {
    RunSnoc(cfg, INIT, schedule, a);
  }

  lemma {:induction false} ExtractedAreDistinct(cfg: Config, schedule: seq<Action>, dag: string)
    requires BothExtracted(Run(cfg, INIT, schedule), dag)
    ensures var d := Run(cfg, INIT, schedule).dags[dag]; DistinctIds(d.features.raw, RowId) && DistinctIds(d.labels.raw, RowId)
  {
    RunKeeps(cfg, INIT, schedule);
    var s := Run(cfg, INIT, schedule);
    assert JobOk(cfg, Features, s.features, s.dags[dag].upper, s.dags[dag].features);
    assert JobOk(cfg, Labels, s.labels, s.dags[dag].upper, s.dags[dag].labels);
  }

  lemma CommitAfterValidation(cfg: Config, s: State, dag: string)
    requires BothExtracted(s, dag) && Enabled(cfg, s, ValidateBoth(dag))
    requires DistinctIds(s.dags[dag].features.raw, RowId) && DistinctIds(s.dags[dag].labels.raw, RowId)
    ensures var v := Apply(cfg, s, ValidateBoth(dag));
            && Enabled(cfg, v, Commit(dag))
            && var t := Apply(cfg, v, Commit(dag));
               && Finished(cfg, Features, s.features, s.dags[dag].features.raw, dag, s.dags[dag].upper, t.features)
               && Finished(cfg, Labels, s.labels, s.dags[dag].labels.raw, dag, s.dags[dag].upper, t.labels)
  {
    CurateFinishes(cfg, Features, s.features, s.dags[dag].features.raw, dag, s.dags[dag].upper);
    CurateFinishes(cfg, Labels, s.labels, s.dags[dag].labels.raw, dag, s.dags[dag].upper);
  }

  /** The rows a window asks for can always be listed in order of ingestion. */
  lemma {:induction false} WindowExists(lane: Lane, low: Time, upper: Time, ids: set<string>) returns (rows: seq<LandingRow>)
    requires forall id :: id in lane.landing ==> lane.landing[id].eventId == id
    requires forall id :: id in ids ==> id in lane.landing && low < lane.landing[id].ingestedAt <= upper
    ensures DistinctIds(rows, RowId)
    ensures forall i, j :: 0 <= i < j < |rows| ==> rows[i].ingestedAt <= rows[j].ingestedAt
    ensures forall r :: r in rows <==> r.eventId in ids && lane.landing[r.eventId] == r
    decreases |ids|
  {
    if ids == {} {
      rows := [];
    } else {
      var last := LatestIngested(lane, ids);
      var before := WindowExists(lane, low, upper, ids - {last});
      rows := before + [lane.landing[last]];
      assert forall i :: 0 <= i < |before| ==> before[i] in before;
    }
  }

  lemma {:induction false} LatestIngested(lane: Lane, ids: set<string>) returns (last: string)
    requires ids != {} && forall id :: id in ids ==> id in lane.landing
    ensures last in ids && forall id :: id in ids ==> lane.landing[id].ingestedAt <= lane.landing[last].ingestedAt
    decreases |ids|
  {
    var one :| one in ids;
    if ids == {one} {
      last := one;
    } else {
      var rest := LatestIngested(lane, ids - {one});
      last := if lane.landing[one].ingestedAt <= lane.landing[rest].ingestedAt then rest else one;
      assert forall id :: id in ids ==> id == one || id in ids - {one};
    }
  }

  /** A new run can always open, read its watermarks and extract both windows. */
  lemma {:induction false} NewRunCanExtract(cfg: Config, schedule: seq<Action>, dag: string, upper: Time) returns (more: seq<Action>)
    requires dag !in Run(cfg, INIT, schedule).dags
    ensures var s, t := Run(cfg, INIT, schedule), Run(cfg, INIT, schedule + more);
            && BothExtracted(t, dag) && t.dags[dag].upper == upper
            && IsWindow(s.features, Watermark(s.features), upper, t.dags[dag].features.raw)
            && IsWindow(s.labels, Watermark(s.labels), upper, t.dags[dag].labels.raw)
  {
    var begun := OpenAndRead(cfg, schedule, dag, upper);
    var s, b := Run(cfg, INIT, schedule), Run(cfg, INIT, schedule + begun);
    RunKeeps(cfg, INIT, schedule);
    var rowsF := WindowOf(cfg, Features, s.features, upper);
    var rowsL := WindowOf(cfg, Labels, s.labels, upper);
    ExtractBoth(cfg, s, b, dag, upper, rowsF, rowsL);
    var a1, a2 := Extract(dag, Features, rowsF), Extract(dag, Labels, rowsL);
    StepTo(cfg, schedule + begun, a1, b);
    StepTo(cfg, schedule + begun + [a1], a2, Apply(cfg, b, a1));
    more := begun + [a1] + [a2];
    assert schedule + more == schedule + begun + [a1] + [a2];
  }

  lemma ExtractBoth(cfg: Config, s: State, b: State, dag: string, upper: Time, rowsF: seq<LandingRow>, rowsL: seq<LandingRow>)
    requires b == Opened(s, dag, upper)
    requires IsWindow(s.features, Watermark(s.features), upper, rowsF) && IsWindow(s.labels, Watermark(s.labels), upper, rowsL)
    ensures var a1, a2 := Extract(dag, Features, rowsF), Extract(dag, Labels, rowsL);
            && Enabled(cfg, b, a1)
            && var c := Apply(cfg, b, a1);
               && Enabled(cfg, c, a2)
               && var t := Apply(cfg, c, a2);
                  BothExtracted(t, dag) && t.dags[dag] == Dag(upper, Extracted(Watermark(s.features), rowsF), Extracted(Watermark(s.labels), rowsL))
  {
  }

  lemma WindowOf(cfg: Config, stream: Stream, lane: Lane, upper: Time) returns (rows: seq<LandingRow>)
    requires LaneOk(cfg, stream, lane)
    ensures IsWindow(lane, Watermark(lane), upper, rows)
  {
    rows := WindowExists(lane, Watermark(lane), upper, WindowIds(lane, Watermark(lane), upper));
  }

  /** A run that has read both watermarks. */
  function Opened(s: State, dag: string, upper: Time): State {
    s.(dags := s.dags[dag := Dag(upper, Bounded(Watermark(s.features)), Bounded(Watermark(s.labels)))])
  }

  ghost function WindowIds(lane: Lane, low: Time, upper: Time): set<string> {
    set id | id in lane.landing && low < lane.landing[id].ingestedAt <= upper
  }

  lemma {:induction false} OpenAndRead(cfg: Config, schedule: seq<Action>, dag: string, upper: Time) returns (more: seq<Action>)
    requires dag !in Run(cfg, INIT, schedule).dags
    ensures Run(cfg, INIT, schedule + more) == Opened(Run(cfg, INIT, schedule), dag, upper)
  {
    var s := Run(cfg, INIT, schedule);
    var a1, a2, a3 := Open(dag, upper), ReadWatermark(dag, Features), ReadWatermark(dag, Labels);
    OpenSteps(cfg, s, dag, upper);
    StepTo(cfg, schedule, a1, s);
    StepTo(cfg, schedule + [a1], a2, Apply(cfg, s, a1));
    StepTo(cfg, schedule + [a1] + [a2], a3, Apply(cfg, Apply(cfg, s, a1), a2));
    more := [a1] + [a2] + [a3];
    assert schedule + more == schedule + [a1] + [a2] + [a3];
  }

  lemma OpenSteps(cfg: Config, s: State, dag: string, upper: Time)
    requires dag !in s.dags
    ensures var a1, a2, a3 := Open(dag, upper), ReadWatermark(dag, Features), ReadWatermark(dag, Labels);
            && Enabled(cfg, s, a1) && Enabled(cfg, Apply(cfg, s, a1), a2)
            && Enabled(cfg, Apply(cfg, Apply(cfg, s, a1), a2), a3)
            && Apply(cfg, Apply(cfg, Apply(cfg, s, a1), a2), a3) == Opened(s, dag, upper)
  {
  }

  /** A job never holds a row outside the window it was extracted from: above the watermark it read, at or
      below its run's bound. */
  ghost predicate InsideWindow(d: Dag) {
    && JobInside(d.features, d.upper) && JobInside(d.labels, d.upper)
  }

  ghost predicate JobInside(job: Job, upper: Time) {
    && (job.Extracted? ==> forall r :: r in job.raw ==> job.low < r.ingestedAt <= upper)
    && (job.Validated? ==> forall r :: r in job.valid ==> job.low < r.ingestedAt <= upper)
  }

  lemma {:induction false} RunsStayInTheirWindow(cfg: Config, schedule: seq<Action>, dag: string)
    requires dag in Run(cfg, INIT, schedule).dags
    ensures InsideWindow(Run(cfg, INIT, schedule).dags[dag])
  {
    if schedule != [] {
      var t, a := Run(cfg, INIT, schedule[..|schedule| - 1]), schedule[|schedule| - 1];
      if dag in t.dags {
        RunsStayInTheirWindow(cfg, schedule[..|schedule| - 1], dag);
      }
      if Enabled(cfg, t, a) && a.ValidateBoth? {
        ValidStaysInside(cfg, Features, t.dags[a.dag].features);
        ValidStaysInside(cfg, Labels, t.dags[a.dag].labels);
      }
    }
  }

  lemma ValidStaysInside(cfg: Config, stream: Stream, job: Job)
    requires job.Extracted?
    ensures forall r :: r in Check(cfg, stream, job.raw).0 ==> r in job.raw
  {
    SurvivorsMeaning(job.raw, RowId, RowCheck(cfg, stream), |job.raw|);
    forall r | r in Check(cfg, stream, job.raw).0
      ensures r in job.raw
    {
      assert Kept(job.raw, RowId, RowCheck(cfg, stream), |job.raw|, r);
    }
  }

  // ----- the watermark itself -----

  ghost predicate IsMaximum(t: Time, ts: seq<Time>) {
    t in ts && forall i :: 0 <= i < |ts| ==> ts[i] <= t
  }

  ghost predicate WatermarkLaw(policy: AdvancePolicy, lane: Lane) {
    && (lane.watermark == None <==> lane.advances == [])
    && (lane.advances != [] ==>
          match policy
          case Greatest => IsMaximum(lane.watermark.value, lane.advances)
          case Overwrite => lane.watermark.value == lane.advances[|lane.advances| - 1])
  }

  /** The watermark is the maximum of the committed upper bounds whatever the commit order; overwriting
      would make it the latest commit's bound, which regresses as soon as commits are out of order. */
  lemma {:induction false} WatermarkIsMaximumOfCommits(cfg: Config, schedule: seq<Action>)
    ensures WatermarkLaw(cfg.policy, Run(cfg, INIT, schedule).features)
    ensures WatermarkLaw(cfg.policy, Run(cfg, INIT, schedule).labels)
    ensures Run(cfg, INIT, schedule).features.watermark == Run(cfg, INIT, schedule).labels.watermark
  {
    if schedule != [] {
      WatermarkIsMaximumOfCommits(cfg, schedule[..|schedule| - 1]);
      var t := Run(cfg, INIT, schedule[..|schedule| - 1]);
      var a := schedule[|schedule| - 1];
      if Enabled(cfg, t, a) && a.Commit? {
        AdvanceKeepsLaw(cfg.policy, t.features, t.dags[a.dag].upper);
        AdvanceKeepsLaw(cfg.policy, t.labels, t.dags[a.dag].upper);
      }
    }
  }

  lemma AdvanceKeepsLaw(policy: AdvancePolicy, lane: Lane, upper: Time)
    requires WatermarkLaw(policy, lane)
    ensures WatermarkLaw(policy, lane.(watermark := Advance(policy, lane.watermark, upper), advances := lane.advances + [upper]))
  {
    var after := lane.advances + [upper];
    assert upper in after by { assert after[|lane.advances|] == upper; }
    if lane.advances != [] && policy.Greatest? {
      var i :| 0 <= i < |lane.advances| && lane.advances[i] == lane.watermark.value;
      assert after[i] == lane.watermark.value;
    }
  }

  lemma {:induction false} WatermarkNeverRegresses(cfg: Config, s: State, schedule: seq<Action>)
    requires cfg.policy == Greatest
    requires s.features.watermark.Some? && s.labels.watermark.Some?
    ensures var t := Run(cfg, s, schedule);
            && t.features.watermark.Some? && s.features.watermark.value <= t.features.watermark.value
            && t.labels.watermark.Some? && s.labels.watermark.value <= t.labels.watermark.value
  {
    if schedule != [] {
      WatermarkNeverRegresses(cfg, s, schedule[..|schedule| - 1]);
    }
  }

  /** Without GREATEST, two overlapping runs that commit in the other order move the watermark back. */
  lemma OverwriteRegresses(cfg: Config, newer: Time, older: Time, lane: Lane)
    requires older < newer
    ensures var one := Curate(cfg.(policy := Overwrite), lane, [], "newer", newer);
            var two := Curate(cfg.(policy := Overwrite), one, [], "older", older);
            Watermark(two) < Watermark(one)
    ensures var one := Curate(cfg.(policy := Greatest), lane, [], "newer", newer);
            var two := Curate(cfg.(policy := Greatest), one, [], "older", older);
            Watermark(two) == Watermark(one)
  {
  }

  // ----- a late row is lost -----

  ghost predicate ActsFor(a: Action, dags: set<string>) {
    !a.Land? && a.dag in dags
  }

  /** `id` is below the watermark, not curated, and out of reach of every run outside `retired`. */
  ghost predicate OutOfReach(s: State, stream: Stream, id: string, retired: set<string>) {
    var lane := LaneOf(s, stream);
    && id in lane.landing && id !in lane.curated && lane.landing[id].eventId == id
    && lane.watermark.Some? && lane.landing[id].ingestedAt <= lane.watermark.value
    && forall d :: d in s.dags && d !in retired ==>
         var job := JobOf(s.dags[d], stream);
         && (!job.Unread? ==> lane.landing[id].ingestedAt <= job.low)
         && (job.Extracted? ==> forall i :: 0 <= i < |job.raw| ==> job.raw[i].eventId != id)
         && (job.Validated? ==> forall i :: 0 <= i < |job.valid| ==> job.valid[i].eventId != id)
  }

  lemma CheckAddsNoId(cfg: Config, stream: Stream, raw: seq<LandingRow>, id: string)
    requires forall i :: 0 <= i < |raw| ==> raw[i].eventId != id
    ensures var valid := Check(cfg, stream, raw).0;
            forall i :: 0 <= i < |valid| ==> valid[i].eventId != id
  {
    var valid := Check(cfg, stream, raw).0;
    SurvivorsMeaning(raw, RowId, RowCheck(cfg, stream), |raw|);
    forall i | 0 <= i < |valid|
      ensures valid[i].eventId != id
    {
      assert valid[i] in valid;
      assert Kept(raw, RowId, RowCheck(cfg, stream), |raw|, valid[i]);
    }
  }

  /** Once out of reach, always out of reach: no later run ever curates it. */
  lemma OutOfReachStays(cfg: Config, s: State, stream: Stream, id: string, retired: set<string>, a: Action)
    requires cfg.policy == Greatest && OutOfReach(s, stream, id, retired)
    requires Enabled(cfg, s, a) && !ActsFor(a, retired)
    ensures OutOfReach(Apply(cfg, s, a), stream, id, retired)
  {
    match a
    case Land(_, _) =>
    case Open(_, _) =>
    case ReadWatermark(_, _) =>
    case Extract(dag, st, rows) => ExtractMisses(cfg, s, stream, id, retired, dag, st, rows);
    case ValidateBoth(dag) => CheckAddsNoId(cfg, stream, JobOf(s.dags[dag], stream).raw, id);
    case Commit(dag) => CommitMisses(cfg, s, stream, id, retired, dag);
  }

  lemma ExtractMisses(cfg: Config, s: State, stream: Stream, id: string, retired: set<string>, dag: string, st: Stream, rows: seq<LandingRow>)
    requires OutOfReach(s, stream, id, retired) && dag !in retired
    requires Enabled(cfg, s, Extract(dag, st, rows))
    ensures OutOfReach(Apply(cfg, s, Extract(dag, st, rows)), stream, id, retired)
  {
    if st == stream {
      forall i | 0 <= i < |rows|
        ensures rows[i].eventId != id
      {
        assert rows[i] in rows;
      }
    }
  }

  lemma CommitMisses(cfg: Config, s: State, stream: Stream, id: string, retired: set<string>, dag: string)
    requires cfg.policy == Greatest && OutOfReach(s, stream, id, retired) && dag !in retired
    requires Enabled(cfg, s, Commit(dag))
    ensures OutOfReach(Apply(cfg, s, Commit(dag)), stream, id, retired)
  {
    var valid := JobOf(s.dags[dag], stream).valid;
    CuratedOrigin(LaneOf(s, stream).curated, valid, dag);
  }

  lemma {:induction false} LateRowIsLost(cfg: Config, s: State, stream: Stream, id: string, retired: set<string>, more: seq<Action>)
    requires cfg.policy == Greatest && OutOfReach(s, stream, id, retired)
    requires forall i :: 0 <= i < |more| ==> !ActsFor(more[i], retired)
    ensures OutOfReach(Run(cfg, s, more), stream, id, retired)
  {
    if more != [] {
      LateRowIsLost(cfg, s, stream, id, retired, more[..|more| - 1]);
      var t := Run(cfg, s, more[..|more| - 1]);
      if Enabled(cfg, t, more[|more| - 1]) {
        OutOfReachStays(cfg, t, stream, id, retired, more[|more| - 1]);
      }
    }
  }

  lemma RunSnoc(cfg: Config, s: State, schedule: seq<Action>, a: Action)
    ensures var t := Run(cfg, s, schedule);
            Run(cfg, s, schedule + [a]) == if Enabled(cfg, t, a) then Apply(cfg, t, a) else t
  {
    assert (schedule + [a])[..|schedule|] == schedule;
  }

  /** The hypothesis is needed: one row that becomes visible between a run's extraction and its commit,
      with an older ingestion time, ends below the watermark, uncurated, and by LateRowIsLost stays so
      unless that very run is repeated. */
  lemma {:induction false} LateRowTrace(cfg: Config, row: LandingRow) returns (schedule: seq<Action>)
    requires cfg.policy == Greatest && 0.0 <= cfg.maxInvalidFraction
    requires EPOCH < row.ingestedAt && cfg.rowOk(Features, row)
    ensures OutOfReach(Run(cfg, INIT, schedule), Features, row.eventId, {"d"})
  {
    var d := "d";
    var extracted := EmptyWindows(cfg, d, row.ingestedAt);
    var s := Run(cfg, INIT, extracted);
    RunSnoc(cfg, INIT, extracted, Land(Features, row));
    var landed := extracted + [Land(Features, row)];
    assert Run(cfg, INIT, landed) == s.(features := LandIn(s.features, row));
    RunSnoc(cfg, INIT, landed, ValidateBoth(d));
    var validated := landed + [ValidateBoth(d)];
    assert Run(cfg, INIT, validated) ==
      s.(features := LandIn(s.features, row), dags := map[d := Dag(row.ingestedAt, Validated(EPOCH, []), Validated(EPOCH, []))]);
    RunSnoc(cfg, INIT, validated, Commit(d));
    schedule := validated + [Commit(d)];
  }

  /** A first run that finds both landing tables empty. */
  lemma EmptyWindows(cfg: Config, d: string, upper: Time) returns (schedule: seq<Action>)
    requires EPOCH <= upper
    ensures Run(cfg, INIT, schedule) ==
      State(EMPTY.(sealed := upper), EMPTY.(sealed := upper), map[d := Dag(upper, Extracted(EPOCH, []), Extracted(EPOCH, []))])
  {
    var bounded := BothRead(cfg, d, upper);
    RunSnoc(cfg, INIT, bounded, Extract(d, Features, []));
    RunSnoc(cfg, INIT, bounded + [Extract(d, Features, [])], Extract(d, Labels, []));
    schedule := bounded + [Extract(d, Features, [])] + [Extract(d, Labels, [])];
    ExtractNothing(cfg, d, upper);
  }

  lemma ExtractNothing(cfg: Config, d: string, upper: Time)
    requires EPOCH <= upper
    ensures var s := INIT.(dags := map[d := Dag(upper, Bounded(EPOCH), Bounded(EPOCH))]);
            var t := s.(features := EMPTY.(sealed := upper), dags := map[d := Dag(upper, Extracted(EPOCH, []), Bounded(EPOCH))]);
            var u := t.(labels := EMPTY.(sealed := upper), dags := map[d := Dag(upper, Extracted(EPOCH, []), Extracted(EPOCH, []))]);
            && Enabled(cfg, s, Extract(d, Features, [])) && Apply(cfg, s, Extract(d, Features, [])) == t
            && Enabled(cfg, t, Extract(d, Labels, [])) && Apply(cfg, t, Extract(d, Labels, [])) == u
  {
  }

  lemma BothRead(cfg: Config, d: string, upper: Time) returns (schedule: seq<Action>)
    ensures Run(cfg, INIT, schedule) == INIT.(dags := map[d := Dag(upper, Bounded(EPOCH), Bounded(EPOCH))])
  {
    var a1, a2, a3 := Open(d, upper), ReadWatermark(d, Features), ReadWatermark(d, Labels);
    RunSnoc(cfg, INIT, [], a1);
    RunSnoc(cfg, INIT, [] + [a1], a2);
    RunSnoc(cfg, INIT, [] + [a1] + [a2], a3);
    schedule := [] + [a1] + [a2] + [a3];
  }
}
