/** The atomic task of a run: both chunked upserts and both watermark advances. */
module CurationTask {
  import opened Tables
  import opened Validation
  import opened Curation
  import opened Upserts

  const FEATURES_PIPELINE := "higgs_features"
  const LABELS_PIPELINE := "higgs_labels"

  /** control.pipeline_watermarks. */
  class Watermarks {
    var rows: map<string, Time>

    constructor ()
      ensures rows == map[]
    {
      rows := map[];
    }

    ghost function At(pipeline: string): Option<Time>
      reads this
    {
      if pipeline in rows then Some(rows[pipeline]) else None
    }

    method Get(pipeline: string) returns (t: Time)
      ensures t == if At(pipeline).Some? then At(pipeline).value else EPOCH
    {
      t := if pipeline in rows then rows[pipeline] else EPOCH;
    }

    /** INSERT ... ON CONFLICT DO UPDATE SET watermark = GREATEST(watermark, excluded.watermark). */
    method AdvanceTo(pipeline: string, bound: Time)
      modifies this
      ensures At(pipeline) == Advance(Greatest, old(At(pipeline)), bound)
      ensures forall p :: p != pipeline ==> At(p) == old(At(p))
    {
      rows := rows[pipeline := if pipeline in rows then MaxTime(rows[pipeline], bound) else bound];
    }
  }

  /** The silver rows are the validated rows in another order: the transform sorts them by event id. */
  ghost predicate Reordered(silver: seq<LandingRow>, valid: seq<LandingRow>) {
    && DistinctIds(silver, RowId)
    && forall r :: r in silver <==> r in valid
  }

  /** Sorting does not change what is curated. */
  lemma SortingIsIrrelevant(curated: map<string, CuratedRow>, silver: seq<LandingRow>, valid: seq<LandingRow>, dag: string)
    requires Reordered(silver, valid) && DistinctIds(valid, RowId)
    ensures InsertAll(curated, CuratedEntries(silver, dag)) == InsertAll(curated, CuratedEntries(valid, dag))
  {
    var a, b := CuratedEntries(silver, dag), CuratedEntries(valid, dag);
    EntriesFollow(silver, valid, dag);
    EntriesFollow(valid, silver, dag);
    InsertAllUnordered(curated, a, b);
  }

  lemma EntriesFollow(from: seq<LandingRow>, to: seq<LandingRow>, dag: string)
    requires DistinctIds(from, RowId)
    requires forall r :: r in from ==> r in to
    ensures DistinctKeys(CuratedEntries(from, dag))
    ensures forall e :: e in CuratedEntries(from, dag) ==> e in CuratedEntries(to, dag)
  {
    var a, b := CuratedEntries(from, dag), CuratedEntries(to, dag);
    forall i, j | 0 <= i < j < |a|
      ensures a[i].key != a[j].key
    {
      assert RowId(from[i]) != RowId(from[j]);
    }
    forall e | e in a
      ensures e in b
    {
      var i :| 0 <= i < |a| && a[i] == e;
      assert from[i] in from;
      var j :| 0 <= j < |to| && to[j] == from[i];
      assert b[j] == e;
    }
  }

  class Warehouse {
    const features: Sink<string, CuratedRow>
    const labels: Sink<string, CuratedRow>
    const watermarks: Watermarks

    constructor (features: Sink<string, CuratedRow>, labels: Sink<string, CuratedRow>, watermarks: Watermarks)
      ensures this.features == features && this.labels == labels && this.watermarks == watermarks
    {
      this.features, this.labels, this.watermarks := features, labels, watermarks;
    }

    /** The tables and watermarks are those of the two pipelines. */
    ghost predicate Holds(f: Lane, l: Lane)
      reads features, labels, watermarks
    {
      && features.rows == f.curated && labels.rows == l.curated
      && watermarks.At(FEATURES_PIPELINE) == f.watermark && watermarks.At(LABELS_PIPELINE) == l.watermark
    }

    /** The watermarks a run starts from: what the protocol reads. */
    method DetermineHighWatermark(ghost f: Lane, ghost l: Lane) returns (featuresWatermark: Time, labelsWatermark: Time)
      requires Holds(f, l)
      ensures featuresWatermark == Watermark(f) && labelsWatermark == Watermark(l)
    {
      featuresWatermark := watermarks.Get(FEATURES_PIPELINE);
      labelsWatermark := watermarks.Get(LABELS_PIPELINE);
    }

    method UpdateCurated(sink: Sink<string, CuratedRow>, silver: seq<LandingRow>, dag: string, columns: nat) returns (inserted: nat)
      requires columns == FEATURE_COLUMNS || columns == LABEL_COLUMNS
      modifies sink
      ensures sink.rows == InsertAll(old(sink.rows), CuratedEntries(silver, dag))
      ensures inserted == Inserted(old(sink.rows), CuratedEntries(silver, dag))
    {
      if silver == [] {
        assert KeysOf(CuratedEntries(silver, dag)) == {};
        return 0;
      }
      inserted := sink.UpsertChunked(CuratedEntries(silver, dag), columns);
    }

    /** session_scope: an exception undoes whatever the transaction has done. */
    method RollBack(features0: map<string, CuratedRow>, labels0: map<string, CuratedRow>, watermarks0: map<string, Time>)
      modifies features, labels, watermarks
      ensures watermarks.rows == watermarks0 && labels.rows == labels0
      ensures features != labels ==> features.rows == features0
    {
      features.rows := features0;
      labels.rows := labels0;
      watermarks.rows := watermarks0;
    }

    /** The calls of the transaction, in order; only the first `done` of them complete. */
    method RunCalls(silverFeatures: seq<LandingRow>, silverLabels: seq<LandingRow>, dag: string, upper: Time, done: nat)
      returns (featuresInserted: nat, labelsInserted: nat)
      requires features != labels
      modifies features, labels, watermarks
      ensures 4 <= done ==>
        && features.rows == InsertAll(old(features.rows), CuratedEntries(silverFeatures, dag))
        && labels.rows == InsertAll(old(labels.rows), CuratedEntries(silverLabels, dag))
        && watermarks.At(FEATURES_PIPELINE) == Advance(Greatest, old(watermarks.At(FEATURES_PIPELINE)), upper)
        && watermarks.At(LABELS_PIPELINE) == Advance(Greatest, old(watermarks.At(LABELS_PIPELINE)), upper)
        && featuresInserted == Inserted(old(features.rows), CuratedEntries(silverFeatures, dag))
        && labelsInserted == Inserted(old(labels.rows), CuratedEntries(silverLabels, dag))
    {
      featuresInserted, labelsInserted := 0, 0;
      if done < 1 { return; }
      featuresInserted := UpdateCurated(features, silverFeatures, dag, FEATURE_COLUMNS);
      if done < 2 { return; }
      labelsInserted := UpdateCurated(labels, silverLabels, dag, LABEL_COLUMNS);
      if done < 3 { return; }
      watermarks.AdvanceTo(FEATURES_PIPELINE, upper);
      if done < 4 { return; }
      watermarks.AdvanceTo(LABELS_PIPELINE, upper);
    }

    /** The commit step of the curation protocol, for both pipelines at once, or no step at all: `done` of the
        four calls complete, and if the next one raises, having done any part of its work, nothing stays. */
    method UpdateCuratedTablesAndAdvanceWatermarks(
      cfg: Config, silverFeatures: seq<LandingRow>, silverLabels: seq<LandingRow>, dag: string, upper: Time, done: nat,
      ghost f: Lane, ghost l: Lane, ghost validFeatures: seq<LandingRow>, ghost validLabels: seq<LandingRow>)
      returns (raised: bool, featuresInserted: nat, labelsInserted: nat)
      requires features != labels && cfg.policy == Greatest && Holds(f, l)
      requires Reordered(silverFeatures, validFeatures) && DistinctIds(validFeatures, RowId)
      requires Reordered(silverLabels, validLabels) && DistinctIds(validLabels, RowId)
      modifies features, labels, watermarks
      ensures raised <==> done < 4
      ensures raised ==> Holds(f, l)
      ensures !raised ==> Holds(Curate(cfg, f, validFeatures, dag, upper), Curate(cfg, l, validLabels, dag, upper))
      ensures !raised ==> featuresInserted == |features.rows| - |f.curated| && labelsInserted == |labels.rows| - |l.curated|
    {
      var features0, labels0, watermarks0 := features.rows, labels.rows, watermarks.rows;
      raised := done < 4;
      featuresInserted, labelsInserted := RunCalls(silverFeatures, silverLabels, dag, upper, done);
      if raised {
        features.rows, labels.rows := *, *;  // part of the call that raised
        RollBack(features0, labels0, watermarks0);
        return;
      }
      InsertedIsGrowth(f.curated, CuratedEntries(silverFeatures, dag));
      InsertedIsGrowth(l.curated, CuratedEntries(silverLabels, dag));
      SortingIsIrrelevant(f.curated, silverFeatures, validFeatures, dag);
      SortingIsIrrelevant(l.curated, silverLabels, validLabels, dag);
    }
  }
}
