/** The chunked upsert loop shared by the curated-feature, curated-label and training-record sinks. */
module Upserts {
  import opened Tables

  const UPSERT_BATCH_SIZE := 2000
  /** Postgres refuses a statement with more bind parameters than this. */
  const MAX_BIND_PARAMETERS := 65535
  /** Bind parameters per row of curated.higgs_features, curated.higgs_labels and curated.training_records. */
  const FEATURE_COLUMNS := 6
  const LABEL_COLUMNS := 6
  const TRAINING_COLUMNS := 8

  function Chunked<T>(rows: seq<T>, size: nat): seq<seq<T>>
    requires 0 < size
    decreases |rows|
  {
    if rows == [] then []
    else if |rows| <= size then [rows]
    else [rows[..size]] + Chunked(rows[size..], size)
  }

  function Flatten<T>(chunks: seq<seq<T>>): seq<T> {
    if chunks == [] then [] else chunks[0] + Flatten(chunks[1..])
  }

  /** Cutting loses, adds and reorders nothing; every chunk but the last is full and none is empty. */
  lemma {:induction false} ChunkedPartitions<T>(rows: seq<T>, size: nat)
    requires 0 < size
    ensures Flatten(Chunked(rows, size)) == rows
    ensures forall c :: c in Chunked(rows, size) ==> 0 < |c| <= size
    ensures forall i :: 0 <= i < |Chunked(rows, size)| - 1 ==> |Chunked(rows, size)[i]| == size
    decreases |rows|
  {
    if |rows| > size {
      ChunkedPartitions(rows[size..], size);
      assert rows == rows[..size] + rows[size..];
    }
  }

  lemma {:induction false} FlattenSnoc<T>(chunks: seq<seq<T>>, last: seq<T>)
    ensures Flatten(chunks + [last]) == Flatten(chunks) + last
  {
    if chunks == [] {
      assert chunks + [last] == [last];
      assert Flatten([last]) == last + Flatten([]);
    } else {
      FlattenSnoc(chunks[1..], last);
      assert (chunks + [last])[1..] == chunks[1..] + [last];
    }
  }

  lemma FlattenNext<K, V>(table: map<K, V>, chunks: seq<seq<Entry<K, V>>>, i: nat)
    requires i < |chunks|
    ensures InsertAll(InsertAll(table, Flatten(chunks[..i])), chunks[i]) == InsertAll(table, Flatten(chunks[..i + 1]))
  {
    assert chunks[..i + 1] == chunks[..i] + [chunks[i]];
    FlattenSnoc(chunks[..i], chunks[i]);
    InsertAllConcat(table, Flatten(chunks[..i]), chunks[i]);
  }

  /** A single statement over `rows` is refused exactly when its parameters exceed the cap; chunked,
      no backlog is. */
  lemma ChunksRespectParameterCap<T>(rows: seq<T>, columns: nat)
    requires columns * UPSERT_BATCH_SIZE <= MAX_BIND_PARAMETERS
    ensures forall c :: c in Chunked(rows, UPSERT_BATCH_SIZE) ==> |c| * columns <= MAX_BIND_PARAMETERS
  {
    ChunkedPartitions(rows, UPSERT_BATCH_SIZE);
    forall c | c in Chunked(rows, UPSERT_BATCH_SIZE)
      ensures |c| * columns <= MAX_BIND_PARAMETERS
    {
      MulMonotone(|c|, UPSERT_BATCH_SIZE, columns);
    }
  }

  lemma MulMonotone(a: nat, b: nat, c: nat)
    requires a <= b
    ensures a * c <= b * c
  {
  }

  /** New rows a statement inserts: what RETURNING yields. */
  ghost function Inserted<K, V>(table: map<K, V>, es: seq<Entry<K, V>>): nat
  {
    |KeysOf(es) - table.Keys|
  }

  lemma {:induction false} InsertedIsGrowth<K, V>(table: map<K, V>, es: seq<Entry<K, V>>)
    ensures |InsertAll(table, es)| == |table| + Inserted(table, es)
  {
    InsertAllMeaning(table, es);
    assert InsertAll(table, es).Keys == table.Keys + (KeysOf(es) - table.Keys);
    assert |InsertAll(table, es)| == |InsertAll(table, es).Keys|;
  }

  datatype Execution = Returned(count: nat) | TooManyParameters

  class Sink<K(==), V> {
    var rows: map<K, V>

    constructor ()
      ensures rows == map[]
    {
      rows := map[];
    }

    /** One INSERT ... ON CONFLICT DO NOTHING RETURNING statement. */
    method Execute(es: seq<Entry<K, V>>, columns: nat) returns (r: Execution)
      modifies this
      ensures r.TooManyParameters? <==> |es| * columns > MAX_BIND_PARAMETERS
      ensures r.TooManyParameters? ==> rows == old(rows)
      ensures r.Returned? ==> rows == InsertAll(old(rows), es) && r.count == Inserted(old(rows), es)
    {
      if |es| * columns > MAX_BIND_PARAMETERS {
        return TooManyParameters;
      }
      var count := 0;
      ghost var before := rows;
      assert InsertAll(before, es[..0]) == before;
      for i := 0 to |es|
        invariant rows == InsertAll(before, es[..i])
        invariant count == |rows| - |before|
      {
        assert es[..i + 1][..i] == es[..i];
        if es[i].key !in rows {
          rows := rows[es[i].key := es[i].row];
          count := count + 1;
        }
      }
      assert es[..|es|] == es;
      InsertedIsGrowth(before, es);
      return Returned(count);
    }

    /** The upsert loop of the three sinks: for any backlog it leaves the table and the total that one
        unbounded statement would, and never meets the parameter cap. */
    method UpsertChunked(es: seq<Entry<K, V>>, columns: nat) returns (total: nat)
      requires columns == FEATURE_COLUMNS || columns == LABEL_COLUMNS || columns == TRAINING_COLUMNS
      modifies this
      ensures rows == InsertAll(old(rows), es)
      ensures total == Inserted(old(rows), es)
    {
      total := 0;
      ghost var before := rows;
      var chunks := Chunked(es, UPSERT_BATCH_SIZE);
      ChunksRespectParameterCap(es, columns);
      for i := 0 to |chunks|
        invariant rows == InsertAll(before, Flatten(chunks[..i]))
        invariant total == |rows| - |before|
      {
        InsertedIsGrowth(rows, chunks[i]);
        var r := Execute(chunks[i], columns);
        total := total + r.count;
        FlattenNext(before, chunks, i);
      }
      assert chunks[..|chunks|] == chunks;
      ChunkedPartitions(es, UPSERT_BATCH_SIZE);
      InsertedIsGrowth(before, es);
    }
  }
}
