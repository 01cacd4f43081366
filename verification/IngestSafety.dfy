/** Safety of the ingest protocol over every run. */
module IngestSafety {
  import opened Tables
  import opened IngestProtocol

  /** Heights stay inside the logs, and committed offsets stay at or below what is handled. */
  ghost predicate HeightsOk(s: State) {
    forall p :: HeightOf(s.committed, p) <= HeightOf(s.handled, p) <= |LogOf(s.logs, p)|
  }

  ghost predicate Within(logs: Logs, h: Heights) {
    forall p :: HeightOf(h, p) <= |LogOf(logs, p)|
  }

  ghost predicate Routed(cfg: Config, logs: Logs) {
    forall p, o: nat, k :: o < |LogOf(logs, p)| && CarriesKey(p, LogOf(logs, p)[o], k) ==> cfg.route(k) == p
  }

  /** What the handled prefix of the partition that owns `k` determines. */
  ghost function Reference(cfg: Config, logs: Logs, h: Heights, k: Key): Landing
    requires Within(logs, h)
  {
    Dedup(cfg.route(k), LogOf(logs, cfg.route(k))[..HeightOf(h, cfg.route(k))])
  }

  ghost predicate SameAt(a: Landing, b: Landing, k: Key) {
    && (k in a <==> k in b)
    && (k in a ==> a[k] == b[k])
  }

  /** The landing tables are the first-valid-occurrence dedup of the logs cut at the heights `h`. */
  ghost predicate LandingIs(cfg: Config, logs: Logs, h: Heights, landing: Landing) {
    && Within(logs, h)
    && forall k :: SameAt(landing, Reference(cfg, logs, h, k), k)
  }

  /** Prefix closure: below every batched offset lies only what is handled or earlier in the batch. */
  ghost predicate Closed(h: Heights, batch: seq<Slot>) {
    forall i, o: nat :: 0 <= i < |batch| && o < batch[i].offset ==>
      o < HeightOf(h, batch[i].p) || Slot(batch[i].p, o) in batch[..i]
  }

  /** The same below every position a consumer would read from next. */
  ghost predicate Anchored(h: Heights, me: Consumer) {
    forall p, o: nat :: p in me.positions && o < me.positions[p] ==>
      o < HeightOf(h, p) || Slot(p, o) in me.batch
  }

  ghost predicate AllHandled(h: Heights, batch: seq<Slot>) {
    forall i :: 0 <= i < |batch| ==> batch[i].offset < HeightOf(h, batch[i].p)
  }

  /** A batch that may be written at any time: prefix-closed, its refused messages dead-lettered, the others
      fit for the database. */
  ghost predicate SentOk(cfg: Config, s: State, batch: seq<Slot>) {
    && InLogs(s.logs, batch)
    && Closed(s.handled, batch)
    && RefusedSlots(s.logs, batch) <= s.dlq && Parses(s.logs, batch) && Fits(cfg, s.logs, batch)
  }

  ghost predicate ConsumerOk(s: State, me: Consumer) {
    && InLogs(s.logs, me.batch)
    && (forall p :: p in me.positions ==> me.positions[p] <= |LogOf(s.logs, p)|)
    && Closed(s.handled, me.batch)
    && Anchored(s.handled, me)
    && (me.phase.Writing? || me.phase.Committing? ==> RefusedSlots(s.logs, me.batch) <= s.dlq && Parses(s.logs, me.batch))
    && (me.phase.Committing? ==> AllHandled(s.handled, me.batch))
  }

  /** Every refused message below the handled height was handed to the dead-letter producer, and no message
      there blocks. */
  ghost predicate DeadLettered(cfg: Config, s: State) {
    forall p, o: nat | o < HeightOf(s.handled, p) && o < |LogOf(s.logs, p)| ::
      Settled(cfg, s, Slot(p, o), LogOf(s.logs, p)[o])
  }

  ghost predicate Settled(cfg: Config, s: State, slot: Slot, raw: Raw) {
    && !Blocks(cfg, slot.p.topic, raw)
    && (Validate(slot.p.topic, raw).Refused? ==> slot in s.dlq)
  }

  ghost predicate ConsumersOk(s: State) {
    forall c :: c in s.consumers ==> ConsumerOk(s, s.consumers[c])
  }

  ghost predicate InFlightOk(cfg: Config, s: State) {
    forall batch :: batch in s.inFlight ==> SentOk(cfg, s, batch)
  }

  ghost predicate Inv(cfg: Config, s: State) {
    && HeightsOk(s)
    && Routed(cfg, s.logs)
    && LandingIs(cfg, s.logs, s.handled, s.landing)
    && DeadLettered(cfg, s)
    && ConsumersOk(s)
    && InFlightOk(cfg, s)
  }

  // ----- one transaction -----

  lemma OccursInDedup(p: Partition, log: seq<Raw>, h: nat, o: nat, k: Key)
    requires o < h <= |log| && CarriesKey(p, log[o], k)
    ensures k in Dedup(p, log[..h])
  {
    assert CarriesKey(p, log[..h][o], k);
    DedupKeys(p, log[..h], k);
  }

  ghost predicate TopsIn(h: Heights, batch: seq<Slot>) {
    forall p :: 0 < HeightOf(h, p) ==> Slot(p, HeightOf(h, p) - 1) in batch
  }

  lemma {:induction false} NextOffsetsMeaning(batch: seq<Slot>)
    ensures AllHandled(NextOffsets(batch), batch)
    ensures TopsIn(NextOffsets(batch), batch)
  {
    if batch != [] {
      var init, last := batch[..|batch| - 1], batch[|batch| - 1];
      NextOffsetsMeaning(init);
      NextOffsetsStep(NextOffsets(init), init, last);
      assert batch == init + [last];
    }
  }

  lemma NextOffsetsStep(before: Heights, init: seq<Slot>, last: Slot)
    requires AllHandled(before, init) && TopsIn(before, init)
    ensures var next := before[last.p := Max(HeightOf(before, last.p), last.offset + 1)];
            AllHandled(next, init + [last]) && TopsIn(next, init + [last])
  {
    var next := before[last.p := Max(HeightOf(before, last.p), last.offset + 1)];
    var batch := init + [last];
    forall p | 0 < HeightOf(next, p)
      ensures Slot(p, HeightOf(next, p) - 1) in batch
    {
      if HeightOf(next, p) == HeightOf(before, p) {
        assert Slot(p, HeightOf(before, p) - 1) in init;
      } else {
        assert batch[|init|] == Slot(p, HeightOf(next, p) - 1);
      }
    }
    forall i | 0 <= i < |batch|
      ensures batch[i].offset < HeightOf(next, batch[i].p)
    {
      if i < |init| {
        assert init[i].offset < HeightOf(before, init[i].p);
      }
    }
  }

  lemma TopsAreHandled(h: Heights, next: Heights, batch: seq<Slot>)
    requires TopsIn(next, batch) && AllHandled(h, batch)
    ensures forall p :: HeightOf(next, p) <= HeightOf(h, p)
  {
    forall p | 0 < HeightOf(next, p)
      ensures HeightOf(next, p) <= HeightOf(h, p)
    {
      var i :| 0 <= i < |batch| && batch[i] == Slot(p, HeightOf(next, p) - 1);
      assert batch[i].offset < HeightOf(h, batch[i].p);
    }
  }

  lemma PutLeaves(landing: Landing, p: Partition, o: nat, raw: Raw, k: Key)
    requires k in landing || !CarriesKey(p, raw, k)
    ensures SameAt(Put(landing, p, o, raw), landing, k)
  {
  }

  lemma PutPreservesSame(a: Landing, b: Landing, p: Partition, o: nat, raw: Raw, k: Key)
    requires SameAt(a, b, k)
    ensures SameAt(Put(a, p, o, raw), Put(b, p, o, raw), k)
  {
  }

  /** One more message, at or below the height its partition has reached, seen from one key. */
  lemma AbsorbKey(cfg: Config, logs: Logs, h: Heights, h': Heights, landing: Landing, slot: Slot, k: Key)
    requires Routed(cfg, logs) && Within(logs, h) && Within(logs, h')
    requires slot.offset < |LogOf(logs, slot.p)| && slot.offset <= HeightOf(h, slot.p)
    requires HeightOf(h', cfg.route(k)) ==
      if cfg.route(k) == slot.p then Max(HeightOf(h, slot.p), slot.offset + 1) else HeightOf(h, cfg.route(k))
    requires SameAt(landing, Reference(cfg, logs, h, k), k)
    ensures SameAt(Put(landing, slot.p, slot.offset, RawAt(logs, slot)), Reference(cfg, logs, h', k), k)
  {
    var p, o, log := slot.p, slot.offset, LogOf(logs, slot.p);
    if cfg.route(k) == p && o == HeightOf(h, p) {
      DedupStep(p, log[..o + 1]);
      assert log[..o + 1][..o] == log[..o];
      PutPreservesSame(landing, Dedup(p, log[..o]), p, o, log[o], k);
    } else {
      if CarriesKey(p, log[o], k) {
        OccursInDedup(p, log, HeightOf(h, p), o, k);
      }
      PutLeaves(landing, p, o, log[o], k);
    }
  }

  lemma AbsorbOne(cfg: Config, logs: Logs, h: Heights, h': Heights, landing: Landing, slot: Slot)
    requires Routed(cfg, logs) && LandingIs(cfg, logs, h, landing)
    requires slot.offset < |LogOf(logs, slot.p)| && slot.offset <= HeightOf(h, slot.p)
    requires forall q :: HeightOf(h', q) == if q == slot.p then Max(HeightOf(h, q), slot.offset + 1) else HeightOf(h, q)
    ensures LandingIs(cfg, logs, h', InsertAll(landing, RowsAt(slot.p, slot.offset, RawAt(logs, slot))))
  {
    PutInserts(landing, slot.p, slot.offset, RawAt(logs, slot));
    assert Within(logs, h');
    forall k
      ensures SameAt(Put(landing, slot.p, slot.offset, RawAt(logs, slot)), Reference(cfg, logs, h', k), k)
    {
      AbsorbKey(cfg, logs, h, h', landing, slot, k);
    }
  }

  /** In a prefix-closed batch the last message meets its partition at, or below, the height reached. */
  lemma NoGap(h: Heights, batch: seq<Slot>)
    requires batch != [] && Closed(h, batch)
    ensures batch[|batch| - 1].offset <= HeightOf(Raise(h, NextOffsets(batch[..|batch| - 1])), batch[|batch| - 1].p)
  {
    var n := |batch| - 1;
    var last := batch[n];
    var h1 := Raise(h, NextOffsets(batch[..n]));
    NextOffsetsMeaning(batch[..n]);
    assert Slot(last.p, HeightOf(h1, last.p)) !in batch[..n];
  }

  lemma RaiseStep(h: Heights, batch: seq<Slot>)
    requires batch != []
    ensures var last, h1 := batch[|batch| - 1], Raise(h, NextOffsets(batch[..|batch| - 1]));
            forall q :: HeightOf(Raise(h, NextOffsets(batch)), q) ==
              if q == last.p then Max(HeightOf(h1, q), last.offset + 1) else HeightOf(h1, q)
  {
  }

  /** A whole batch, in one transaction, over a prefix-closed batch. */
  lemma {:induction false} AbsorbBatch(cfg: Config, logs: Logs, h: Heights, landing: Landing, batch: seq<Slot>)
    requires Routed(cfg, logs) && LandingIs(cfg, logs, h, landing)
    requires InLogs(logs, batch) && Closed(h, batch)
    ensures LandingIs(cfg, logs, Raise(h, NextOffsets(batch)), InsertAll(landing, BatchRows(logs, batch)))
  {
    if batch == [] {
      SameHeights(cfg, logs, h, Raise(h, NextOffsets(batch)), landing);
    } else {
      var n := |batch| - 1;
      var init, last := batch[..n], batch[n];
      assert forall i :: 0 <= i < n ==> init[..i] == batch[..i];
      AbsorbBatch(cfg, logs, h, landing, init);
      var h1 := Raise(h, NextOffsets(init));
      NoGap(h, batch);
      RaiseStep(h, batch);
      AbsorbOne(cfg, logs, h1, Raise(h, NextOffsets(batch)), InsertAll(landing, BatchRows(logs, init)), last);
      InsertAllConcat(landing, BatchRows(logs, init), RowsAt(last.p, last.offset, RawAt(logs, last)));
    }
  }

  lemma SameHeights(cfg: Config, logs: Logs, h: Heights, h': Heights, landing: Landing)
    requires LandingIs(cfg, logs, h, landing)
    requires forall p :: HeightOf(h, p) == HeightOf(h', p)
    ensures LandingIs(cfg, logs, h', landing)
  {
    assert Within(logs, h');
    assert forall k :: Reference(cfg, logs, h', k) == Reference(cfg, logs, h, k);
  }

  // ----- every action keeps the invariant -----

  /** Logs, handled heights and dead letters only grow. */
  ghost predicate Grows(s: State, t: State) {
    && (forall p :: LogOf(s.logs, p) <= LogOf(t.logs, p))
    && (forall p :: HeightOf(s.handled, p) <= HeightOf(t.handled, p))
    && s.dlq <= t.dlq
  }

  /** What a consumer relies on survives whatever the others do. */
  lemma ConsumerOkIsStable(s: State, t: State, me: Consumer)
    requires Grows(s, t) && ConsumerOk(s, me)
    ensures ConsumerOk(t, me)
  {
    forall i | 0 <= i < |me.batch|
      ensures me.batch[i].offset < |LogOf(t.logs, me.batch[i].p)| && RawAt(t.logs, me.batch[i]) == RawAt(s.logs, me.batch[i])
    {
      assert LogOf(s.logs, me.batch[i].p) <= LogOf(t.logs, me.batch[i].p);
    }
    forall p | p in me.positions
      ensures me.positions[p] <= |LogOf(t.logs, p)|
    {
      assert LogOf(s.logs, p) <= LogOf(t.logs, p);
    }
    assert RefusedSlots(t.logs, me.batch) <= RefusedSlots(s.logs, me.batch);
  }

  lemma SentOkIsStable(cfg: Config, s: State, t: State, batch: seq<Slot>)
    requires Grows(s, t) && SentOk(cfg, s, batch)
    ensures SentOk(cfg, t, batch)
  {
    FitsStays(cfg, s.logs, t.logs, batch);
    forall i | 0 <= i < |batch|
      ensures batch[i].offset < |LogOf(t.logs, batch[i].p)| && RawAt(t.logs, batch[i]) == RawAt(s.logs, batch[i])
    {
      assert LogOf(s.logs, batch[i].p) <= LogOf(t.logs, batch[i].p);
    }
    assert RefusedSlots(t.logs, batch) <= RefusedSlots(s.logs, batch);
  }

  lemma ConsumersAreStable(cfg: Config, s: State, t: State)
    requires Grows(s, t) && s.consumers == t.consumers && t.inFlight <= s.inFlight && ConsumersOk(s) && InFlightOk(cfg, s)
    ensures ConsumersOk(t) && InFlightOk(cfg, t)
  {
    forall c | c in t.consumers
      ensures ConsumerOk(t, t.consumers[c])
    {
      ConsumerOkIsStable(s, t, s.consumers[c]);
    }
    forall batch | batch in t.inFlight
      ensures SentOk(cfg, t, batch)
    {
      SentOkIsStable(cfg, s, t, batch);
    }
  }

  lemma ProduceKeeps(cfg: Config, s: State, p: Partition, raw: Raw)
    requires Inv(cfg, s) && Enabled(cfg, s, Produce(p, raw))
    ensures Inv(cfg, Apply(cfg, s, Produce(p, raw)))
  {
    var t := Apply(cfg, s, Produce(p, raw));
    assert forall q :: LogOf(t.logs, q) == if q == p then LogOf(s.logs, p) + [raw] else LogOf(s.logs, q);
    assert Grows(s, t);
    forall k
      ensures Within(t.logs, t.handled) && Reference(cfg, t.logs, t.handled, k) == Reference(cfg, s.logs, s.handled, k)
    {
      var q := cfg.route(k);
      assert LogOf(t.logs, q)[..HeightOf(s.handled, q)] == LogOf(s.logs, q)[..HeightOf(s.handled, q)];
    }
    ConsumersAreStable(cfg, s, t);
  }

  /** A poll extends the batch by the message at the position: the batch stays prefix-closed, even when
      a rebalance inside the same batch has rewound the position. */
  lemma {:induction false} PollKeepsClosed(s: State, me: Consumer, p: Partition)
    requires ConsumerOk(s, me) && me.phase.Polling?
    requires p in me.positions && me.positions[p] < |LogOf(s.logs, p)|
    ensures var o := me.positions[p];
            ConsumerOk(s, me.(positions := me.positions[p := o + 1], batch := me.batch + [Slot(p, o)]))
  {
    var o := me.positions[p];
    var you := me.(positions := me.positions[p := o + 1], batch := me.batch + [Slot(p, o)]);
    forall i, j: nat | 0 <= i < |you.batch| && j < you.batch[i].offset
      ensures j < HeightOf(s.handled, you.batch[i].p) || Slot(you.batch[i].p, j) in you.batch[..i]
    {
      if i < |me.batch| {
        assert you.batch[..i] == me.batch[..i];
      } else {
        assert you.batch[..i] == me.batch;
      }
    }
    forall q, j: nat | q in you.positions && j < you.positions[q]
      ensures j < HeightOf(s.handled, q) || Slot(q, j) in you.batch
    {
      if q == p && j == o {
        assert you.batch[|me.batch|] == Slot(p, o);
      } else {
        assert j < HeightOf(s.handled, q) || Slot(q, j) in me.batch;
      }
    }
  }

  /** A finished batch may be dropped: all of it is handled, so nothing that relied on it is lost. */
  lemma DropHandledBatch(s: State, me: Consumer)
    requires ConsumerOk(s, me) && AllHandled(s.handled, me.batch)
    ensures ConsumerOk(s, me.(batch := [], phase := Polling))
  {
    forall p | p in me.positions
      ensures me.positions[p] <= HeightOf(s.handled, p)
    {
      assert Slot(p, HeightOf(s.handled, p)) !in me.batch;
    }
  }

  /** A transaction whose commit takes effect, whatever was reported and however late it does. */
  lemma WriteKeeps(cfg: Config, s: State, batch: seq<Slot>)
    requires Inv(cfg, s) && SentOk(cfg, s, batch)
    ensures Inv(cfg, Write(s, batch)) && Grows(s, Write(s, batch))
    ensures AllHandled(Write(s, batch).handled, batch)
  {
    AllHandledAfterWrite(s.handled, batch);
    AbsorbBatch(cfg, s.logs, s.handled, s.landing, batch);
    WriteKeepsDeadLettered(cfg, s, batch);
    ConsumersAreStable(cfg, s, Write(s, batch));
  }

  /** So a commit may take effect after its consumer has retried, gone on, crashed or been replaced. */
  lemma LandKeeps(cfg: Config, s: State, batch: seq<Slot>)
    requires Inv(cfg, s) && Enabled(cfg, s, Land(batch))
    ensures Inv(cfg, Apply(cfg, s, Land(batch)))
  {
    WriteKeeps(cfg, s, batch);
    var t := Write(s, batch);
    ConsumersAreStable(cfg, t, t.(inFlight := t.inFlight - {batch}));
  }

  lemma AllHandledAfterWrite(h: Heights, batch: seq<Slot>)
    ensures AllHandled(Raise(h, NextOffsets(batch)), batch)
    ensures forall p :: HeightOf(h, p) <= HeightOf(Raise(h, NextOffsets(batch)), p)
  {
    NextOffsetsMeaning(batch);
  }

  lemma WriteKeepsDeadLettered(cfg: Config, s: State, batch: seq<Slot>)
    requires DeadLettered(cfg, s) && SentOk(cfg, s, batch)
    ensures DeadLettered(cfg, Write(s, batch))
  {
    var t := Write(s, batch);
    forall p, o: nat | o < HeightOf(t.handled, p) && o < |LogOf(s.logs, p)|
      ensures Settled(cfg, s, Slot(p, o), LogOf(s.logs, p)[o])
    {
      if HeightOf(s.handled, p) <= o {
        NextOffsetsMeaning(batch);
        NewlyHandledIsInBatch(s.handled, NextOffsets(batch), batch, p, o);
        BatchedRefusals(cfg, s.logs, batch, Slot(p, o));
      }
    }
  }

  lemma BatchedRefusals(cfg: Config, logs: Logs, batch: seq<Slot>, slot: Slot)
    requires InLogs(logs, batch) && slot in batch
    ensures slot.offset < |LogOf(logs, slot.p)|
    ensures Validate(slot.p.topic, RawAt(logs, slot)).Refused? ==> slot in RefusedSlots(logs, batch)
    ensures Parses(logs, batch) && Fits(cfg, logs, batch) ==> !Blocks(cfg, slot.p.topic, RawAt(logs, slot))
  {
    var i :| 0 <= i < |batch| && batch[i] == slot;
    if Fits(cfg, logs, batch) {
      FitsAt(cfg, logs, batch, i);
    }
  }

  lemma {:induction false} FitsAt(cfg: Config, logs: Logs, batch: seq<Slot>, i: nat)
    requires InLogs(logs, batch) && Fits(cfg, logs, batch) && i < |batch|
    ensures MessageFits(cfg, batch[i].p.topic, RawAt(logs, batch[i]))
  {
    if i < |batch| - 1 {
      FitsAt(cfg, logs, batch[..|batch| - 1], i);
    }
  }

  lemma {:induction false} FitsStays(cfg: Config, logs: Logs, logs': Logs, batch: seq<Slot>)
    requires InLogs(logs, batch) && Fits(cfg, logs, batch)
    requires forall p :: LogOf(logs, p) <= LogOf(logs', p)
    ensures InLogs(logs', batch) && Fits(cfg, logs', batch)
  {
    forall i | 0 <= i < |batch|
      ensures batch[i].offset < |LogOf(logs', batch[i].p)| && RawAt(logs', batch[i]) == RawAt(logs, batch[i])
    {
      assert LogOf(logs, batch[i].p) <= LogOf(logs', batch[i].p);
    }
    if batch != [] {
      FitsStays(cfg, logs, logs', batch[..|batch| - 1]);
    }
  }

  lemma NewlyHandledIsInBatch(h: Heights, next: Heights, batch: seq<Slot>, p: Partition, o: nat)
    requires Closed(h, batch) && TopsIn(next, batch)
    requires HeightOf(h, p) <= o < HeightOf(next, p)
    ensures Slot(p, o) in batch
  {
    var top := HeightOf(next, p) - 1;
    var i :| 0 <= i < |batch| && batch[i] == Slot(p, top);
    if o < top {
      assert Slot(batch[i].p, o) in batch[..i];
    }
  }

  lemma EndBatchKeeps(cfg: Config, s: State, me: Consumer)
    requires Inv(cfg, s) && ConsumerOk(s, me) && me.phase.Polling? && Parses(s.logs, me.batch)
    ensures var t := s.(dlq := s.dlq + RefusedSlots(s.logs, me.batch));
            Inv(cfg, t) && ConsumerOk(t, me.(phase := Writing(0)))
  {
    var t := s.(dlq := s.dlq + RefusedSlots(s.logs, me.batch));
    ConsumerOkIsStable(s, t, me);
    ConsumersAreStable(cfg, s, t);
  }

  lemma CommitKeeps(cfg: Config, s: State, me: Consumer, kept: Heights)
    requires Inv(cfg, s) && ConsumerOk(s, me) && me.phase.Committing?
    requires forall p :: p in kept ==> p in NextOffsets(me.batch) && kept[p] == NextOffsets(me.batch)[p]
    ensures Inv(cfg, s.(committed := s.committed + kept))
  {
    NextOffsetsMeaning(me.batch);
    TopsAreHandled(s.handled, NextOffsets(me.batch), me.batch);
    assert forall p :: p in kept ==> kept[p] == HeightOf(NextOffsets(me.batch), p);
    var t := s.(committed := s.committed + kept);
    assert Grows(s, t);
    ConsumersAreStable(cfg, s, t);
  }

  /** A rebalance moves positions only to what is committed, so to what is handled. */
  lemma RebalanceKeeps(cfg: Config, s: State, me: Consumer, step: Step)
    requires HeightsOk(s) && ConsumerOk(s, me) && StepEnabled(cfg, s, me, step) && (step.Assign? || step.Revoke?)
    ensures ConsumerOk(s, Local(cfg, s, me, step))
  {
    var you := Local(cfg, s, me, step);
    forall p | p in you.positions
      ensures you.positions[p] == HeightOf(s.committed, p) || (p in me.positions && you.positions[p] == me.positions[p])
    {
    }
  }

  lemma StopKeeps(cfg: Config, s: State, me: Consumer, step: Step)
    requires ConsumerOk(s, me) && StepEnabled(cfg, s, me, step) && (step.Crash? || step.WriteFailed?)
    ensures ConsumerOk(s, Local(cfg, s, me, step))
  {
  }

  lemma WrittenKeeps(cfg: Config, s: State, me: Consumer, step: Step)
    requires Inv(cfg, s) && ConsumerOk(s, me) && StepEnabled(cfg, s, me, step) && (step.WriteOk? || step.WriteAmbiguous?)
    ensures Inv(cfg, Write(s, me.batch)) && ConsumerOk(Write(s, me.batch), Local(cfg, s, me, step))
  {
    WriteKeeps(cfg, s, me.batch);
    ConsumerOkIsStable(s, Write(s, me.batch), me);
  }

  lemma CrashInBatchKeeps(cfg: Config, s: State, me: Consumer, step: Step)
    requires Inv(cfg, s) && ConsumerOk(s, me) && StepEnabled(cfg, s, me, step) && step.CrashInBatch?
    ensures Inv(cfg, Shared(cfg, s, me, step)) && ConsumerOk(Shared(cfg, s, me, step), Local(cfg, s, me, step))
  {
    ConsumersAreStable(cfg, s, Shared(cfg, s, me, step));
  }

  lemma InDoubtKeeps(cfg: Config, s: State, me: Consumer, step: Step)
    requires Inv(cfg, s) && ConsumerOk(s, me) && StepEnabled(cfg, s, me, step) && (step.WriteInDoubt? || step.CrashInDoubt?)
    ensures Inv(cfg, Shared(cfg, s, me, step)) && ConsumerOk(Shared(cfg, s, me, step), Local(cfg, s, me, step))
  {
    SendKeeps(cfg, s, me.batch);
    assert Shared(cfg, s, me, step) == s.(inFlight := s.inFlight + {me.batch});
    assert Local(cfg, s, me, step).positions == me.positions || Local(cfg, s, me, step) == STOPPED;
  }

  lemma SendKeeps(cfg: Config, s: State, batch: seq<Slot>)
    requires Inv(cfg, s) && SentOk(cfg, s, batch)
    ensures Inv(cfg, s.(inFlight := s.inFlight + {batch}))
  {
  }

  /** The shared half of a step keeps the invariant, and the consumer's own half fits the new state. */
  lemma StepKeeps(cfg: Config, s: State, me: Consumer, step: Step)
    requires Inv(cfg, s) && ConsumerOk(s, me) && StepEnabled(cfg, s, me, step)
    ensures Inv(cfg, Shared(cfg, s, me, step))
    ensures ConsumerOk(Shared(cfg, s, me, step), Local(cfg, s, me, step))
  {
    match step
    case Crash => StopKeeps(cfg, s, me, step);
    case Assign(_) => RebalanceKeeps(cfg, s, me, step);
    case Revoke(_) => RebalanceKeeps(cfg, s, me, step);
    case Poll(p) => PollKeepsClosed(s, me, p);
    case EndBatch => EndBatchKeeps(cfg, s, me);
    case CrashInBatch(_) => CrashInBatchKeeps(cfg, s, me, step);
    case WriteOk => WrittenKeeps(cfg, s, me, step);
    case WriteFailed => StopKeeps(cfg, s, me, step);
    case WriteAmbiguous => WrittenKeeps(cfg, s, me, step);
    case WriteInDoubt => InDoubtKeeps(cfg, s, me, step);
    case CrashInDoubt => InDoubtKeeps(cfg, s, me, step);
    case CommitAccepted => FinishKeeps(cfg, s, me, NextOffsets(me.batch));
    case CommitRejected(applied) => FinishKeeps(cfg, s, me, Restrict(NextOffsets(me.batch), applied));
  }

  lemma FinishKeeps(cfg: Config, s: State, me: Consumer, kept: Heights)
    requires Inv(cfg, s) && ConsumerOk(s, me) && me.phase.Committing?
    requires forall p :: p in kept ==> p in NextOffsets(me.batch) && kept[p] == NextOffsets(me.batch)[p]
    ensures Inv(cfg, s.(committed := s.committed + kept))
    ensures ConsumerOk(s.(committed := s.committed + kept), me.(batch := [], phase := Polling))
  {
    CommitKeeps(cfg, s, me, kept);
    DropHandledBatch(s, me);
    ConsumerOkIsStable(s, s.(committed := s.committed + kept), me.(batch := [], phase := Polling));
  }

  lemma ApplyKeeps(cfg: Config, s: State, a: Action)
    requires Inv(cfg, s) && Enabled(cfg, s, a)
    ensures Inv(cfg, Apply(cfg, s, a))
  {
    match a
    case Produce(p, raw) => ProduceKeeps(cfg, s, p, raw);
    case Start(c) => ReplaceConsumer(cfg, s, c, FRESH);
    case Do(c, step) =>
      StepKeeps(cfg, s, s.consumers[c], step);
      ReplaceConsumer(cfg, Shared(cfg, s, s.consumers[c], step), c, Local(cfg, s, s.consumers[c], step));
    case Land(batch) => LandKeeps(cfg, s, batch);
  }

  lemma ReplaceConsumer(cfg: Config, s: State, c: nat, me: Consumer)
    requires Inv(cfg, s) && ConsumerOk(s, me)
    ensures Inv(cfg, s.(consumers := s.consumers[c := me]))
  {
    var t := s.(consumers := s.consumers[c := me]);
    forall d | d in t.consumers
      ensures ConsumerOk(t, t.consumers[d])
    {
      ConsumerOkIsStable(s, t, t.consumers[d]);
    }
  }

  // ----- main results -----

  /** The invariant holds in every reachable state, for any number of consumers and every schedule. */
  lemma {:induction false} RunKeeps(cfg: Config, s: State, schedule: seq<Action>)
    requires Inv(cfg, s)
    ensures Inv(cfg, Run(cfg, s, schedule))
  {
    if schedule != [] {
      RunKeeps(cfg, s, schedule[..|schedule| - 1]);
      var t := Run(cfg, s, schedule[..|schedule| - 1]);
      if Enabled(cfg, t, schedule[|schedule| - 1]) {
        ApplyKeeps(cfg, t, schedule[|schedule| - 1]);
      }
    }
  }

  /** Landed rows stay as they are. */
  ghost predicate KeepsRows(a: Landing, b: Landing) {
    forall k :: k in a ==> k in b && b[k] == a[k]
  }

  lemma StepGrows(cfg: Config, s: State, me: Consumer, step: Step)
    requires StepEnabled(cfg, s, me, step)
    ensures Grows(s, Shared(cfg, s, me, step)) && KeepsRows(s.landing, Shared(cfg, s, me, step).landing)
  {
    if step.WriteOk? || step.WriteAmbiguous? {
      InsertAllMeaning(s.landing, BatchRows(s.logs, me.batch));
    }
  }

  /** Nothing that has landed is ever changed or lost, and nothing handled is ever forgotten, whatever the
      schedule does from there. */
  lemma {:induction false} RunGrows(cfg: Config, s: State, schedule: seq<Action>)
    ensures Grows(s, Run(cfg, s, schedule)) && KeepsRows(s.landing, Run(cfg, s, schedule).landing)
  {
    if schedule != [] {
      var t, a := Run(cfg, s, schedule[..|schedule| - 1]), schedule[|schedule| - 1];
      RunGrows(cfg, s, schedule[..|schedule| - 1]);
      if a.Do? && Enabled(cfg, t, a) {
        StepGrows(cfg, t, t.consumers[a.c], a.step);
      } else if a.Land? && Enabled(cfg, t, a) {
        InsertAllMeaning(t.landing, BatchRows(t.logs, a.batch));
      }
      GrowsOn(s, t, After(cfg, t, a));
    }
  }

  lemma GrowsOn(s: State, t: State, u: State)
    requires Grows(s, t) && Grows(t, u)
    ensures Grows(s, u)
  {
    forall p
      ensures LogOf(s.logs, p) <= LogOf(u.logs, p)
    {
      assert LogOf(s.logs, p) <= LogOf(t.logs, p) <= LogOf(u.logs, p);
    }
  }

  ghost predicate Explains(cfg: Config, s: State, h: Heights) {
    && LandingIs(cfg, s.logs, h, s.landing)
    && forall p :: HeightOf(s.committed, p) <= HeightOf(h, p)
  }

  /** In every reachable state there is a height per partition, at or above the committed offset, such
      that the landing tables are the dedup of the logs cut there. */
  lemma {:induction false} LandingIsDedupOfPrefix(cfg: Config, schedule: seq<Action>)
    ensures exists h :: Explains(cfg, Run(cfg, INIT, schedule), h)
  {
    RunKeeps(cfg, INIT, schedule);
    var s := Run(cfg, INIT, schedule);
    assert Explains(cfg, s, s.handled);
  }

  /** Committing never skips a message: below a committed offset every valid message is in its landing
      table and every refused one was handed to the dead-letter producer. */
  lemma {:induction false} CommittedMeansHandled(cfg: Config, schedule: seq<Action>, p: Partition, o: nat)
    requires o < HeightOf(Run(cfg, INIT, schedule).committed, p)
    ensures var s := Run(cfg, INIT, schedule);
            o < |LogOf(s.logs, p)| &&
            match Validate(p.topic, LogOf(s.logs, p)[o])
            case Accepted(event) => Key(p.topic, event.eventId) in s.landing && cfg.fits(event)
            case Refused(_) => Slot(p, o) in s.dlq
            case Raises => false
  {
    RunKeeps(cfg, INIT, schedule);
    var s := Run(cfg, INIT, schedule);
    assert HeightOf(s.committed, p) <= HeightOf(s.handled, p);
    HandledMeans(cfg, s, p, o);
  }

  lemma HandledMeans(cfg: Config, s: State, p: Partition, o: nat)
    requires Inv(cfg, s) && o < HeightOf(s.handled, p)
    ensures o < |LogOf(s.logs, p)| &&
            match Validate(p.topic, LogOf(s.logs, p)[o])
            case Accepted(event) => Key(p.topic, event.eventId) in s.landing && cfg.fits(event)
            case Refused(_) => Slot(p, o) in s.dlq
            case Raises => false
  {
    assert HeightOf(s.handled, p) <= |LogOf(s.logs, p)|;
    if Validate(p.topic, LogOf(s.logs, p)[o]).Accepted? {
      var k := Key(p.topic, Validate(p.topic, LogOf(s.logs, p)[o]).event.eventId);
      assert CarriesKey(p, LogOf(s.logs, p)[o], k);
      assert SameAt(s.landing, Reference(cfg, s.logs, s.handled, k), k);
      OccursInDedup(p, LogOf(s.logs, p), HeightOf(s.handled, p), o, k);
    }
  }

  /** Prefix closure of every batch in every run, also one that spans a revoke and a reassign: below each
      batched message lies only what was handled before or comes earlier in the batch. */
  lemma {:induction false} BatchIsPrefixClosed(cfg: Config, schedule: seq<Action>, c: nat, i: nat, o: nat)
    requires var s := Run(cfg, INIT, schedule);
             c in s.consumers && i < |s.consumers[c].batch| && o < s.consumers[c].batch[i].offset
    ensures var s := Run(cfg, INIT, schedule);
            var batch := s.consumers[c].batch;
            var p := batch[i].p;
            && o < |LogOf(s.logs, p)|
            && (Slot(p, o) in batch[..i]
                || match Validate(p.topic, LogOf(s.logs, p)[o])
                   case Accepted(event) => Key(p.topic, event.eventId) in s.landing
                   case Refused(_) => Slot(p, o) in s.dlq
                   case Raises => false)
  {
    RunKeeps(cfg, INIT, schedule);
    var s := Run(cfg, INIT, schedule);
    assert ConsumerOk(s, s.consumers[c]);
    var p := s.consumers[c].batch[i].p;
    assert o < HeightOf(s.handled, p) || Slot(p, o) in s.consumers[c].batch[..i];
    if o < HeightOf(s.handled, p) {
      HandledMeans(cfg, s, p, o);
    }
  }

  /** Two runs of the same traffic, however different their faults: whichever rows both have landed are
      the same rows, Kafka offset included, even while one run is ahead of the other. */
  lemma {:induction false} RunsAgreeOnCommonRows(cfg: Config, cfg': Config, schedule: seq<Action>, schedule': seq<Action>, k: Key)
    requires cfg.route == cfg'.route
    requires var s, t := Run(cfg, INIT, schedule), Run(cfg', INIT, schedule');
             && (forall p :: LogOf(s.logs, p) <= LogOf(t.logs, p))
             && k in s.landing && k in t.landing
    ensures Run(cfg, INIT, schedule).landing[k] == Run(cfg', INIT, schedule').landing[k]
  {
    RunKeeps(cfg, INIT, schedule);
    RunKeeps(cfg', INIT, schedule');
    var s, t := Run(cfg, INIT, schedule), Run(cfg', INIT, schedule');
    StatesAgreeOnCommonRow(cfg, cfg', s, t, k);
  }

  lemma StatesAgreeOnCommonRow(cfg: Config, cfg': Config, s: State, t: State, k: Key)
    requires cfg.route == cfg'.route && Inv(cfg, s) && Inv(cfg', t)
    requires LogOf(s.logs, cfg.route(k)) <= LogOf(t.logs, cfg.route(k))
    requires k in s.landing && k in t.landing
    ensures s.landing[k] == t.landing[k]
  {
    var p := cfg.route(k);
    assert SameAt(s.landing, Reference(cfg, s.logs, s.handled, k), k);
    assert SameAt(t.landing, Reference(cfg', t.logs, t.handled, k), k);
    assert HeightOf(s.handled, p) <= |LogOf(s.logs, p)| && HeightOf(t.handled, p) <= |LogOf(t.logs, p)|;
    PrefixesAgree(p, LogOf(s.logs, p), LogOf(t.logs, p), HeightOf(s.handled, p), HeightOf(t.handled, p), k);
  }

  lemma PrefixesAgree(p: Partition, log: seq<Raw>, log': seq<Raw>, h: nat, h': nat, k: Key)
    requires log <= log' && h <= |log| && h' <= |log'|
    requires k in Dedup(p, log[..h]) && k in Dedup(p, log'[..h'])
    ensures Dedup(p, log[..h])[k] == Dedup(p, log'[..h'])[k]
  {
    if h <= h' {
      DedupGrows(p, log[..h], log'[..h'], k);
    } else {
      DedupGrows(p, log'[..h'], log[..h], k);
    }
  }

  /** Everything produced has been committed. */
  ghost predicate Drained(s: State) {
    forall p :: HeightOf(s.committed, p) == |LogOf(s.logs, p)|
  }

  /** Once drained, the table contents are a function of the logs alone: no trace of the fault schedule,
      the number of consumers, the batch size or the retry limit is left. */
  lemma {:induction false} DrainedRunsAgree(cfg: Config, cfg': Config, schedule: seq<Action>, schedule': seq<Action>)
    requires cfg.route == cfg'.route
    requires var s, t := Run(cfg, INIT, schedule), Run(cfg', INIT, schedule');
             Drained(s) && Drained(t) && forall p :: LogOf(s.logs, p) == LogOf(t.logs, p)
    ensures Run(cfg, INIT, schedule).landing == Run(cfg', INIT, schedule').landing
  {
    RunKeeps(cfg, INIT, schedule);
    RunKeeps(cfg', INIT, schedule');
    DrainedStatesAgree(cfg, cfg', Run(cfg, INIT, schedule), Run(cfg', INIT, schedule'));
  }

  lemma DrainedStatesAgree(cfg: Config, cfg': Config, s: State, t: State)
    requires cfg.route == cfg'.route && Inv(cfg, s) && Inv(cfg', t)
    requires Drained(s) && Drained(t) && forall p :: LogOf(s.logs, p) == LogOf(t.logs, p)
    ensures s.landing == t.landing
  {
    forall k
      ensures SameAt(s.landing, t.landing, k)
    {
      var p := cfg.route(k);
      assert |LogOf(s.logs, p)| == HeightOf(s.committed, p) <= HeightOf(s.handled, p) <= |LogOf(s.logs, p)|;
      assert |LogOf(t.logs, p)| == HeightOf(t.committed, p) <= HeightOf(t.handled, p) <= |LogOf(t.logs, p)|;
      assert SameAt(s.landing, Reference(cfg, s.logs, s.handled, k), k);
      assert SameAt(t.landing, Reference(cfg', t.logs, t.handled, k), k);
    }
    SameEverywhere(s.landing, t.landing);
  }

  lemma SameEverywhere(a: Landing, b: Landing)
    requires forall k :: SameAt(a, b, k)
    ensures a == b
  {
    forall k
      ensures k in a <==> k in b
    {
      assert SameAt(a, b, k);
    }
    forall k | k in a
      ensures a[k] == b[k]
    {
      assert SameAt(a, b, k);
    }
  }

  /** A commit under way writes its whole batch when it takes effect, whenever that is. */
  lemma LandWrites(cfg: Config, s: State, batch: seq<Slot>)
    requires Enabled(cfg, s, Land(batch))
    ensures var t := Apply(cfg, s, Land(batch));
            KeysOf(BatchRows(s.logs, batch)) <= t.landing.Keys && AllHandled(t.handled, batch) && batch !in t.inFlight
  {
    InsertAllMeaning(s.landing, BatchRows(s.logs, batch));
    AllHandledAfterWrite(s.handled, batch);
  }

  /** No batch ever exceeds the configured size. */
  lemma {:induction false} BatchesAreBounded(cfg: Config, schedule: seq<Action>, c: nat)
    requires c in Run(cfg, INIT, schedule).consumers
    ensures |Run(cfg, INIT, schedule).consumers[c].batch| <= cfg.batchSize
  {
    if schedule != [] {
      var t := Run(cfg, INIT, schedule[..|schedule| - 1]);
      if c in t.consumers {
        BatchesAreBounded(cfg, schedule[..|schedule| - 1], c);
      }
    }
  }

  /** A revoked partition is not read until it is assigned again. */
  lemma RevokedIsNotPolled(cfg: Config, s: State, c: nat, ps: set<Partition>, p: Partition)
    requires Enabled(cfg, s, Do(c, Revoke(ps))) && p in ps
    ensures !Enabled(cfg, Apply(cfg, s, Do(c, Revoke(ps))), Do(c, Poll(p)))
  {
  }

  // ----- what becomes of a message, in its own terms -----

  /** What validation says of each kind of message. */
  lemma ValidateInFull(topic: Topic, raw: Raw)
    ensures raw.NoValue? ==> Validate(topic, raw) == Refused(EmptyMessageValue)
    ensures raw.NotJson? ==> Validate(topic, raw) == Refused(InvalidJson)
    ensures raw.Document? && topic == Features ==>
      Validate(topic, raw) == if raw.asFeature == None then Refused(SchemaValidationFailed) else Accepted(raw.asFeature.value)
    ensures raw.Document? && topic == Labels ==>
      Validate(topic, raw) == if raw.asLabel == None then Refused(SchemaValidationFailed) else Accepted(raw.asLabel.value)
  {
  }

  /** A message blocks exactly if the parser raises on it, or its topic's own schema reads it as an event that
      does not fit. */
  lemma BlocksExactlyWhen(cfg: Config, topic: Topic, raw: Raw)
    ensures Blocks(cfg, topic, raw) <==>
      || raw.Unparseable?
      || (raw.Document? && topic == Features && raw.asFeature.Some? && !cfg.fits(raw.asFeature.value))
      || (raw.Document? && topic == Labels && raw.asLabel.Some? && !cfg.fits(raw.asLabel.value))
  {
  }

  /** Once drained: what its topic's own schema reads has its id in that topic's table, everything else was
      handed to the dead-letter producer and has no row. */
  lemma {:induction false} DocumentsReachTheirTable(cfg: Config, schedule: seq<Action>, p: Partition, o: nat)
    requires var s := Run(cfg, INIT, schedule); Drained(s) && o < |LogOf(s.logs, p)|
    ensures var s := Run(cfg, INIT, schedule);
            match LogOf(s.logs, p)[o]
            case Document(asFeature, asLabel) =>
              && (p.topic == Features && asFeature.Some? ==> Key(Features, asFeature.value.eventId) in s.landing)
              && (p.topic == Labels && asLabel.Some? ==> Key(Labels, asLabel.value.eventId) in s.landing)
              && (p.topic == Features && asFeature.None? ==> Slot(p, o) in s.dlq && RowlessSlot(s.landing, p, o))
              && (p.topic == Labels && asLabel.None? ==> Slot(p, o) in s.dlq && RowlessSlot(s.landing, p, o))
            case NoValue => Slot(p, o) in s.dlq && RowlessSlot(s.landing, p, o)
            case NotJson => Slot(p, o) in s.dlq && RowlessSlot(s.landing, p, o)
            case Unparseable => false
  {
    CommittedMeansHandled(cfg, schedule, p, o);
    var s := Run(cfg, INIT, schedule);
    if !Validate(p.topic, LogOf(s.logs, p)[o]).Accepted? {
      RefusedHasNoRow(cfg, schedule, p, o);
    }
  }

  /** No landing row was made from the message at this offset. */
  ghost predicate RowlessSlot(landing: Landing, p: Partition, o: nat) {
    forall k :: k in landing && k.topic == p.topic ==> landing[k].kafkaPartition != p.index || landing[k].kafkaOffset != o
  }

  lemma {:induction false} RefusedHasNoRow(cfg: Config, schedule: seq<Action>, p: Partition, o: nat)
    requires var s := Run(cfg, INIT, schedule);
             o < |LogOf(s.logs, p)| && !Validate(p.topic, LogOf(s.logs, p)[o]).Accepted?
    ensures RowlessSlot(Run(cfg, INIT, schedule).landing, p, o)
  {
    var s := Run(cfg, INIT, schedule);
    forall k | k in s.landing && k.topic == p.topic
      ensures s.landing[k].kafkaPartition != p.index || s.landing[k].kafkaOffset != o
    {
      LandingOrigin(cfg, schedule, k);
      assert cfg.route(k).topic == k.topic;
      assert cfg.route(k).index == p.index ==> cfg.route(k) == p;
    }
  }

  lemma {:induction false} LandingOrigin(cfg: Config, schedule: seq<Action>, k: Key)
    requires k in Run(cfg, INIT, schedule).landing
    ensures var s := Run(cfg, INIT, schedule);
            Originates(cfg.route(k), LogOf(s.logs, cfg.route(k)), k, s.landing[k])
  {
    RunKeeps(cfg, INIT, schedule);
    var s, p := Run(cfg, INIT, schedule), cfg.route(k);
    assert SameAt(s.landing, Reference(cfg, s.logs, s.handled, k), k);
    DedupOrigin(p, LogOf(s.logs, p)[..HeightOf(s.handled, p)], k);
  }

  /** A landing row holds what its table's own schema made of the message at its partition and offset. */
  lemma {:induction false} RowsComeFromTheirDocument(cfg: Config, schedule: seq<Action>, k: Key)
    requires k in Run(cfg, INIT, schedule).landing
    ensures var s := Run(cfg, INIT, schedule);
            var row, p := s.landing[k], cfg.route(k);
            && p.topic == k.topic && row.kafkaPartition == p.index && row.kafkaOffset < |LogOf(s.logs, p)|
            && row.event.eventId == k.eventId
            && var raw := LogOf(s.logs, p)[row.kafkaOffset];
               raw.Document? && Some(row.event) == if k.topic == Features then raw.asFeature else raw.asLabel
  {
    LandingOrigin(cfg, schedule, k);
  }

  // ----- recovery -----

  /** Consumer `c` runs and holds no batch. */
  ghost predicate Idle(s: State, c: nat) {
    c in s.consumers && s.consumers[c].phase.Polling? && s.consumers[c].batch == []
  }

  ghost predicate NoneBlocks(cfg: Config, logs: Logs) {
    forall p, o: nat :: o < |LogOf(logs, p)| ==> !Blocks(cfg, p.topic, LogOf(logs, p)[o])
  }

  ghost predicate NoTraffic(schedule: seq<Action>) {
    forall i :: 0 <= i < |schedule| ==> !schedule[i].Produce?
  }

  lemma ReadOne(cfg: Config, s: State, c: nat, p: Partition) returns (steps: seq<Action>)
    requires 1 <= cfg.batchSize && Idle(s, c) && HeightOf(s.committed, p) < |LogOf(s.logs, p)|
    ensures NoTraffic(steps)
    ensures var t := Run(cfg, s, steps);
            && c in t.consumers && t.consumers[c].phase == Polling
            && t.consumers[c].batch == [Slot(p, HeightOf(s.committed, p))]
            && t.logs == s.logs && t.committed == s.committed && t.landing == s.landing
  {
    var a1, a2 := Do(c, Assign({p})), Do(c, Poll(p));
    var s1 := After(cfg, s, a1);
    assert p in s1.consumers[c].positions && s1.consumers[c].positions[p] == HeightOf(s.committed, p);
    RunSnoc(cfg, s, [], a1);
    RunSnoc(cfg, s, [] + [a1], a2);
    steps := [] + [a1] + [a2];
  }

  lemma WriteOne(cfg: Config, s: State, c: nat, slot: Slot) returns (steps: seq<Action>)
    requires c in s.consumers && s.consumers[c].phase == Polling && s.consumers[c].batch == [slot]
    requires slot.offset < |LogOf(s.logs, slot.p)| && !Blocks(cfg, slot.p.topic, RawAt(s.logs, slot))
    ensures NoTraffic(steps)
    ensures var t := Run(cfg, s, steps);
            && c in t.consumers && t.consumers[c].phase == Committing && t.consumers[c].batch == [slot]
            && t.logs == s.logs && t.committed == s.committed
            && t.landing == Put(s.landing, slot.p, slot.offset, RawAt(s.logs, slot))
  {
    var a1, a2 := Do(c, EndBatch), Do(c, WriteOk);
    SingletonWrite(s, slot);
    SingletonFits(cfg, s.logs, slot);
    var s1 := After(cfg, s, a1);
    assert s1.consumers[c] == s.consumers[c].(phase := Writing(0)) && s1.logs == s.logs;
    SingletonWrite(s1, slot);
    RunSnoc(cfg, s, [], a1);
    RunSnoc(cfg, s, [] + [a1], a2);
    steps := [] + [a1] + [a2];
  }

  lemma SingletonFits(cfg: Config, logs: Logs, slot: Slot)
    requires slot.offset < |LogOf(logs, slot.p)| && !Blocks(cfg, slot.p.topic, RawAt(logs, slot))
    ensures InLogs(logs, [slot]) && Fits(cfg, logs, [slot]) && Parses(logs, [slot])
  {
    var batch := [slot];
    assert batch[..|batch| - 1] == [];
    assert Fits(cfg, logs, []);
  }

  lemma SingletonWrite(s: State, slot: Slot)
    requires slot.offset < |LogOf(s.logs, slot.p)|
    ensures InLogs(s.logs, [slot])
    ensures Write(s, [slot]).landing == Put(s.landing, slot.p, slot.offset, RawAt(s.logs, slot))
  {
    var rows := RowsAt(slot.p, slot.offset, RawAt(s.logs, slot));
    assert BatchRows(s.logs, [slot]) == [] + rows == rows;
    PutInserts(s.landing, slot.p, slot.offset, RawAt(s.logs, slot));
  }

  lemma CommitOne(cfg: Config, s: State, c: nat, slot: Slot)
    requires c in s.consumers && s.consumers[c].phase == Committing && s.consumers[c].batch == [slot]
    ensures var t := Run(cfg, s, [Do(c, CommitAccepted)]);
            && Idle(t, c) && t.logs == s.logs && t.committed == s.committed[slot.p := slot.offset + 1]
            && t.landing == s.landing
  {
    assert NextOffsets([slot]) == map[slot.p := slot.offset + 1];
    assert s.committed + NextOffsets([slot]) == s.committed[slot.p := slot.offset + 1];
    RunOne(cfg, s, Do(c, CommitAccepted));
  }

  /** One message of `p`, alone in its batch, without faults. */
  lemma DrainOne(cfg: Config, s: State, c: nat, p: Partition) returns (steps: seq<Action>)
    requires 1 <= cfg.batchSize && Idle(s, c)
    requires HeightOf(s.committed, p) < |LogOf(s.logs, p)| && NoneBlocks(cfg, s.logs)
    ensures NoTraffic(steps)
    ensures var t := Run(cfg, s, steps);
            && Idle(t, c) && t.logs == s.logs
            && t.committed == s.committed[p := HeightOf(s.committed, p) + 1]
            && t.landing == Put(s.landing, p, HeightOf(s.committed, p), LogOf(s.logs, p)[HeightOf(s.committed, p)])
  {
    var slot := Slot(p, HeightOf(s.committed, p));
    var read := ReadOne(cfg, s, c, p);
    var write := WriteOne(cfg, Run(cfg, s, read), c, slot);
    CommitOne(cfg, Run(cfg, Run(cfg, s, read), write), c, slot);
    RunConcat(cfg, s, read, write);
    RunConcat(cfg, s, read + write, [Do(c, CommitAccepted)]);
    steps := read + write + [Do(c, CommitAccepted)];
  }

  lemma {:induction false} DrainPartition(cfg: Config, s: State, c: nat, p: Partition) returns (steps: seq<Action>)
    requires 1 <= cfg.batchSize && Inv(cfg, s) && Idle(s, c) && NoneBlocks(cfg, s.logs)
    ensures NoTraffic(steps)
    ensures var t := Run(cfg, s, steps);
            && Idle(t, c) && t.logs == s.logs
            && forall q :: HeightOf(t.committed, q) == if q == p then |LogOf(s.logs, p)| else HeightOf(s.committed, q)
    decreases |LogOf(s.logs, p)| - HeightOf(s.committed, p)
  {
    assert HeightOf(s.committed, p) <= HeightOf(s.handled, p) <= |LogOf(s.logs, p)|;
    if HeightOf(s.committed, p) == |LogOf(s.logs, p)| {
      steps := [];
    } else {
      var first := DrainOne(cfg, s, c, p);
      RunKeeps(cfg, s, first);
      var rest := DrainPartition(cfg, Run(cfg, s, first), c, p);
      RunConcat(cfg, s, first, rest);
      steps := first + rest;
    }
  }

  lemma {:induction false} DrainPartitions(cfg: Config, s: State, c: nat, ps: set<Partition>) returns (steps: seq<Action>)
    requires 1 <= cfg.batchSize && Inv(cfg, s) && Idle(s, c) && NoneBlocks(cfg, s.logs)
    ensures NoTraffic(steps)
    ensures var t := Run(cfg, s, steps);
            && Idle(t, c) && t.logs == s.logs
            && forall q :: HeightOf(t.committed, q) == if q in ps then |LogOf(s.logs, q)| else HeightOf(s.committed, q)
    decreases ps
  {
    if ps == {} {
      steps := [];
    } else {
      var p :| p in ps;
      var first := DrainPartition(cfg, s, c, p);
      RunKeeps(cfg, s, first);
      var rest := DrainPartitions(cfg, Run(cfg, s, first), c, ps - {p});
      RunConcat(cfg, s, first, rest);
      steps := first + rest;
    }
  }

  lemma Restart(cfg: Config, s: State, c: nat) returns (steps: seq<Action>)
    ensures NoTraffic(steps)
    ensures var t := Run(cfg, s, steps);
            Idle(t, c) && t.logs == s.logs && t.committed == s.committed
  {
    RunSnoc(cfg, s, [], Do(c, Crash));
    RunSnoc(cfg, s, [] + [Do(c, Crash)], Start(c));
    steps := [] + [Do(c, Crash)] + [Start(c)];
  }

  /** Recovery: after any faults whatever, a restart with a healthy database drains the log, so the
      tables become the dedup of everything produced. Nothing was lost on the way. */
  lemma {:induction false} EveryStateCanDrain(cfg: Config, schedule: seq<Action>) returns (more: seq<Action>)
    requires 1 <= cfg.batchSize && NoneBlocks(cfg, Run(cfg, INIT, schedule).logs)
    ensures NoTraffic(more)
    ensures var s, t := Run(cfg, INIT, schedule), Run(cfg, INIT, schedule + more);
            t.logs == s.logs && Drained(t)
  {
    RunKeeps(cfg, INIT, schedule);
    var s := Run(cfg, INIT, schedule);
    var restart := Restart(cfg, s, 0);
    RunKeeps(cfg, s, restart);
    var s2 := Run(cfg, s, restart);
    var drain := DrainPartitions(cfg, s2, 0, s.logs.Keys);
    RunConcat(cfg, s, restart, drain);
    RunConcat(cfg, INIT, schedule, restart + drain);
    more := restart + drain;
    var t := Run(cfg, s2, drain);
    forall p
      ensures HeightOf(t.committed, p) == |LogOf(t.logs, p)|
    {
      assert HeightOf(s.committed, p) <= HeightOf(s.handled, p) <= |LogOf(s.logs, p)|;
    }
  }

  /** No schedule ever commits past a message that blocks, so with one in the logs they are never drained. */
  lemma {:induction false} NothingCommitsPastBlocking(cfg: Config, schedule: seq<Action>, p: Partition, o: nat)
    requires var log := LogOf(Run(cfg, INIT, schedule).logs, p); o < |log| && Blocks(cfg, p.topic, log[o])
    ensures HeightOf(Run(cfg, INIT, schedule).committed, p) <= o && !Drained(Run(cfg, INIT, schedule))
  {
    if o < HeightOf(Run(cfg, INIT, schedule).committed, p) {
      CommittedMeansHandled(cfg, schedule, p, o);
    }
  }

  ghost predicate DrainedBy(cfg: Config, schedule: seq<Action>, more: seq<Action>) {
    NoTraffic(more) && Drained(Run(cfg, INIT, schedule + more))
  }

  /** So a reachable state can be drained exactly if no message in its logs blocks. */
  lemma {:induction false} CanDrainExactlyWhen(cfg: Config, schedule: seq<Action>)
    requires 1 <= cfg.batchSize
    ensures (exists more :: DrainedBy(cfg, schedule, more)) <==> NoneBlocks(cfg, Run(cfg, INIT, schedule).logs)
  {
    var s := Run(cfg, INIT, schedule);
    if NoneBlocks(cfg, s.logs) {
      var more := EveryStateCanDrain(cfg, schedule);
      assert DrainedBy(cfg, schedule, more);
    } else {
      var p, o: nat :| o < |LogOf(s.logs, p)| && Blocks(cfg, p.topic, LogOf(s.logs, p)[o]);
      forall more
        ensures !DrainedBy(cfg, schedule, more)
      {
        BlockedForGood(cfg, schedule, more, p, o);
      }
    }
  }

  lemma {:induction false} BlockedForGood(cfg: Config, schedule: seq<Action>, more: seq<Action>, p: Partition, o: nat)
    requires var log := LogOf(Run(cfg, INIT, schedule).logs, p); o < |log| && Blocks(cfg, p.topic, log[o])
    ensures !Drained(Run(cfg, INIT, schedule + more))
  {
    RunConcat(cfg, INIT, schedule, more);
    RunGrows(cfg, Run(cfg, INIT, schedule), more);
    assert LogOf(Run(cfg, INIT, schedule).logs, p) <= LogOf(Run(cfg, INIT, schedule + more).logs, p);
    NothingCommitsPastBlocking(cfg, schedule + more, p, o);
  }

  /** An id one character wider than its column. */
  const WIDE := Event(seq(ID_WIDTH + 1, _ => 'x'), "higgs-000000000", "1.0.0", "")

  /** One such message, which validation accepts: nothing that happens after it was produced ever drains the
      logs. */
  lemma {:induction false} OneWideIdBlocks(cfg: Config, p: Partition, more: seq<Action>)
    requires forall e :: cfg.fits(e) ==> WithinWidths(e)
    requires p.topic == Features && cfg.route(Key(Features, WIDE.eventId)) == p
    ensures Validate(Features, Document(Some(WIDE), None)) == Accepted(WIDE)
    ensures !Drained(Run(cfg, INIT, [Produce(p, Document(Some(WIDE), None))] + more))
  {
    var raw := Document(Some(WIDE), None);
    assert |WIDE.eventId| == ID_WIDTH + 1;
    RunOne(cfg, INIT, Produce(p, raw));
    assert LogOf(Run(cfg, INIT, [Produce(p, raw)]).logs, p) == [raw];
    BlockedForGood(cfg, [Produce(p, raw)], more, p, 0);
  }

  // ----- the keying assumption is needed -----

  /** One event in two partitions: the order in which two healthy consumers happen to drain them decides
      which offset the landing row carries. */
  lemma {:induction false} UnkeyedRunsDisagree(cfg: Config, event: Event) returns (s: State, one: seq<Action>, other: seq<Action>)
    requires 1 <= cfg.batchSize && cfg.fits(event)
    ensures NoTraffic(one) && NoTraffic(other)
    ensures Drained(Run(cfg, s, one)) && Drained(Run(cfg, s, other))
    ensures Run(cfg, s, one).logs == Run(cfg, s, other).logs
    ensures Run(cfg, s, one).landing != Run(cfg, s, other).landing
  {
    var p, q := Partition(Features, 0), Partition(Features, 1);
    var raw := Document(Some(event), None);
    s := INIT.(logs := map[p := [raw], q := [raw]], consumers := map[0 := FRESH]);
    var k := Key(Features, event.eventId);
    var first := DrainOne(cfg, s, 0, p);
    var second := DrainOne(cfg, Run(cfg, s, first), 0, q);
    RunConcat(cfg, s, first, second);
    one := first + second;
    var first' := DrainOne(cfg, s, 0, q);
    var second' := DrainOne(cfg, Run(cfg, s, first'), 0, p);
    RunConcat(cfg, s, first', second');
    other := first' + second';
    assert Run(cfg, s, one).landing[k] == Row(event, 0, 0);
    assert Run(cfg, s, other).landing[k] == Row(event, 1, 0);
  }
}
