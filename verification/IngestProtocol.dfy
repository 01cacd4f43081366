/** The ingest protocol as a state machine: any number of consumers, partitioned logs, one landing
    database, and a fault schedule that may crash a consumer at any point, rebalance it in the middle of
    a batch, fail a transaction, commit it but report failure, or reject an offset commit. */
module IngestProtocol {
  import opened Tables

  // ----- messages and validation -----

  datatype Topic = Features | Labels

  datatype Event = Event(eventId: string, entityId: string, schemaVersion: string, body: string)

  /** A message value. A JSON document carries what each of the two schemas makes of it. Some
      values make the parser raise what validation does not catch: bytes that are no text, integers of too many
      digits, arrays nested too deeply. */
  datatype Raw = NoValue | NotJson | Unparseable | Document(asFeature: Option<Event>, asLabel: Option<Event>)

  datatype Reason = EmptyMessageValue | InvalidJson | SchemaValidationFailed

  datatype Parsed = Accepted(event: Event) | Refused(reason: Reason) | Raises

  function Validate(topic: Topic, raw: Raw): Parsed {
    match raw
    case NoValue => Refused(EmptyMessageValue)
    case NotJson => Refused(InvalidJson)
    case Unparseable => Raises
    case Document(asFeature, asLabel) =>
      var model := if topic == Features then asFeature else asLabel;
      if model.Some? then Accepted(model.value) else Refused(SchemaValidationFailed)
  }

  datatype Partition = Partition(topic: Topic, index: nat)
  datatype Slot = Slot(p: Partition, offset: nat)

  /** The two landing tables as one: `topic` selects the table, `eventId` is its primary key. */
  datatype Key = Key(topic: Topic, eventId: string)
  datatype Row = Row(event: Event, kafkaPartition: nat, kafkaOffset: nat)
  type Landing = map<Key, Row>
  type Logs = map<Partition, seq<Raw>>
  type Heights = map<Partition, nat>

  function LogOf(logs: Logs, p: Partition): seq<Raw> { if p in logs then logs[p] else [] }
  function HeightOf(h: Heights, p: Partition): nat { if p in h then h[p] else 0 }

  /** The row a message becomes, unless validation refuses it. */
  function RowsAt(p: Partition, offset: nat, raw: Raw): seq<Entry<Key, Row>> {
    match Validate(p.topic, raw)
    case Accepted(event) => [Entry(Key(p.topic, event.eventId), Row(event, p.index, offset))]
    case _ => []
  }

  /** Inserting the row of one message, if it has one. */
  function Put(landing: Landing, p: Partition, offset: nat, raw: Raw): Landing {
    match Validate(p.topic, raw)
    case Accepted(event) => InsertOne(landing, Entry(Key(p.topic, event.eventId), Row(event, p.index, offset)))
    case _ => landing
  }

  lemma PutInserts(landing: Landing, p: Partition, offset: nat, raw: Raw)
    ensures InsertAll(landing, RowsAt(p, offset, raw)) == Put(landing, p, offset, raw)
  {
    var rows := RowsAt(p, offset, raw);
    if rows != [] {
      assert InsertAll(landing, rows) == InsertOne(InsertAll(landing, rows[..0]), rows[0]);
    }
  }

  // ----- reference definition: first valid occurrence wins -----

  function PrefixRows(p: Partition, log: seq<Raw>): seq<Entry<Key, Row>> {
    if log == [] then []
    else PrefixRows(p, log[..|log| - 1]) + RowsAt(p, |log| - 1, log[|log| - 1])
  }

  /** What a log prefix determines, read once and in order. */
  function Dedup(p: Partition, log: seq<Raw>): Landing { InsertAll(map[], PrefixRows(p, log)) }

  ghost predicate CarriesKey(p: Partition, raw: Raw, k: Key) {
    k.topic == p.topic && Validate(p.topic, raw).Accepted? && Validate(p.topic, raw).event.eventId == k.eventId
  }

  ghost predicate FirstOccurrence(p: Partition, log: seq<Raw>, k: Key, o: int) {
    0 <= o < |log| && CarriesKey(p, log[o], k) && forall j :: 0 <= j < o ==> !CarriesKey(p, log[j], k)
  }

  lemma {:induction false} DedupStep(p: Partition, log: seq<Raw>)
    requires log != []
    ensures Dedup(p, log) == Put(Dedup(p, log[..|log| - 1]), p, |log| - 1, log[|log| - 1])
  {
    PutInserts(Dedup(p, log[..|log| - 1]), p, |log| - 1, log[|log| - 1]);
    InsertAllConcat(map[], PrefixRows(p, log[..|log| - 1]), RowsAt(p, |log| - 1, log[|log| - 1]));
  }

  ghost predicate Occurs(p: Partition, log: seq<Raw>, k: Key) {
    exists j :: 0 <= j < |log| && CarriesKey(p, log[j], k)
  }

  /** `Dedup` holds exactly the keys that occur ... */
  lemma {:induction false} DedupKeys(p: Partition, log: seq<Raw>, k: Key)
    ensures k in Dedup(p, log) <==> Occurs(p, log, k)
  {
    if log != [] {
      var init, last := log[..|log| - 1], |log| - 1;
      DedupKeys(p, init, k);
      DedupStep(p, log);
      if j :| 0 <= j < |init| && CarriesKey(p, init[j], k) {
        assert CarriesKey(p, log[j], k);
      }
    }
  }

  lemma {:induction false} DedupGrows(p: Partition, log: seq<Raw>, more: seq<Raw>, k: Key)
    requires log <= more && k in Dedup(p, log)
    ensures k in Dedup(p, more) && Dedup(p, more)[k] == Dedup(p, log)[k]
  {
    if log != more {
      DedupGrows(p, log, more[..|more| - 1], k);
      DedupStep(p, more);
    }
  }

  /** ... each with the row of its first occurrence, partition and offset included. */
  lemma DedupRow(p: Partition, log: seq<Raw>, k: Key, o: nat)
    requires FirstOccurrence(p, log, k, o)
    ensures k in Dedup(p, log) && Dedup(p, log)[k] == Row(Validate(p.topic, log[o]).event, p.index, o)
  {
    DedupKeys(p, log[..o], k);
    DedupStep(p, log[..o + 1]);
    assert log[..o + 1][..o] == log[..o];
    DedupGrows(p, log[..o + 1], log, k);
  }

  /** Where a row comes from: a message of its own partition and offset. */
  ghost predicate Originates(p: Partition, log: seq<Raw>, k: Key, row: Row) {
    && row.kafkaPartition == p.index && row.kafkaOffset < |log| && CarriesKey(p, log[row.kafkaOffset], k)
    && row.event == Validate(p.topic, log[row.kafkaOffset]).event
  }

  lemma {:induction false} DedupOrigin(p: Partition, log: seq<Raw>, k: Key)
    requires k in Dedup(p, log)
    ensures Originates(p, log, k, Dedup(p, log)[k])
  {
    if log != [] {
      var init := log[..|log| - 1];
      DedupStep(p, log);
      if k in Dedup(p, init) {
        DedupOrigin(p, init, k);
      }
    }
  }

  // ----- the machine -----

  /** `route` is the keying assumption: producers key messages by entity, and an event id belongs to one
      entity, so all messages with one event id go to one partition of their topic. `fits` is what the columns
      of the landing tables take: the schemas set no bound on the length of a string. */
  datatype Config = Config(route: Key -> Partition, fits: Event -> bool, maxRetries: nat, batchSize: nat)

  const ID_WIDTH := 64
  const SCHEMA_VERSION_WIDTH := 16

  predicate WithinWidths(e: Event) {
    |e.eventId| <= ID_WIDTH && |e.entityId| <= ID_WIDTH && |e.schemaVersion| <= SCHEMA_VERSION_WIDTH
  }

  /** No consumer gets past such a message: validation raises, or it is accepted and the database refuses it
      with the whole transaction. */
  predicate Blocks(cfg: Config, topic: Topic, raw: Raw) {
    match Validate(topic, raw)
    case Accepted(event) => !cfg.fits(event)
    case Refused(_) => false
    case Raises => true
  }

  datatype Phase =
    | Polling
    | Writing(attempt: nat)  // retries already used
    | Committing             // the transaction was reported committed
    | Dead                   // retries exhausted, the loop stopped

  datatype Consumer = Consumer(positions: Heights, batch: seq<Slot>, phase: Phase)

  const FRESH := Consumer(map[], [], Polling)
  const STOPPED := Consumer(map[], [], Dead)

  /** `inFlight` holds the batches of transactions whose outcome their consumer does not know: each may still
      take effect at any later time, or never. `handled` is a history variable: the height below which every
      message has been written or handed to the dead-letter producer. No action reads it. */
  datatype State = State(
    logs: Logs, committed: Heights, landing: Landing, dlq: set<Slot>,
    consumers: map<nat, Consumer>, inFlight: set<seq<Slot>>, handled: Heights)

  const INIT := State(map[], map[], map[], {}, map[], {}, map[])

  datatype Step =
    | Crash
    | Assign(ps: set<Partition>)       // positions restart at the committed offsets
    | Revoke(ps: set<Partition>)
    | Poll(p: Partition)
    | EndBatch                         // validation and dead letters; the write follows
    | CrashInBatch(sent: set<Slot>)    // validation or the dead-letter producer raised; some letters are out
    | WriteOk
    | WriteFailed                      // rolled back
    | WriteAmbiguous                   // committed, but reported as failed
    | WriteInDoubt                     // reported as failed while the commit is still under way
    | CrashInDoubt                     // the process dies while the commit is under way
    | CommitAccepted
    | CommitRejected(applied: set<Partition>)  // the broker may have kept some of it

  datatype Action =
    | Produce(p: Partition, raw: Raw)
    | Start(c: nat)                    // a new process, or a restart of a stopped one
    | Do(c: nat, step: Step)
    | Land(batch: seq<Slot>)           // a commit still under way takes effect, whatever became of its consumer

  function RawAt(logs: Logs, s: Slot): Raw
    requires s.offset < |LogOf(logs, s.p)|
  {
    LogOf(logs, s.p)[s.offset]
  }

  ghost predicate InLogs(logs: Logs, batch: seq<Slot>) {
    forall i :: 0 <= i < |batch| ==> batch[i].offset < |LogOf(logs, batch[i].p)|
  }

  /** The rows a batch is turned into, in batch order. */
  ghost function BatchRows(logs: Logs, batch: seq<Slot>): seq<Entry<Key, Row>>
    requires InLogs(logs, batch)
  {
    if batch == [] then []
    else
      var last := batch[|batch| - 1];
      BatchRows(logs, batch[..|batch| - 1]) + RowsAt(last.p, last.offset, RawAt(logs, last))
  }

  ghost function RefusedSlots(logs: Logs, batch: seq<Slot>): set<Slot>
    requires InLogs(logs, batch)
  {
    set i | 0 <= i < |batch| && Validate(batch[i].p.topic, RawAt(logs, batch[i])).Refused? :: batch[i]
  }

  /** No message of the batch makes validation raise. */
  ghost predicate Parses(logs: Logs, batch: seq<Slot>)
    requires InLogs(logs, batch)
  {
    forall i :: 0 <= i < |batch| ==> !Validate(batch[i].p.topic, RawAt(logs, batch[i])).Raises?
  }

  /** Whether the columns take what a message becomes. */
  predicate MessageFits(cfg: Config, topic: Topic, raw: Raw) {
    Validate(topic, raw).Accepted? ==> cfg.fits(Validate(topic, raw).event)
  }

  /** Every event of the batch that was accepted fits its columns. */
  ghost predicate Fits(cfg: Config, logs: Logs, batch: seq<Slot>)
    requires InLogs(logs, batch)
  {
    batch == [] ||
    (Fits(cfg, logs, batch[..|batch| - 1]) &&
     MessageFits(cfg, batch[|batch| - 1].p.topic, RawAt(logs, batch[|batch| - 1])))
  }

  /** One past the largest offset of each partition in the batch: the offsets the consumer commits. */
  function NextOffsets(batch: seq<Slot>): Heights {
    if batch == [] then map[]
    else
      var before := NextOffsets(batch[..|batch| - 1]);
      var last := batch[|batch| - 1];
      before[last.p := Max(HeightOf(before, last.p), last.offset + 1)]
  }

  function Max(a: nat, b: nat): nat { if a < b then b else a }

  /** Pointwise maximum. */
  function Raise(h: Heights, to: Heights): Heights {
    map p | p in h.Keys + to.Keys :: Max(HeightOf(h, p), HeightOf(to, p))
  }

  ghost predicate StepEnabled(cfg: Config, s: State, me: Consumer, step: Step) {
    match step
    case Crash => true
    case Assign(_) => me.phase.Polling?
    case Revoke(_) => me.phase.Polling?
    case Poll(p) =>
      && me.phase.Polling? && |me.batch| < cfg.batchSize
      && p in me.positions && me.positions[p] < |LogOf(s.logs, p)|
    case EndBatch => me.phase.Polling? && me.batch != [] && InLogs(s.logs, me.batch) && Parses(s.logs, me.batch)
    case CrashInBatch(sent) => me.phase.Polling? && InLogs(s.logs, me.batch) && sent <= RefusedSlots(s.logs, me.batch)
    case WriteOk => me.phase.Writing? && InLogs(s.logs, me.batch) && Fits(cfg, s.logs, me.batch)
    case WriteFailed => me.phase.Writing? && InLogs(s.logs, me.batch) && BatchRows(s.logs, me.batch) != []
    case WriteAmbiguous =>
      me.phase.Writing? && InLogs(s.logs, me.batch) && BatchRows(s.logs, me.batch) != [] && Fits(cfg, s.logs, me.batch)
    case WriteInDoubt =>
      me.phase.Writing? && InLogs(s.logs, me.batch) && BatchRows(s.logs, me.batch) != [] && Fits(cfg, s.logs, me.batch)
    case CrashInDoubt =>
      me.phase.Writing? && InLogs(s.logs, me.batch) && BatchRows(s.logs, me.batch) != [] && Fits(cfg, s.logs, me.batch)
    case CommitAccepted => me.phase.Committing?
    case CommitRejected(_) => me.phase.Committing?
  }

  ghost predicate Enabled(cfg: Config, s: State, a: Action) {
    match a
    case Produce(p, raw) => forall k :: CarriesKey(p, raw, k) ==> cfg.route(k) == p
    case Start(c) => c !in s.consumers || s.consumers[c].phase.Dead?
    case Do(c, step) => c in s.consumers && StepEnabled(cfg, s, s.consumers[c], step)
    case Land(batch) => batch in s.inFlight && InLogs(s.logs, batch)
  }

  /** A reported failure uses up one retry, or the loop stops. */
  function AfterFailure(cfg: Config, me: Consumer): Consumer
    requires me.phase.Writing?
  {
    if me.phase.attempt + 1 > cfg.maxRetries then STOPPED
    else me.(phase := Writing(me.phase.attempt + 1))
  }

  /** What a step does to the consumer that takes it. */
  ghost function Local(cfg: Config, s: State, me: Consumer, step: Step): Consumer
    requires StepEnabled(cfg, s, me, step)
  {
    match step
    case Crash => STOPPED
    case Assign(ps) => me.(positions := me.positions + map p | p in ps :: HeightOf(s.committed, p))
    case Revoke(ps) => me.(positions := me.positions - ps)
    case Poll(p) =>
      var o := me.positions[p];
      me.(positions := me.positions[p := o + 1], batch := me.batch + [Slot(p, o)])
    case EndBatch => me.(phase := Writing(0))
    case CrashInBatch(_) => STOPPED
    case WriteOk => me.(phase := Committing)
    case WriteFailed => AfterFailure(cfg, me)
    case WriteAmbiguous => AfterFailure(cfg, me)
    case WriteInDoubt => AfterFailure(cfg, me)
    case CrashInDoubt => STOPPED
    case CommitAccepted => me.(batch := [], phase := Polling)
    case CommitRejected(_) => me.(batch := [], phase := Polling)
  }

  function Restrict(h: Heights, ps: set<Partition>): Heights { map p | p in h && p in ps :: h[p] }

  ghost function Write(s: State, batch: seq<Slot>): State
    requires InLogs(s.logs, batch)
  {
    s.(landing := InsertAll(s.landing, BatchRows(s.logs, batch)), handled := Raise(s.handled, NextOffsets(batch)))
  }

  /** What a step does to the broker and the databases. */
  ghost function Shared(cfg: Config, s: State, me: Consumer, step: Step): State
    requires StepEnabled(cfg, s, me, step)
  {
    match step
    case EndBatch => s.(dlq := s.dlq + RefusedSlots(s.logs, me.batch))
    case CrashInBatch(sent) => s.(dlq := s.dlq + sent)
    case WriteOk => Write(s, me.batch)
    case WriteAmbiguous => Write(s, me.batch)
    case WriteInDoubt => s.(inFlight := s.inFlight + {me.batch})
    case CrashInDoubt => s.(inFlight := s.inFlight + {me.batch})
    case CommitAccepted => s.(committed := s.committed + NextOffsets(me.batch))
    case CommitRejected(applied) => s.(committed := s.committed + Restrict(NextOffsets(me.batch), applied))
    case _ => s
  }

  ghost function Apply(cfg: Config, s: State, a: Action): State
    requires Enabled(cfg, s, a)
  {
    match a
    case Produce(p, raw) => s.(logs := s.logs[p := LogOf(s.logs, p) + [raw]])
    case Start(c) => s.(consumers := s.consumers[c := FRESH])
    case Do(c, step) =>
      var me := s.consumers[c];
      Shared(cfg, s, me, step).(consumers := s.consumers[c := Local(cfg, s, me, step)])
    case Land(batch) => Write(s, batch).(inFlight := s.inFlight - {batch})
  }

  /** What is not enabled does not happen. */
  ghost function After(cfg: Config, s: State, a: Action): State {
    if Enabled(cfg, s, a) then Apply(cfg, s, a) else s
  }

  /** A run under an arbitrary schedule. */
  ghost function Run(cfg: Config, s: State, schedule: seq<Action>): State {
    if schedule == [] then s
    else After(cfg, Run(cfg, s, schedule[..|schedule| - 1]), schedule[|schedule| - 1])
  }

  lemma {:induction false} RunConcat(cfg: Config, s: State, a: seq<Action>, b: seq<Action>)
    ensures Run(cfg, s, a + b) == Run(cfg, Run(cfg, s, a), b)
  {
    if b == [] {
      assert a + b == a;
    } else {
      RunConcat(cfg, s, a, b[..|b| - 1]);
      assert (a + b)[..|a + b| - 1] == a + b[..|b| - 1];
    }
  }

  lemma RunSnoc(cfg: Config, s: State, a: seq<Action>, last: Action)
    ensures Run(cfg, s, a + [last]) == After(cfg, Run(cfg, s, a), last)
  {
    assert (a + [last])[..|a|] == a;
  }

  lemma RunOne(cfg: Config, s: State, a: Action)
    ensures Run(cfg, s, [a]) == After(cfg, s, a)
  {
    assert [a][..0] == [];
  }
}
