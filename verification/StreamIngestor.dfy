/** The consumer process: batch processing, the retry loop and the probes, step by step, against a
    database and a broker whose answers come from arbitrary fault scripts. Every ProcessBatch is a run of
    the ingest protocol. */
module StreamIngestor {
  import opened Tables
  import opened IngestProtocol

  datatype Settings = Settings(
    batchSize: nat, batchTimeoutSeconds: real, maxRetries: nat, stallTimeoutSeconds: real, retryBackoffBaseSeconds: real)

  const DEFAULTS := Settings(500, 2.0, 5, 120.0, 0.5)

  datatype Message = Message(topic: Topic, partition: nat, offset: nat, value: Raw)

  /** How one transaction ends for the client. All but the first are seen as errors: `ReportLost` took effect
      nevertheless, and `StillOpen` may yet do so later. */
  datatype Outcome = Committed | RolledBack | ReportLost | StillOpen

  predicate TakesEffect(outcome: Outcome) { outcome.Committed? || outcome.ReportLost? }

  datatype CommitReply = Acknowledged | Rejected(applied: set<Partition>, error: string)

  datatype Probe = Up | Down(reason: string)

  // ----- what a batch stands for -----

  function SlotOf(m: Message): Slot { Slot(Partition(m.topic, m.partition), m.offset) }

  function SlotsOf(batch: seq<Message>): seq<Slot> { seq(|batch|, i requires 0 <= i < |batch| => SlotOf(batch[i])) }

  /** The rows for one of the two landing tables, in batch order. */
  function TopicRows(batch: seq<Message>, topic: Topic): seq<Entry<string, Row>> {
    if batch == [] then []
    else
      TopicRows(batch[..|batch| - 1], topic) + MessageRows(batch[|batch| - 1], topic)
  }

  function MessageRows(m: Message, topic: Topic): seq<Entry<string, Row>> {
    match Validate(m.topic, m.value)
    case Accepted(event) =>
      if m.topic == topic then [Entry(event.eventId, Row(event, m.partition, m.offset))] else []
    case _ => []
  }

  /** The slots of refused messages, in batch order. */
  function DeadLetters(batch: seq<Message>): seq<Slot> {
    if batch == [] then []
    else
      var m := batch[|batch| - 1];
      DeadLetters(batch[..|batch| - 1]) + if Validate(m.topic, m.value).Refused? then [SlotOf(m)] else []
  }

  /** No message of the batch makes validation raise. */
  ghost predicate Parsing(batch: seq<Message>) {
    forall i :: 0 <= i < |batch| ==> !Validate(batch[i].topic, batch[i].value).Raises?
  }

  /** What stops the sorting of a batch at message `n`: validation raises, or the dead-letter producer does. */
  ghost predicate StopsAt(batch: seq<Message>, n: nat) {
    n < |batch| && !Validate(batch[n].topic, batch[n].value).Accepted? && Parsing(batch[..n])
  }

  ghost function AsSet<T>(xs: seq<T>): set<T> { set x | x in xs }

  lemma AsSetConcat<T>(a: seq<T>, b: seq<T>)
    ensures AsSet(a + b) == AsSet(a) + AsSet(b)
  {
  }

  ghost predicate Sourced(logs: Logs, batch: seq<Message>) {
    forall i :: 0 <= i < |batch| ==>
      && batch[i].offset < |LogOf(logs, SlotOf(batch[i]).p)|
      && LogOf(logs, SlotOf(batch[i]).p)[batch[i].offset] == batch[i].value
  }

  /** The two tables are the one landing map of the protocol. */
  ghost predicate TablesAre(landing: Landing, features: map<string, Row>, labels: map<string, Row>) {
    forall k: Key ::
      var table := if k.topic == Features then features else labels;
      (k in landing <==> k.eventId in table) && (k in landing ==> landing[k] == table[k.eventId])
  }

  lemma BatchRowsStep(logs: Logs, landing: Landing, batch: seq<Message>)
    requires batch != [] && Sourced(logs, batch)
    ensures var init, m := batch[..|batch| - 1], batch[|batch| - 1];
            && InLogs(logs, SlotsOf(batch)) && InLogs(logs, SlotsOf(init))
            && InsertAll(landing, BatchRows(logs, SlotsOf(batch))) ==
                 Put(InsertAll(landing, BatchRows(logs, SlotsOf(init))), SlotOf(m).p, m.offset, m.value)
  {
    var init, m := batch[..|batch| - 1], batch[|batch| - 1];
    assert SlotsOf(batch)[..|batch| - 1] == SlotsOf(init);
    InsertAllConcat(landing, BatchRows(logs, SlotsOf(init)), RowsAt(SlotOf(m).p, m.offset, m.value));
    PutInserts(InsertAll(landing, BatchRows(logs, SlotsOf(init))), SlotOf(m).p, m.offset, m.value);
  }

  /** Splitting a batch into a feature list and a label list, written one after the other, has the effect
      of inserting the batch in order. */
  lemma {:induction false} SplitWriteIsBatchWrite(
    logs: Logs, landing: Landing, features: map<string, Row>, labels: map<string, Row>, batch: seq<Message>)
    requires Sourced(logs, batch) && TablesAre(landing, features, labels)
    ensures InLogs(logs, SlotsOf(batch))
    ensures TablesAre(InsertAll(landing, BatchRows(logs, SlotsOf(batch))),
                      InsertAll(features, TopicRows(batch, Features)), InsertAll(labels, TopicRows(batch, Labels)))
  {
    if batch == [] {
      assert SlotsOf(batch) == [];
    } else {
      var init, m := batch[..|batch| - 1], batch[|batch| - 1];
      SplitWriteIsBatchWrite(logs, landing, features, labels, init);
      BatchRowsStep(logs, landing, batch);
      SplitStep(features, batch, Features);
      SplitStep(labels, batch, Labels);
      PutSplits(InsertAll(landing, BatchRows(logs, SlotsOf(init))),
                InsertAll(features, TopicRows(init, Features)), InsertAll(labels, TopicRows(init, Labels)), m);
    }
  }

  function PutTable(table: map<string, Row>, m: Message, topic: Topic): map<string, Row> {
    match Validate(m.topic, m.value)
    case Accepted(event) =>
      if m.topic == topic then InsertOne(table, Entry(event.eventId, Row(event, m.partition, m.offset))) else table
    case _ => table
  }

  lemma PutSplits(landing: Landing, features: map<string, Row>, labels: map<string, Row>, m: Message)
    requires TablesAre(landing, features, labels)
    ensures TablesAre(Put(landing, SlotOf(m).p, m.offset, m.value), PutTable(features, m, Features), PutTable(labels, m, Labels))
  {
  }

  lemma SplitStep(table: map<string, Row>, batch: seq<Message>, topic: Topic)
    requires batch != []
    ensures InsertAll(table, TopicRows(batch, topic)) ==
      PutTable(InsertAll(table, TopicRows(batch[..|batch| - 1], topic)), batch[|batch| - 1], topic)
  {
    var init, m := batch[..|batch| - 1], batch[|batch| - 1];
    if Validate(m.topic, m.value).Accepted? && m.topic == topic {
      var e := Entry(Validate(m.topic, m.value).event.eventId, Row(Validate(m.topic, m.value).event, m.partition, m.offset));
      assert TopicRows(batch, topic)[..|TopicRows(init, topic)|] == TopicRows(init, topic);
      assert TopicRows(batch, topic) == TopicRows(init, topic) + [e];
    } else {
      assert TopicRows(batch, topic) == TopicRows(init, topic);
    }
  }

  // ----- fault scripts -----

  /** What the database answers to one write tried again and again: it refuses rows that do not fit each time,
      and otherwise answers as scripted; past the end of the script everything succeeds. */
  datatype Script = Script(fits: bool, replies: seq<Outcome>)

  function OutcomeAt(script: Script, i: nat): Outcome {
    if !script.fits then RolledBack else if i < |script.replies| then script.replies[i] else Committed
  }

  /** Whether the columns take every row of a statement. */
  predicate RowsFit(rows: seq<Entry<string, Row>>, fits: Event -> bool) {
    rows == [] || (RowsFit(rows[..|rows| - 1], fits) && fits(rows[|rows| - 1].row.event))
  }

  /** What is left of a script after `n` answers. */
  function Drop<T>(script: seq<T>, n: nat): seq<T> { if n < |script| then script[n..] else [] }

  function Pow2(n: nat): (r: nat)
    ensures 1 <= r
  {
    if n == 0 then 1 else 2 * Pow2(n - 1)
  }

  lemma {:induction false} Pow2Grows(m: nat, n: nat)
    requires m <= n
    ensures 1 <= Pow2(m) <= Pow2(n)
    decreases n
  {
    if m < n {
      Pow2Grows(m, n - 1);
    } else if 0 < m {
      Pow2Grows(m - 1, m - 1);
    }
  }

  /** `attempts` tries of one write: all but the last were reported as failed, and the last failed only if
      the retries were used up. */
  ghost predicate Attempted(script: Script, maxRetries: nat, attempts: nat, raised: bool) {
    && 1 <= attempts <= maxRetries + 1
    && (forall i: nat :: i < attempts - 1 ==> OutcomeAt(script, i) != Committed)
    && (raised <==> OutcomeAt(script, attempts - 1) != Committed)
    && (raised ==> attempts == maxRetries + 1)
  }

  /** Some attempt took effect, whatever was reported. */
  ghost predicate TookEffect(script: Script, attempts: nat) {
    exists i: nat :: i < attempts && TakesEffect(OutcomeAt(script, i))
  }

  /** A table after `attempts` tries to insert `rows`. */
  ghost function TableAfter<K, V>(script: Script, attempts: nat, table: map<K, V>, rows: seq<Entry<K, V>>): map<K, V> {
    if TookEffect(script, attempts) then InsertAll(table, rows) else table
  }

  lemma TableAfterOneMore<K, V>(script: Script, attempts: nat, table: map<K, V>, rows: seq<Entry<K, V>>)
    ensures var now := TableAfter(script, attempts, table, rows);
            TableAfter(script, attempts + 1, table, rows) ==
              if TakesEffect(OutcomeAt(script, attempts)) then InsertAll(now, rows) else now
  {
    AgainIsOnce(table, rows);
    assert TookEffect(script, attempts + 1) <==> TookEffect(script, attempts) || TakesEffect(OutcomeAt(script, attempts));
  }

  /** What one write that ends with `outcome` makes of a table. */
  function Written<K, V>(outcome: Outcome, table: map<K, V>, rows: seq<Entry<K, V>>): map<K, V> {
    if TakesEffect(outcome) then InsertAll(table, rows) else table
  }

  /** What a database holds, and how it will answer. */
  datatype Holdings = Holdings(features: map<string, Row>, labels: map<string, Row>, replies: seq<Outcome>)

  /** The tables after `n` tries of one write that started from `t`. */
  ghost function Tried(t: Holdings, fits: bool, n: nat, featuresRows: seq<Entry<string, Row>>, labelsRows: seq<Entry<string, Row>>): Holdings {
    Holdings(TableAfter(Script(fits, t.replies), n, t.features, featuresRows),
           TableAfter(Script(fits, t.replies), n, t.labels, labelsRows), Drop(t.replies, n))
  }

  /** One try. */
  function Try(t: Holdings, fits: bool, featuresRows: seq<Entry<string, Row>>, labelsRows: seq<Entry<string, Row>>): Holdings {
    var outcome := OutcomeAt(Script(fits, t.replies), 0);
    Holdings(Written(outcome, t.features, featuresRows), Written(outcome, t.labels, labelsRows), Drop(t.replies, 1))
  }

  lemma TryAgain(t: Holdings, fits: bool, n: nat, featuresRows: seq<Entry<string, Row>>, labelsRows: seq<Entry<string, Row>>)
    ensures Try(Tried(t, fits, n, featuresRows, labelsRows), fits, featuresRows, labelsRows) == Tried(t, fits, n + 1, featuresRows, labelsRows)
    ensures OutcomeAt(Script(fits, Drop(t.replies, n)), 0) == OutcomeAt(Script(fits, t.replies), n)
  {
    TableAfterOneMore(Script(fits, t.replies), n, t.features, featuresRows);
    TableAfterOneMore(Script(fits, t.replies), n, t.labels, labelsRows);
  }

  /** Only what fits is ever reported as written. */
  lemma ReturnMeansFit(script: Script, maxRetries: nat, attempts: nat, raised: bool)
    requires Attempted(script, maxRetries, attempts, raised)
    ensures !raised ==> script.fits
  {
  }

  /** Total sleep after `retries` retries: base + 2 base + 4 base + ... */
  function Backoff(base: real, retries: nat): real {
    if retries == 0 then 0.0 else Backoff(base, retries - 1) + Pause(base, retries - 1)
  }

  /** Each pause is twice the one before. */
  function Pause(base: real, k: nat): real { if k == 0 then base else 2.0 * Pause(base, k - 1) }

  lemma {:induction false} PauseIsPower(base: real, k: nat)
    ensures Pause(base, k) == base * Pow2(k) as real
  {
    if k != 0 {
      PauseIsPower(base, k - 1);
      assert Pow2(k) as real == 2.0 * Pow2(k - 1) as real;
    }
  }

  lemma {:induction false} BackoffClosedForm(base: real, retries: nat)
    ensures Backoff(base, retries) == base * (Pow2(retries) - 1) as real
  {
    if retries != 0 {
      BackoffClosedForm(base, retries - 1);
      PauseIsPower(base, retries - 1);
      var p := Pow2(retries - 1);
      assert (Pow2(retries) - 1) as real == (p - 1) as real + p as real;
      assert base * ((p - 1) as real + p as real) == base * (p - 1) as real + base * p as real;
    }
  }

  /** A normal return means the rows are in: the reported success took effect. */
  lemma NormalReturnMeansWritten<K, V>(
    script: Script, maxRetries: nat, attempts: nat, table: map<K, V>, rows: seq<Entry<K, V>>)
    requires Attempted(script, maxRetries, attempts, false)
    ensures TableAfter(script, attempts, table, rows) == InsertAll(table, rows)
  {
    assert TakesEffect(OutcomeAt(script, attempts - 1));
  }

  /** No schedule of failures sleeps longer than one that uses every retry. */
  lemma {:induction false} BackoffIsBounded(base: real, retries: nat, maxRetries: nat)
    requires 0.0 <= base && retries <= maxRetries
    ensures 0.0 <= Backoff(base, retries) <= Backoff(base, maxRetries)
    decreases maxRetries
  {
    if maxRetries != 0 {
      PauseIsPower(base, maxRetries - 1);
      assert 0.0 <= base * Pow2(maxRetries - 1) as real;
      BackoffIsBounded(base, if retries == maxRetries then maxRetries - 1 else retries, maxRetries - 1);
    }
  }

  /** At the defaults a batch that polls and retries to the end, with database calls that return within
      what is left, cannot look stalled. */
  lemma DefaultsLeaveRoomBeforeStall()
    ensures Backoff(DEFAULTS.retryBackoffBaseSeconds, DEFAULTS.maxRetries) == 15.5
    ensures DEFAULTS.batchTimeoutSeconds + 15.5 < DEFAULTS.stallTimeoutSeconds
  {
    BackoffClosedForm(0.5, 5);
    assert Pow2(2) == 4;
    assert Pow2(5) == 32;
  }

  // ----- polling -----

  /** What a call of poll may do before it returns: rebalance callbacks run inside it. */
  datatype Callback = Assigned(ps: seq<Partition>) | Revoked(ps: seq<Partition>)

  datatype Reply = Nothing | ConsumeError(endOfPartition: bool) | Delivered(message: Message)

  /** One turn of the poll loop: the clock and the stop flag as read before the call, and what it does. */
  datatype Turn = Turn(now: real, stopping: bool, callbacks: seq<Callback>, reply: Reply)

  predicate TimeUp(t: Turn, deadline: real) { deadline <= t.now || t.stopping }

  function Received(reply: Reply): seq<Message> { if reply.Delivered? then [reply.message] else [] }

  /** The delivered messages, in order. */
  function Messages(turns: seq<Turn>): seq<Message> {
    if turns == [] then [] else Messages(turns[..|turns| - 1]) + Received(turns[|turns| - 1].reply)
  }

  /** The poll loop goes on for `used` turns: none of them found the time up or a stop, and the last one, so
      each of them, found room in the batch. */
  ghost predicate GoesOn(turns: seq<Turn>, used: nat, batchSize: nat, deadline: real) {
    && used <= |turns|
    && (forall i :: 0 <= i < used ==> !TimeUp(turns[i], deadline))
    && (0 < used ==> |Messages(turns[..used - 1])| < batchSize)
  }

  /** The latest callback decides whether the process believes it owns partitions. */
  function HeldAfter(held: bool, callbacks: seq<Callback>): bool {
    if callbacks == [] then held else callbacks[|callbacks| - 1].Assigned?
  }

  function HeldAfterTurns(held: bool, turns: seq<Turn>): bool {
    if turns == [] then held
    else HeldAfter(HeldAfterTurns(held, turns[..|turns| - 1]), turns[|turns| - 1].callbacks)
  }

  ghost function CallbackSteps(c: nat, callbacks: seq<Callback>): seq<Action> {
    seq(|callbacks|, i requires 0 <= i < |callbacks| =>
      Do(c, match callbacks[i] case Assigned(ps) => Assign(AsSet(ps)) case Revoked(ps) => Revoke(AsSet(ps))))
  }

  ghost function TurnSteps(c: nat, t: Turn): seq<Action> {
    CallbackSteps(c, t.callbacks) + if t.reply.Delivered? then [Do(c, Poll(SlotOf(t.reply.message).p))] else []
  }

  /** A client delivers only the message at the position the rebalances have left it with. */
  ghost predicate Honest(cfg: Config, s: State, c: nat, t: Turn) {
    t.reply.Delivered? ==>
      var u, slot := Run(cfg, s, CallbackSteps(c, t.callbacks)), SlotOf(t.reply.message);
      && c in u.consumers && slot.p in u.consumers[c].positions && u.consumers[c].positions[slot.p] == slot.offset
      && slot.offset < |LogOf(u.logs, slot.p)| && LogOf(u.logs, slot.p)[slot.offset] == t.reply.message.value
  }

  /** Honest as far as the poll loop goes on. */
  ghost predicate HonestScript(cfg: Config, s: State, c: nat, turns: seq<Turn>, deadline: real)
    decreases |turns|
  {
    turns == [] || TimeUp(turns[0], deadline)
    || (c in s.consumers && cfg.batchSize <= |s.consumers[c].batch|)
    || (Honest(cfg, s, c, turns[0]) && HonestScript(cfg, Run(cfg, s, TurnSteps(c, turns[0])), c, turns[1..], deadline))
  }

  /** `t` is `s` except for what consumer `c` has read. */
  ghost predicate OnlyRead(s: State, t: State, c: nat) {
    && t.logs == s.logs && t.committed == s.committed && t.landing == s.landing && t.dlq == s.dlq
    && c in s.consumers && c in t.consumers
    && t.consumers[c] == Consumer(t.consumers[c].positions, t.consumers[c].batch, Polling)
  }

  lemma {:induction false} CallbacksOnlyMove(cfg: Config, s: State, c: nat, callbacks: seq<Callback>)
    requires c in s.consumers && s.consumers[c].phase == Polling
    ensures var t := Run(cfg, s, CallbackSteps(c, callbacks));
            OnlyRead(s, t, c) && t.consumers[c].batch == s.consumers[c].batch
    ensures OwnSteps(CallbackSteps(c, callbacks), c)
  {
    if callbacks != [] {
      var init := callbacks[..|callbacks| - 1];
      CallbacksOnlyMove(cfg, s, c, init);
      assert CallbackSteps(c, callbacks)[..|init|] == CallbackSteps(c, init);
    }
  }

  lemma PollReads(cfg: Config, s: State, c: nat, slot: Slot)
    requires c in s.consumers && s.consumers[c].phase == Polling && |s.consumers[c].batch| < cfg.batchSize
    requires slot.p in s.consumers[c].positions && s.consumers[c].positions[slot.p] == slot.offset
    requires slot.offset < |LogOf(s.logs, slot.p)|
    ensures var t := After(cfg, s, Do(c, Poll(slot.p)));
            OnlyRead(s, t, c) && t.consumers[c].batch == s.consumers[c].batch + [slot]
  {
  }

  lemma TurnReads(cfg: Config, s: State, c: nat, turn: Turn)
    requires c in s.consumers && s.consumers[c].phase == Polling && |s.consumers[c].batch| < cfg.batchSize
    requires Honest(cfg, s, c, turn)
    ensures var t := Run(cfg, s, TurnSteps(c, turn));
            OnlyRead(s, t, c) && t.consumers[c].batch == s.consumers[c].batch + SlotsOf(Received(turn.reply))
    ensures Sourced(s.logs, Received(turn.reply))
    ensures OwnSteps(TurnSteps(c, turn), c)
  {
    CallbacksOnlyMove(cfg, s, c, turn.callbacks);
    if turn.reply.Delivered? {
      var slot := SlotOf(turn.reply.message);
      PollReads(cfg, Run(cfg, s, CallbackSteps(c, turn.callbacks)), c, slot);
      RunSnoc(cfg, s, CallbackSteps(c, turn.callbacks), Do(c, Poll(slot.p)));
      assert SlotsOf([turn.reply.message]) == [slot];
    } else {
      assert TurnSteps(c, turn) == CallbackSteps(c, turn.callbacks);
      assert SlotsOf([]) == [];
    }
  }

  /** The poll loop so far: `steps` lead from `s` to `now`, where the consumer has read `batch`. */
  ghost predicate HasRead(cfg: Config, s: State, now: State, c: nat, steps: seq<Action>, batch: seq<Message>) {
    && OwnSteps(steps, c) && now == Run(cfg, s, steps)
    && OnlyRead(s, now, c) && now.consumers[c].batch == SlotsOf(batch)
    && Sourced(s.logs, batch)
  }

  ghost predicate Polled(
    cfg: Config, s: State, now: State, c: nat, steps: seq<Action>, batch: seq<Message>,
    turns: seq<Turn>, used: nat, deadline: real)
  {
    && GoesOn(turns, used, cfg.batchSize, deadline)
    && batch == Messages(turns[..used]) && |batch| <= cfg.batchSize
    && HasRead(cfg, s, now, c, steps, batch)
    && HonestScript(cfg, now, c, turns[used..], deadline)
  }

  lemma ReadOn(cfg: Config, s: State, now: State, c: nat, steps: seq<Action>, batch: seq<Message>, turn: Turn)
    requires HasRead(cfg, s, now, c, steps, batch) && |batch| < cfg.batchSize && Honest(cfg, now, c, turn)
    ensures HasRead(cfg, s, Run(cfg, now, TurnSteps(c, turn)), c, steps + TurnSteps(c, turn), batch + Received(turn.reply))
  {
    TurnReads(cfg, now, c, turn);
    RunConcat(cfg, s, steps, TurnSteps(c, turn));
    assert SlotsOf(batch + Received(turn.reply)) == SlotsOf(batch) + SlotsOf(Received(turn.reply));
  }

  lemma HonestFirst(cfg: Config, now: State, c: nat, turns: seq<Turn>, used: nat, deadline: real)
    requires used < |turns| && !TimeUp(turns[used], deadline) && HonestScript(cfg, now, c, turns[used..], deadline)
    requires c in now.consumers && |now.consumers[c].batch| < cfg.batchSize
    ensures Honest(cfg, now, c, turns[used])
    ensures HonestScript(cfg, Run(cfg, now, TurnSteps(c, turns[used])), c, turns[used + 1..], deadline)
  {
    var rest := turns[used..];
    assert rest[0] == turns[used] && rest[1..] == turns[used + 1..];
  }

  lemma OneMoreTurn(
    cfg: Config, s: State, now: State, c: nat, steps: seq<Action>, batch: seq<Message>,
    turns: seq<Turn>, used: nat, deadline: real)
    requires Polled(cfg, s, now, c, steps, batch, turns, used, deadline)
    requires used < |turns| && !TimeUp(turns[used], deadline) && |batch| < cfg.batchSize
    ensures var mine := TurnSteps(c, turns[used]);
            Polled(cfg, s, Run(cfg, now, mine), c, steps + mine, batch + Received(turns[used].reply), turns, used + 1, deadline)
  {
    assert turns[..used + 1][..used] == turns[..used];
    HonestFirst(cfg, now, c, turns, used, deadline);
    ReadOn(cfg, s, now, c, steps, batch, turns[used]);
  }

  /** What the poll loop collects is what the protocol says the consumer has read. */
  lemma {:induction false} PollingIsReading(cfg: Config, s: State, c: nat, turns: seq<Turn>, used: nat, deadline: real)
    returns (steps: seq<Action>)
    requires c in s.consumers && s.consumers[c].phase == Polling && s.consumers[c].batch == []
    requires GoesOn(turns, used, cfg.batchSize, deadline) && HonestScript(cfg, s, c, turns, deadline)
    ensures Polled(cfg, s, Run(cfg, s, steps), c, steps, Messages(turns[..used]), turns, used, deadline)
    decreases used
  {
    if used == 0 {
      steps := [];
      assert turns[0..] == turns && SlotsOf([]) == [];
    } else {
      if 1 < used {
        OneTurnMore(true, turns, used - 2);
      }
      var before := PollingIsReading(cfg, s, c, turns, used - 1, deadline);
      var now := Run(cfg, s, before);
      OneMoreTurn(cfg, s, now, c, before, Messages(turns[..used - 1]), turns, used - 1, deadline);
      OneTurnMore(true, turns, used - 1);
      RunConcat(cfg, s, before, TurnSteps(c, turns[used - 1]));
      steps := before + TurnSteps(c, turns[used - 1]);
    }
  }

  /** `batch` is what `used` turns of the poll loop have collected, and `now` whether an assignment is held
      after them if it was `held` before. */
  ghost predicate Collected(turns: seq<Turn>, used: nat, batchSize: nat, deadline: real, batch: seq<Message>, held: bool, now: bool) {
    && GoesOn(turns, used, batchSize, deadline) && |batch| <= batchSize
    && batch == Messages(turns[..used]) && now == HeldAfterTurns(held, turns[..used])
  }

  lemma CollectOne(turns: seq<Turn>, used: nat, batchSize: nat, deadline: real, batch: seq<Message>, held: bool, now: bool)
    requires Collected(turns, used, batchSize, deadline, batch, held, now) && |batch| < batchSize
    requires used < |turns| && !TimeUp(turns[used], deadline)
    ensures Collected(turns, used + 1, batchSize, deadline, batch + Received(turns[used].reply), held, HeldAfter(now, turns[used].callbacks))
  {
    OneTurnMore(held, turns, used);
  }

  lemma OneTurnMore(held: bool, turns: seq<Turn>, used: nat)
    requires used < |turns|
    ensures Messages(turns[..used + 1]) == Messages(turns[..used]) + Received(turns[used].reply)
    ensures HeldAfterTurns(held, turns[..used + 1]) == HeldAfter(HeldAfterTurns(held, turns[..used]), turns[used].callbacks)
  {
    assert turns[..used + 1][..used] == turns[..used];
  }

  /** A batch sorted so far: rows per table, dead letters and largest offsets. */
  datatype Sorting = Sorting(
    features: seq<Entry<string, Row>>, labels: seq<Entry<string, Row>>, letters: seq<Slot>, largest: map<Partition, nat>)

  function SortingOf(batch: seq<Message>): Sorting {
    Sorting(TopicRows(batch, Features), TopicRows(batch, Labels), DeadLetters(batch), LargestOffsets(SlotsOf(batch)))
  }

  function AddLargest(largest: map<Partition, nat>, slot: Slot): map<Partition, nat> {
    largest[slot.p := if slot.p in largest then Max(largest[slot.p], slot.offset) else slot.offset]
  }

  function SortOne(x: Sorting, m: Message): Sorting {
    Sorting(x.features + MessageRows(m, Features), x.labels + MessageRows(m, Labels),
            if Validate(m.topic, m.value).Refused? then x.letters + [SlotOf(m)] else x.letters,
            AddLargest(x.largest, SlotOf(m)))
  }

  lemma SortOneMore(batch: seq<Message>, n: nat)
    requires n < |batch|
    ensures SortingOf(batch[..n + 1]) == SortOne(SortingOf(batch[..n]), batch[n])
  {
    assert batch[..n + 1][..n] == batch[..n];
    assert SlotsOf(batch[..n + 1])[..n] == SlotsOf(batch[..n]);
  }

  class Database {
    const fits: Event -> bool
    var features: map<string, Row>
    var labels: map<string, Row>
    var replies: seq<Outcome>

    constructor (fits: Event -> bool, replies: seq<Outcome>)
      ensures features == map[] && labels == map[] && this.fits == fits && this.replies == replies
    {
      features, labels, this.fits, this.replies := map[], map[], fits, replies;
    }
  }

  class Broker {
    var committed: Heights
    var script: seq<CommitReply>

    constructor (script: seq<CommitReply>)
      ensures committed == map[] && this.script == script
    {
      committed, this.script := map[], script;
    }

    /** A synchronous offset commit. */
    method Commit(offsets: Heights) returns (reply: CommitReply)
      modifies this
      ensures reply == if old(script) == [] then Acknowledged else old(script)[0]
      ensures committed == old(committed) + KeptOffsets(reply, offsets)
    {
      reply := Acknowledged;
      if script != [] {
        reply, script := script[0], script[1..];
      }
      match reply {
        case Acknowledged => committed := committed + offsets;
        case Rejected(applied, _) => committed := committed + Restrict(offsets, applied);
      }
    }
  }

  class Ingestor {
    const settings: Settings
    const db: Database
    const broker: Broker
    var dlq: seq<Slot>                 // handed to the dead-letter producer, in order
    var letters: seq<bool>             // which of the coming hand-overs it takes; past the end all
    var holdsAssignment: bool
    var loopError: bool
    var lastCommitError: Option<string>
    var commitFailures: nat
    var lastProgressAt: real
    var slept: real                    // total backoff

    constructor (settings: Settings, db: Database, broker: Broker, letters: seq<bool>, now: real)
      ensures this.settings == settings && this.db == db && this.broker == broker && this.letters == letters
      ensures dlq == [] && !holdsAssignment && !loopError && lastCommitError == None && commitFailures == 0
      ensures lastProgressAt == now && slept == 0.0
    {
      this.settings, this.db, this.broker, this.letters := settings, db, broker, letters;
      dlq, holdsAssignment, loopError, lastCommitError, commitFailures := [], false, false, None, 0;
      lastProgressAt, slept := now, 0.0;
    }

    // ----- rebalance callbacks and probes -----

    method OnAssign(partitions: seq<Partition>)
      modifies `holdsAssignment
      ensures holdsAssignment
    {
      holdsAssignment := true;
    }

    method OnRevoke(partitions: seq<Partition>)
      modifies `holdsAssignment
      ensures !holdsAssignment
    {
      holdsAssignment := false;
    }

    /** Down exactly when only a restart helps: the loop died, its thread is gone without a stop, or it has
        made no progress for the stall timeout. */
    method Liveness(started: bool, alive: bool, stopping: bool, now: real) returns (r: Probe)
      ensures r.Up? <==>
        !loopError && (started ==> (alive || stopping) && now - lastProgressAt <= settings.stallTimeoutSeconds)
    {
      if loopError {
        return Down("consume loop died");
      }
      if started && !alive && !stopping {
        return Down("consume loop thread exited unexpectedly");
      }
      if started && now - lastProgressAt > settings.stallTimeoutSeconds {
        return Down("consume loop stalled");
      }
      return Up;
    }

    /** Ready only while live, holding an assignment, and with no rejected commit outstanding. */
    method Readiness(started: bool, alive: bool, stopping: bool, now: real) returns (r: Probe)
      ensures r.Up? <==>
        && !loopError && (started ==> (alive || stopping) && now - lastProgressAt <= settings.stallTimeoutSeconds)
        && holdsAssignment && lastCommitError == None
    {
      r := Liveness(started, alive, stopping, now);
      if r.Up? && !holdsAssignment {
        r := Down("no partition assignment");
      } else if r.Up? && lastCommitError.Some? {
        r := Down("last offset commit rejected");
      }
    }

    // ----- polling -----

    method RunCallbacks(callbacks: seq<Callback>)
      modifies `holdsAssignment
      ensures holdsAssignment == HeldAfter(old(holdsAssignment), callbacks)
    {
      for i := 0 to |callbacks|
        invariant holdsAssignment == HeldAfter(old(holdsAssignment), callbacks[..i])
      {
        match callbacks[i] {
          case Assigned(ps) => OnAssign(ps);
          case Revoked(ps) => OnRevoke(ps);
        }
      }
      assert callbacks[..|callbacks|] == callbacks;
    }

    /** One call of poll: the callbacks that run inside it, then what it delivers, if anything. */
    method PollOnce(turn: Turn) returns (received: seq<Message>)
      modifies `holdsAssignment
      ensures received == Received(turn.reply)
      ensures holdsAssignment == HeldAfter(old(holdsAssignment), turn.callbacks)
    {
      RunCallbacks(turn.callbacks);
      match turn.reply {
        case Nothing => received := [];
        case ConsumeError(_) => received := [];
        case Delivered(m) => received := [m];
      }
    }

    /** Collect messages until the batch is full, time is up or a stop is asked for; errors and empty polls
        are skipped. */
    method PollBatch(started: real, turns: seq<Turn>) returns (batch: seq<Message>, used: nat)
      modifies `holdsAssignment
      ensures Collected(turns, used, settings.batchSize, started + settings.batchTimeoutSeconds, batch, old(holdsAssignment), holdsAssignment)
      ensures used == |turns| || |batch| == settings.batchSize || TimeUp(turns[used], started + settings.batchTimeoutSeconds)
    {
      var deadline := started + settings.batchTimeoutSeconds;
      batch, used := [], 0;
      while used < |turns| && |batch| < settings.batchSize && turns[used].now < deadline
        invariant Collected(turns, used, settings.batchSize, deadline, batch, old(holdsAssignment), holdsAssignment)
      {
        if turns[used].stopping {
          break;
        }
        CollectOne(turns, used, settings.batchSize, deadline, batch, old(holdsAssignment), holdsAssignment);
        var received := PollOnce(turns[used]);
        batch := batch + received;
        used := used + 1;
      }
    }

    /** The batch is what the protocol says this consumer has read. */
    method ReadBatch(started: real, turns: seq<Turn>, ghost cfg: Config, ghost s: State, ghost c: nat)
      returns (batch: seq<Message>, ghost steps: seq<Action>)
      requires c in s.consumers && s.consumers[c].phase == Polling && s.consumers[c].batch == []
      requires cfg.batchSize == settings.batchSize && Mirrors(s)
      requires HonestScript(cfg, s, c, turns, started + settings.batchTimeoutSeconds)
      modifies `holdsAssignment
      ensures OwnSteps(steps, c) && Mirrors(Run(cfg, s, steps))
      ensures var t := Run(cfg, s, steps);
              && c in t.consumers && t.consumers[c].phase == Polling && t.consumers[c].batch == SlotsOf(batch)
              && Sourced(t.logs, batch)
    {
      var used;
      batch, used := PollBatch(started, turns);
      steps := PollingIsReading(cfg, s, c, turns, used, started + settings.batchTimeoutSeconds);
    }

    // ----- writing -----

    predicate AllFit(featuresRows: seq<Entry<string, Row>>, labelsRows: seq<Entry<string, Row>>) {
      RowsFit(featuresRows, db.fits) && RowsFit(labelsRows, db.fits)
    }

    function Held(): Holdings
      reads db
    {
      Holdings(db.features, db.labels, db.replies)
    }

    /** One transaction over both tables. The database refuses it if some row does not fit. */
    method WriteBatch(featuresRows: seq<Entry<string, Row>>, labelsRows: seq<Entry<string, Row>>) returns (raised: bool)
      modifies db
      ensures raised <==> OutcomeAt(Script(AllFit(featuresRows, labelsRows), old(db.replies)), 0) != Committed
      ensures Held() == Try(old(Held()), AllFit(featuresRows, labelsRows), featuresRows, labelsRows)
    {
      var outcome := OutcomeAt(Script(AllFit(featuresRows, labelsRows), db.replies), 0);
      db.replies := Drop(db.replies, 1);
      if TakesEffect(outcome) {
        db.features := InsertAll(db.features, featuresRows);
        db.labels := InsertAll(db.labels, labelsRows);
      }
      raised := outcome != Committed;
    }

    /** The retry loop, for every fault script: bounded attempts, exact backoff, and the tables hold the
        batch if any attempt took effect, once, however often it was repeated. A row that does not fit makes
        every attempt fail. */
    method WriteWithRetry(featuresRows: seq<Entry<string, Row>>, labelsRows: seq<Entry<string, Row>>)
      returns (raised: bool, attempts: nat)
      modifies db, `slept
      ensures if featuresRows == [] && labelsRows == [] then !raised && attempts == 0
              else Attempted(Script(AllFit(featuresRows, labelsRows), old(db.replies)), settings.maxRetries, attempts, raised)
      ensures slept == old(slept) + if attempts == 0 then 0.0 else Backoff(settings.retryBackoffBaseSeconds, attempts - 1)
      ensures Held() == Tried(old(Held()), AllFit(featuresRows, labelsRows), attempts, featuresRows, labelsRows)
    {
      attempts := 0;
      if featuresRows == [] && labelsRows == [] {
        return false, 0;
      }
      ghost var fits, start := AllFit(featuresRows, labelsRows), Held();
      var attempt := 0;
      while true
        invariant attempt == attempts <= settings.maxRetries
        invariant forall i: nat :: i < attempts ==> OutcomeAt(Script(fits, start.replies), i) != Committed
        invariant Held() == Tried(start, fits, attempts, featuresRows, labelsRows)
        invariant slept == old(slept) + Backoff(settings.retryBackoffBaseSeconds, attempts)
        decreases settings.maxRetries - attempt
      {
        TryAgain(start, fits, attempts, featuresRows, labelsRows);
        var failed := WriteBatch(featuresRows, labelsRows);
        attempts := attempts + 1;
        if !failed {
          return false, attempts;
        }
        attempt := attempt + 1;
        if attempt > settings.maxRetries {
          return true, attempts;
        }
        Sleep(attempt);
      }
    }

    /** The pause after failure number `attempt`. */
    method Sleep(attempt: nat)
      requires 1 <= attempt
      modifies `slept
      ensures slept == old(slept) + Pause(settings.retryBackoffBaseSeconds, attempt - 1)
    {
      PauseIsPower(settings.retryBackoffBaseSeconds, attempt - 1);
      slept := slept + settings.retryBackoffBaseSeconds * Pow2(attempt - 1) as real;
    }

    // ----- a whole batch -----

    /** The process, its database and its broker are what the protocol state says. */
    ghost predicate Mirrors(s: State)
      reads this, db, broker
    {
      && TablesAre(s.landing, db.features, db.labels)
      && s.committed == broker.committed
      && s.dlq == AsSet(dlq)
    }

    /** The columns take every accepted event of the batch. */
    ghost predicate Fitting(batch: seq<Message>) {
      AllFit(TopicRows(batch, Features), TopicRows(batch, Labels))
    }

    /** Handing a message to the dead-letter producer, which raises when its queue is full. */
    method SendLetter(slot: Slot) returns (raised: bool)
      modifies `dlq, `letters
      ensures raised <==> old(letters) != [] && !old(letters)[0]
      ensures dlq == if raised then old(dlq) else old(dlq) + [slot]
      ensures letters == Drop(old(letters), 1)
    {
      raised := letters != [] && !letters[0];
      letters := Drop(letters, 1);
      if !raised {
        dlq := dlq + [slot];
      }
    }

    /** Sorting a batch: rows per table, refused messages to the dead-letter producer, largest offsets. It
        raises at the first message, number `read`, that cannot be parsed or handed over. */
    method Classify(batch: seq<Message>)
      returns (raised: bool, read: nat, featuresRows: seq<Entry<string, Row>>, labelsRows: seq<Entry<string, Row>>, maxOffset: map<Partition, nat>)
      modifies `dlq, `letters
      ensures read <= |batch| && dlq == old(dlq) + DeadLetters(batch[..read])
      ensures raised ==> StopsAt(batch, read)
      ensures raised && old(letters) == [] ==> Validate(batch[read].topic, batch[read].value).Raises?
      ensures !raised ==> read == |batch| && Parsing(batch)
      ensures !raised ==> featuresRows == TopicRows(batch, Features) && labelsRows == TopicRows(batch, Labels)
      ensures !raised ==> maxOffset == LargestOffsets(SlotsOf(batch))
    {
      featuresRows, labelsRows, maxOffset, read, raised := [], [], map[], 0, false;
      ghost var x := SortingOf([]);
      while read < |batch|
        invariant read <= |batch| && Parsing(batch[..read])
        invariant x == SortingOf(batch[..read])
        invariant x.features == featuresRows && x.labels == labelsRows && x.largest == maxOffset
        invariant dlq == old(dlq) + x.letters
        invariant old(letters) == [] ==> letters == []
      {
        var m := batch[read];
        SortOneMore(batch, read);
        x := SortOne(x, m);
        var key := Partition(m.topic, m.partition);
        maxOffset := maxOffset[key := if key in maxOffset then Max(maxOffset[key], m.offset) else m.offset];
        match Validate(m.topic, m.value) {
          case Raises =>
            raised := true;
            return;
          case Refused(_) =>
            raised := SendLetter(SlotOf(m));
            if raised { return; }
          case Accepted(event) =>
            var row := Entry(event.eventId, Row(event, m.partition, m.offset));
            if m.topic == Features {
              featuresRows := featuresRows + [row];
            } else {
              labelsRows := labelsRows + [row];
            }
        }
        read := read + 1;
      }
      assert batch[..|batch|] == batch;
    }

    /** A rejected offset commit is counted and remembered until one is accepted; it does not raise. */
    method CommitOffsets(offsets: Heights) returns (reply: CommitReply)
      modifies broker, `commitFailures, `lastCommitError
      ensures reply == if old(broker.script) == [] then Acknowledged else old(broker.script)[0]
      ensures broker.committed == old(broker.committed) + KeptOffsets(reply, offsets)
      ensures lastCommitError == None <==> reply.Acknowledged?
      ensures commitFailures == old(commitFailures) + if reply.Acknowledged? then 0 else 1
    {
      reply := broker.Commit(offsets);
      match reply {
        case Rejected(_, error) =>
          commitFailures := commitFailures + 1;
          lastCommitError := Some(error);
        case Acknowledged =>
          lastCommitError := None;
      }
    }

    /** Everything up to the offset commit; `read` messages were sorted before an exception, all of them
        without one or if it came from the database. */
    method Persist(batch: seq<Message>, ghost cfg: Config, ghost s: State, ghost c: nat)
      returns (raised: bool, read: nat, maxOffset: map<Partition, nat>, ghost steps: seq<Action>)
      requires batch != [] && Sourced(s.logs, batch)
      requires c in s.consumers && s.consumers[c].phase == Polling && s.consumers[c].batch == SlotsOf(batch)
      requires cfg.maxRetries == settings.maxRetries && cfg.fits == db.fits && Mirrors(s)
      modifies db, `dlq, `letters, `slept
      ensures OwnSteps(steps, c)
      ensures Mirrors(Run(cfg, s, steps))
      ensures var t := Run(cfg, s, steps);
              c in t.consumers && t.consumers[c] == if raised then STOPPED else s.consumers[c].(phase := Committing)
      ensures read <= |batch| && dlq == old(dlq) + DeadLetters(batch[..read])
      ensures if read == |batch| then Parsing(batch) else raised && StopsAt(batch, read) && unchanged(db)
      ensures !raised ==> maxOffset == LargestOffsets(SlotsOf(batch)) && Fitting(batch)
    {
      var featuresRows, labelsRows;
      raised, read, featuresRows, labelsRows, maxOffset := Classify(batch);
      AsSetConcat(old(dlq), DeadLetters(batch[..read]));
      if raised {
        steps := StopSteps(cfg, s, c, batch, read);
        return;
      }
      assert batch[..read] == batch;
      var attempts;
      raised, attempts := WriteWithRetry(featuresRows, labelsRows);
      if attempts != 0 {
        ReturnMeansFit(Script(AllFit(featuresRows, labelsRows), old(db.replies)), settings.maxRetries, attempts, raised);
      }
      steps := BatchSteps(cfg, s, c, batch, Script(AllFit(featuresRows, labelsRows), old(db.replies)), attempts, raised, old(db.features), old(db.labels));
    }

    /** One batch: validate, dead-letter, write with retries, commit max offset + 1 per partition. Whatever
        the fault scripts say, this is a run of the ingest protocol by consumer `c`; an exception stops the
        consumer with no offset of the batch committed, a rejected commit does not stop it. */
    method ProcessBatch(batch: seq<Message>, ghost cfg: Config, ghost s: State, ghost c: nat)
      returns (raised: bool, read: nat, ghost steps: seq<Action>)
      requires batch != [] && Sourced(s.logs, batch)
      requires c in s.consumers && s.consumers[c].phase == Polling && s.consumers[c].batch == SlotsOf(batch)
      requires cfg.maxRetries == settings.maxRetries && cfg.fits == db.fits && Mirrors(s)
      modifies this, db, broker
      ensures OwnSteps(steps, c)
      ensures Mirrors(Run(cfg, s, steps))
      ensures c in Run(cfg, s, steps).consumers
      ensures raised ==> Run(cfg, s, steps).consumers[c] == STOPPED && unchanged(broker)
      ensures !raised ==> Run(cfg, s, steps).consumers[c].phase == Polling && Run(cfg, s, steps).consumers[c].batch == []
      ensures read <= |batch| && dlq == old(dlq) + DeadLetters(batch[..read])
      ensures if read == |batch| then Parsing(batch) else raised && StopsAt(batch, read) && unchanged(db)
      ensures !Fitting(batch) ==> raised
      ensures !raised ==>
        var accepted := old(broker.script) == [] || old(broker.script)[0].Acknowledged?;
        && (lastCommitError == None <==> accepted)
        && commitFailures == old(commitFailures) + (if accepted then 0 else 1)
        && (accepted ==> broker.committed == old(broker.committed) + NextOffsets(SlotsOf(batch)))
      ensures raised ==> lastCommitError == old(lastCommitError) && commitFailures == old(commitFailures)
      ensures holdsAssignment == old(holdsAssignment) && loopError == old(loopError) && lastProgressAt == old(lastProgressAt)
    {
      var maxOffset;
      raised, read, maxOffset, steps := Persist(batch, cfg, s, c);
      if raised {
        return;
      }
      steps := CommitBatch(batch, maxOffset, cfg, s, c, steps);
    }

    /** The offset commit that ends a batch. */
    method CommitBatch(batch: seq<Message>, maxOffset: map<Partition, nat>, ghost cfg: Config, ghost s: State, ghost c: nat, ghost before: seq<Action>)
      returns (ghost steps: seq<Action>)
      requires OwnSteps(before, c) && Mirrors(Run(cfg, s, before)) && maxOffset == LargestOffsets(SlotsOf(batch))
      requires var t := Run(cfg, s, before);
               c in t.consumers && t.consumers[c].phase == Committing && t.consumers[c].batch == SlotsOf(batch)
      modifies broker, `commitFailures, `lastCommitError
      ensures OwnSteps(steps, c) && Mirrors(Run(cfg, s, steps))
      ensures var t := Run(cfg, s, steps);
              c in t.consumers && t.consumers[c].phase == Polling && t.consumers[c].batch == []
      ensures var accepted := old(broker.script) == [] || old(broker.script)[0].Acknowledged?;
              && (lastCommitError == None <==> accepted)
              && commitFailures == old(commitFailures) + (if accepted then 0 else 1)
              && (accepted ==> broker.committed == old(broker.committed) + NextOffsets(SlotsOf(batch)))
    {
      LargestOffsetsAreCommitted(SlotsOf(batch));
      var reply := CommitOffsets(map p | p in maxOffset :: maxOffset[p] + 1);
      steps := CommitStep(cfg, s, c, before, reply);
    }

    /** One turn of the consume loop, polling included. An exception is recorded for liveness, anything else
        is progress; without one the loop is where it started, ready for the next turn. */
    method LoopTurn(started: real, turns: seq<Turn>, now: real, ghost cfg: Config, ghost s: State, ghost c: nat)
      returns (ghost steps: seq<Action>)
      requires c in s.consumers && s.consumers[c].phase == Polling && s.consumers[c].batch == []
      requires cfg.maxRetries == settings.maxRetries && cfg.batchSize == settings.batchSize && cfg.fits == db.fits
      requires HonestScript(cfg, s, c, turns, started + settings.batchTimeoutSeconds)
      requires Mirrors(s) && !loopError
      modifies this, db, broker
      ensures OwnSteps(steps, c) && Mirrors(Run(cfg, s, steps))
      ensures c in Run(cfg, s, steps).consumers
      ensures loopError ==> Run(cfg, s, steps).consumers[c] == STOPPED
      ensures loopError ==> unchanged(broker) && lastProgressAt == old(lastProgressAt)
      ensures !loopError ==> lastProgressAt == now
      ensures !loopError ==> Run(cfg, s, steps).consumers[c].phase == Polling && Run(cfg, s, steps).consumers[c].batch == []
    {
      var batch;
      batch, steps := ReadBatch(started, turns, cfg, s, c);
      var raised := false;
      if batch != [] {
        ghost var rest;
        var read;
        raised, read, rest := ProcessBatch(batch, cfg, Run(cfg, s, steps), c);
        RunConcat(cfg, s, steps, rest);
        steps := steps + rest;
      }
      if raised {
        loopError := true;
      } else {
        lastProgressAt := now;
      }
    }
  }

  // ----- the protocol steps behind a batch -----

  ghost predicate OwnSteps(steps: seq<Action>, c: nat) {
    forall i :: 0 <= i < |steps| ==> steps[i].Do? && steps[i].c == c
  }

  /** The dictionary the batch loop fills: the largest offset seen per partition. */
  function LargestOffsets(batch: seq<Slot>): map<Partition, nat> {
    if batch == [] then map[]
    else AddLargest(LargestOffsets(batch[..|batch| - 1]), batch[|batch| - 1])
  }

  lemma {:induction false} LargestOffsetsAreCommitted(batch: seq<Slot>)
    ensures (map p | p in LargestOffsets(batch) :: LargestOffsets(batch)[p] + 1) == NextOffsets(batch)
  {
    if batch != [] {
      LargestOffsetsAreCommitted(batch[..|batch| - 1]);
      var largest, next := LargestOffsets(batch[..|batch| - 1]), NextOffsets(batch[..|batch| - 1]);
      assert forall p :: p in largest <==> p in next;
      assert forall p :: p in largest ==> next[p] == largest[p] + 1;
    }
  }

  lemma {:induction false} RowsSplit(logs: Logs, batch: seq<Message>)
    requires Sourced(logs, batch) && InLogs(logs, SlotsOf(batch))
    ensures BatchRows(logs, SlotsOf(batch)) == [] <==> TopicRows(batch, Features) == [] && TopicRows(batch, Labels) == []
  {
    if batch != [] {
      RowsSplit(logs, batch[..|batch| - 1]);
      RowsSplitStep(logs, batch);
    }
  }

  lemma RowsSplitStep(logs: Logs, batch: seq<Message>)
    requires batch != [] && Sourced(logs, batch) && InLogs(logs, SlotsOf(batch))
    ensures var init, m := batch[..|batch| - 1], batch[|batch| - 1];
            && InLogs(logs, SlotsOf(init))
            && (BatchRows(logs, SlotsOf(batch)) == [] <==>
                  BatchRows(logs, SlotsOf(init)) == [] && MessageRows(m, Features) == [] && MessageRows(m, Labels) == [])
  {
    assert SlotsOf(batch)[..|batch| - 1] == SlotsOf(batch[..|batch| - 1]);
  }

  lemma RefusedSlotsStep(logs: Logs, init: seq<Slot>, last: Slot)
    requires InLogs(logs, init + [last])
    ensures InLogs(logs, init) && last.offset < |LogOf(logs, last.p)|
    ensures RefusedSlots(logs, init + [last]) ==
      RefusedSlots(logs, init) + if Validate(last.p.topic, RawAt(logs, last)).Refused? then {last} else {}
  {
    var all := init + [last];
    assert forall i :: 0 <= i < |init| ==> all[i] == init[i];
    assert all[|init|] == last;
  }

  lemma {:induction false} DeadLettersAreRefused(logs: Logs, batch: seq<Message>)
    requires Sourced(logs, batch) && InLogs(logs, SlotsOf(batch))
    ensures RefusedSlots(logs, SlotsOf(batch)) == AsSet(DeadLetters(batch))
  {
    if batch != [] {
      var init, m := batch[..|batch| - 1], batch[|batch| - 1];
      DeadLettersAreRefused(logs, init);
      assert SlotsOf(batch) == SlotsOf(init) + [SlotOf(m)];
      RefusedSlotsStep(logs, SlotsOf(init), SlotOf(m));
    }
  }

  /** An exception while sorting: the consumer stops, and the letters handed over so far are out. */
  lemma StopSteps(cfg: Config, s: State, c: nat, batch: seq<Message>, read: nat) returns (steps: seq<Action>)
    requires Sourced(s.logs, batch) && read <= |batch|
    requires c in s.consumers && s.consumers[c].phase == Polling && s.consumers[c].batch == SlotsOf(batch)
    ensures OwnSteps(steps, c)
    ensures Run(cfg, s, steps) == s.(dlq := s.dlq + AsSet(DeadLetters(batch[..read])), consumers := s.consumers[c := STOPPED])
  {
    var sent := AsSet(DeadLetters(batch[..read]));
    LettersAreRefused(s.logs, batch, read);
    CrashInBatchStep(cfg, s, c, sent);
    RunOne(cfg, s, Do(c, CrashInBatch(sent)));
    steps := [Do(c, CrashInBatch(sent))];
  }

  lemma LettersAreRefused(logs: Logs, batch: seq<Message>, read: nat)
    requires Sourced(logs, batch) && read <= |batch|
    ensures InLogs(logs, SlotsOf(batch))
    ensures AsSet(DeadLetters(batch[..read])) <= RefusedSlots(logs, SlotsOf(batch))
  {
    DeadLettersAreRefused(logs, batch[..read]);
    assert forall i :: 0 <= i < read ==> SlotsOf(batch[..read])[i] == SlotsOf(batch)[i];
  }

  lemma CrashInBatchStep(cfg: Config, s: State, c: nat, sent: set<Slot>)
    requires c in s.consumers && s.consumers[c].phase == Polling && InLogs(s.logs, s.consumers[c].batch)
    requires sent <= RefusedSlots(s.logs, s.consumers[c].batch)
    ensures After(cfg, s, Do(c, CrashInBatch(sent))) == s.(dlq := s.dlq + sent, consumers := s.consumers[c := STOPPED])
  {
  }

  /** The state in which the write attempts start. */
  lemma BeginWriting(cfg: Config, s: State, c: nat, batch: seq<Message>) returns (t: State)
    requires batch != [] && Sourced(s.logs, batch) && Parsing(batch)
    requires c in s.consumers && s.consumers[c].phase == Polling && s.consumers[c].batch == SlotsOf(batch)
    ensures InLogs(s.logs, SlotsOf(batch))
    ensures t == Run(cfg, s, [Do(c, EndBatch)])
    ensures c in t.consumers && t.consumers[c] == s.consumers[c].(phase := Writing(0))
    ensures t.logs == s.logs && t.committed == s.committed && t.landing == s.landing
    ensures t.dlq == s.dlq + RefusedSlots(s.logs, SlotsOf(batch))
  {
    assert InLogs(s.logs, SlotsOf(batch));
    assert Parses(s.logs, SlotsOf(batch));
    RunOne(cfg, s, Do(c, EndBatch));
    t := Run(cfg, s, [Do(c, EndBatch)]);
  }

  function StepFor(outcome: Outcome): Step {
    match outcome
    case Committed => WriteOk
    case RolledBack => WriteFailed
    case ReportLost => WriteAmbiguous
    case StillOpen => WriteInDoubt
  }

  /** What the write attempts of consumer `c` are judged by. */
  datatype Seen = Seen(logs: Logs, committed: Heights, dlq: set<Slot>, landing: Landing, me: Option<Consumer>)

  function SeenOf(t: State, c: nat): Seen {
    Seen(t.logs, t.committed, t.dlq, t.landing, if c in t.consumers then Some(t.consumers[c]) else None)
  }

  /** What is seen after `attempts` tries to write `c`'s batch, with `me` what became of the consumer. */
  ghost function Expected(s: State, c: nat, script: Script, attempts: nat, me: Consumer): Seen
    requires c in s.consumers
  {
    Seen(s.logs, s.committed, s.dlq, TableAfter(script, attempts, s.landing, BatchRowsOf(s, c)), Some(me))
  }

  ghost predicate AfterAttempts(s: State, t: State, c: nat, script: Script, attempts: nat, me: Consumer) {
    c in s.consumers && SeenOf(t, c) == Expected(s, c, script, attempts, me)
  }

  /** What a consumer is after its `n`-th try has ended with `outcome`. */
  function AfterTry(cfg: Config, me: Consumer, n: nat, outcome: Outcome): Consumer {
    if outcome == Committed then me.(phase := Committing)
    else if n > cfg.maxRetries then STOPPED
    else me.(phase := Writing(n))
  }

  lemma WriteOkStep(cfg: Config, s: State, c: nat)
    requires c in s.consumers && s.consumers[c].phase.Writing? && InLogs(s.logs, s.consumers[c].batch)
    requires Fits(cfg, s.logs, s.consumers[c].batch)
    ensures After(cfg, s, Do(c, WriteOk)) ==
      Write(s, s.consumers[c].batch).(consumers := s.consumers[c := s.consumers[c].(phase := Committing)])
  {
  }

  lemma WriteFailedStep(cfg: Config, s: State, c: nat)
    requires c in s.consumers && s.consumers[c].phase.Writing? && InLogs(s.logs, s.consumers[c].batch)
    requires BatchRows(s.logs, s.consumers[c].batch) != []
    ensures After(cfg, s, Do(c, WriteFailed)) == s.(consumers := s.consumers[c := AfterFailure(cfg, s.consumers[c])])
  {
  }

  lemma WriteAmbiguousStep(cfg: Config, s: State, c: nat)
    requires c in s.consumers && s.consumers[c].phase.Writing? && InLogs(s.logs, s.consumers[c].batch)
    requires Fits(cfg, s.logs, s.consumers[c].batch)
    requires BatchRows(s.logs, s.consumers[c].batch) != []
    ensures After(cfg, s, Do(c, WriteAmbiguous)) ==
      Write(s, s.consumers[c].batch).(consumers := s.consumers[c := AfterFailure(cfg, s.consumers[c])])
  {
  }

  lemma WriteInDoubtStep(cfg: Config, s: State, c: nat)
    requires c in s.consumers && s.consumers[c].phase.Writing? && InLogs(s.logs, s.consumers[c].batch)
    requires Fits(cfg, s.logs, s.consumers[c].batch)
    requires BatchRows(s.logs, s.consumers[c].batch) != []
    ensures After(cfg, s, Do(c, WriteInDoubt)) ==
      s.(inFlight := s.inFlight + {s.consumers[c].batch}, consumers := s.consumers[c := AfterFailure(cfg, s.consumers[c])])
  {
  }

  /** One write step, seen from outside. */
  lemma WriteStep(cfg: Config, s: State, c: nat, outcome: Outcome)
    requires c in s.consumers && s.consumers[c].phase.Writing? && InLogs(s.logs, s.consumers[c].batch)
    requires outcome != Committed ==> BatchRows(s.logs, s.consumers[c].batch) != []
    requires outcome != RolledBack ==> Fits(cfg, s.logs, s.consumers[c].batch)
    ensures var me, t := s.consumers[c], After(cfg, s, Do(c, StepFor(outcome)));
            && t.logs == s.logs && t.committed == s.committed && t.dlq == s.dlq
            && t.landing == Written(outcome, s.landing, BatchRows(s.logs, me.batch))
            && c in t.consumers && t.consumers[c] == AfterTry(cfg, me, me.phase.attempt + 1, outcome)
  {
    match outcome
    case Committed => WriteOkStep(cfg, s, c);
    case RolledBack => WriteFailedStep(cfg, s, c);
    case ReportLost => WriteAmbiguousStep(cfg, s, c);
    case StillOpen => WriteInDoubtStep(cfg, s, c);
  }

  lemma OneTry(cfg: Config, s: State, t: State, c: nat, script: Script, n: nat)
    requires c in s.consumers && AfterAttempts(s, t, c, script, n, s.consumers[c].(phase := Writing(n)))
    requires BatchRowsOf(s, c) != []
    requires script.fits ==> BatchFits(cfg, s, c)
    ensures AfterAttempts(s, After(cfg, t, Do(c, StepFor(OutcomeAt(script, n)))), c, script, n + 1,
                          AfterTry(cfg, s.consumers[c], n + 1, OutcomeAt(script, n)))
  {
    TableAfterOneMore(script, n, s.landing, BatchRowsOf(s, c));
    WriteStep(cfg, t, c, OutcomeAt(script, n));
  }

  /** The first `n` tries of one write. */
  function TrySteps(c: nat, script: Script, n: nat): seq<Action> {
    if n == 0 then [] else TrySteps(c, script, n - 1) + [Do(c, StepFor(OutcomeAt(script, n - 1)))]
  }

  lemma {:induction false} TriesAreOwn(c: nat, script: Script, n: nat)
    ensures OwnSteps(TrySteps(c, script, n), c)
  {
    if n != 0 {
      TriesAreOwn(c, script, n - 1);
    }
  }

  lemma TryStep(cfg: Config, s: State, c: nat, script: Script, n: nat)
    requires c in s.consumers && BatchRowsOf(s, c) != []
    requires AfterAttempts(s, Run(cfg, s, TrySteps(c, script, n)), c, script, n, s.consumers[c].(phase := Writing(n)))
    requires script.fits ==> BatchFits(cfg, s, c)
    ensures AfterAttempts(s, Run(cfg, s, TrySteps(c, script, n + 1)), c, script, n + 1,
                          AfterTry(cfg, s.consumers[c], n + 1, OutcomeAt(script, n)))
  {
    OneTry(cfg, s, Run(cfg, s, TrySteps(c, script, n)), c, script, n);
    RunSnoc(cfg, s, TrySteps(c, script, n), Do(c, StepFor(OutcomeAt(script, n))));
  }

  ghost function BatchRowsOf(s: State, c: nat): seq<Entry<Key, Row>>
    requires c in s.consumers
  {
    if InLogs(s.logs, s.consumers[c].batch) then BatchRows(s.logs, s.consumers[c].batch) else []
  }

  ghost predicate BatchFits(cfg: Config, s: State, c: nat)
    requires c in s.consumers
  {
    InLogs(s.logs, s.consumers[c].batch) && Fits(cfg, s.logs, s.consumers[c].batch)
  }

  lemma NoTries(cfg: Config, s: State, c: nat, script: Script)
    requires c in s.consumers && s.consumers[c].phase == Writing(0) && BatchRowsOf(s, c) != []
    ensures AllFailed(cfg, s, c, script, 0)
  {
    assert !TookEffect(script, 0);
  }

  /** After `n` tries, each reported as failed, the consumer is at its next one. */
  ghost predicate AllFailed(cfg: Config, s: State, c: nat, script: Script, n: nat)
    requires c in s.consumers
  {
    AfterAttempts(s, Run(cfg, s, TrySteps(c, script, n)), c, script, n, s.consumers[c].(phase := Writing(n)))
  }

  lemma FailedOnce(cfg: Config, s: State, c: nat, script: Script, n: nat)
    requires c in s.consumers && BatchRowsOf(s, c) != []
    requires n < cfg.maxRetries && OutcomeAt(script, n) != Committed
    requires script.fits ==> BatchFits(cfg, s, c)
    requires AllFailed(cfg, s, c, script, n)
    ensures AllFailed(cfg, s, c, script, n + 1)
  {
    TryStep(cfg, s, c, script, n);
  }

  lemma {:induction false} StepByStep(p: nat -> bool, n: nat)
    requires p(0) && forall i: nat :: i < n && p(i) ==> p(i + 1)
    ensures p(n)
  {
    if n != 0 {
      StepByStep(p, n - 1);
    }
  }

  lemma FailedSteps(cfg: Config, s: State, c: nat, script: Script, n: nat)
    requires c in s.consumers && s.consumers[c].phase == Writing(0) && BatchRowsOf(s, c) != []
    requires n <= cfg.maxRetries && forall i: nat :: i < n ==> OutcomeAt(script, i) != Committed
    requires script.fits ==> BatchFits(cfg, s, c)
    ensures AllFailed(cfg, s, c, script, n)
  {
    var p := (i: nat) => AllFailed(cfg, s, c, script, i);
    NoTries(cfg, s, c, script);
    forall i: nat | i < n && p(i)
      ensures p(i + 1)
    {
      FailedOnce(cfg, s, c, script, i);
    }
    StepByStep(p, n);
  }

  /** `n` failures, and then one more try. */
  lemma AllTries(cfg: Config, s: State, c: nat, script: Script, n: nat)
    requires c in s.consumers && s.consumers[c].phase == Writing(0) && BatchRowsOf(s, c) != []
    requires n <= cfg.maxRetries && forall i: nat :: i < n ==> OutcomeAt(script, i) != Committed
    requires script.fits ==> BatchFits(cfg, s, c)
    ensures AfterAttempts(s, Run(cfg, s, TrySteps(c, script, n + 1)), c, script, n + 1,
                          AfterTry(cfg, s.consumers[c], n + 1, OutcomeAt(script, n)))
  {
    FailedSteps(cfg, s, c, script, n);
    LastTry(cfg, s, c, script, n);
  }

  lemma LastTry(cfg: Config, s: State, c: nat, script: Script, n: nat)
    requires c in s.consumers && BatchRowsOf(s, c) != [] && AllFailed(cfg, s, c, script, n)
    requires script.fits ==> BatchFits(cfg, s, c)
    ensures AfterAttempts(s, Run(cfg, s, TrySteps(c, script, n + 1)), c, script, n + 1,
                          AfterTry(cfg, s.consumers[c], n + 1, OutcomeAt(script, n)))
  {
    TryStep(cfg, s, c, script, n);
  }

  /** The attempts of one retry loop as protocol steps. */
  lemma WriteSteps(cfg: Config, s: State, c: nat, script: Script, attempts: nat, raised: bool) returns (steps: seq<Action>)
    requires c in s.consumers && s.consumers[c].phase == Writing(0) && InLogs(s.logs, s.consumers[c].batch)
    requires if BatchRowsOf(s, c) == [] then attempts == 0 && !raised else Attempted(script, cfg.maxRetries, attempts, raised)
    requires script.fits ==> BatchFits(cfg, s, c)
    ensures OwnSteps(steps, c)
    ensures AfterAttempts(s, Run(cfg, s, steps), c, script, attempts,
                          if raised then STOPPED else s.consumers[c].(phase := Committing))
  {
    if attempts == 0 {
      NothingToWrite(cfg, s, c, script);
      steps := [Do(c, WriteOk)];
    } else {
      AllTries(cfg, s, c, script, attempts - 1);
      steps := TrySteps(c, script, attempts);
      TriesAreOwn(c, script, attempts);
    }
  }

  lemma NothingToWrite(cfg: Config, s: State, c: nat, script: Script)
    requires c in s.consumers && s.consumers[c].phase == Writing(0) && InLogs(s.logs, s.consumers[c].batch)
    requires BatchRows(s.logs, s.consumers[c].batch) == []
    ensures AfterAttempts(s, Run(cfg, s, [Do(c, WriteOk)]), c, script, 0, s.consumers[c].(phase := Committing))
  {
    NoRowsFit(cfg, s.logs, s.consumers[c].batch);
    WriteStep(cfg, s, c, Committed);
    RunOne(cfg, s, Do(c, StepFor(Committed)));
  }

  lemma {:induction false} NoRowsFit(cfg: Config, logs: Logs, batch: seq<Slot>)
    requires InLogs(logs, batch) && BatchRows(logs, batch) == []
    ensures Fits(cfg, logs, batch)
  {
    if batch != [] {
      var last := batch[|batch| - 1];
      assert RowsAt(last.p, last.offset, RawAt(logs, last)) == [];
      NoRowsFit(cfg, logs, batch[..|batch| - 1]);
    }
  }

  /** The rows of both tables fit exactly if the batch does. */
  lemma {:induction false} RowsFitExactly(cfg: Config, logs: Logs, batch: seq<Message>)
    requires Sourced(logs, batch) && InLogs(logs, SlotsOf(batch))
    ensures Fits(cfg, logs, SlotsOf(batch)) <==>
      RowsFit(TopicRows(batch, Features), cfg.fits) && RowsFit(TopicRows(batch, Labels), cfg.fits)
  {
    if batch != [] {
      var init, m := batch[..|batch| - 1], batch[|batch| - 1];
      RowsFitExactly(cfg, logs, init);
      assert SlotsOf(batch)[..|batch| - 1] == SlotsOf(init);
      assert RawAt(logs, SlotOf(m)) == m.value;
      RowsFitOneMore(cfg, init, m, Features);
      RowsFitOneMore(cfg, init, m, Labels);
    }
  }

  lemma RowsFitOneMore(cfg: Config, init: seq<Message>, m: Message, topic: Topic)
    ensures RowsFit(TopicRows(init, topic) + MessageRows(m, topic), cfg.fits) <==>
      RowsFit(TopicRows(init, topic), cfg.fits) && (m.topic == topic ==> MessageFits(cfg, m.topic, m.value))
  {
    var rows := TopicRows(init, topic) + MessageRows(m, topic);
    if MessageRows(m, topic) == [] {
      assert rows == TopicRows(init, topic);
    } else {
      assert rows[..|rows| - 1] == TopicRows(init, topic);
      assert rows[|rows| - 1] == MessageRows(m, topic)[0];
    }
  }

  lemma FitsWhenWriting(cfg: Config, s: State, c: nat, batch: seq<Message>, fits: bool)
    requires Sourced(s.logs, batch) && InLogs(s.logs, SlotsOf(batch))
    requires c in s.consumers && s.consumers[c].batch == SlotsOf(batch)
    requires fits ==> RowsFit(TopicRows(batch, Features), cfg.fits) && RowsFit(TopicRows(batch, Labels), cfg.fits)
    ensures fits ==> BatchFits(cfg, s, c)
  {
    RowsFitExactly(cfg, s.logs, batch);
  }

  /** A batch up to its transaction, seen from the protocol. */
  lemma BatchRun(
    cfg: Config, s: State, c: nat, batch: seq<Message>, script: Script, attempts: nat, raised: bool) returns (steps: seq<Action>)
    requires batch != [] && Sourced(s.logs, batch) && Parsing(batch)
    requires c in s.consumers && s.consumers[c].phase == Polling && s.consumers[c].batch == SlotsOf(batch)
    requires if BatchRowsOf(s, c) == [] then attempts == 0 && !raised else Attempted(script, cfg.maxRetries, attempts, raised)
    requires script.fits ==> BatchFits(cfg, s, c)
    ensures OwnSteps(steps, c) && InLogs(s.logs, SlotsOf(batch))
    ensures SeenOf(Run(cfg, s, steps), c) ==
      Seen(s.logs, s.committed, s.dlq + RefusedSlots(s.logs, SlotsOf(batch)), TableAfter(script, attempts, s.landing, BatchRowsOf(s, c)),
           Some(if raised then STOPPED else s.consumers[c].(phase := Committing)))
  {
    var s1 := BeginWriting(cfg, s, c, batch);
    var writes := WriteSteps(cfg, s1, c, script, attempts, raised);
    RunConcat(cfg, s, [Do(c, EndBatch)], writes);
    steps := [Do(c, EndBatch)] + writes;
  }

  /** A batch up to its transaction, seen from the tables. */
  lemma BatchSteps(
    cfg: Config, s: State, c: nat, batch: seq<Message>, script: Script, attempts: nat, raised: bool,
    features: map<string, Row>, labels: map<string, Row>) returns (steps: seq<Action>)
    requires batch != [] && Sourced(s.logs, batch) && Parsing(batch) && TablesAre(s.landing, features, labels)
    requires c in s.consumers && s.consumers[c].phase == Polling && s.consumers[c].batch == SlotsOf(batch)
    requires if TopicRows(batch, Features) == [] && TopicRows(batch, Labels) == [] then !raised && attempts == 0
             else Attempted(script, cfg.maxRetries, attempts, raised)
    requires script.fits ==> RowsFit(TopicRows(batch, Features), cfg.fits) && RowsFit(TopicRows(batch, Labels), cfg.fits)
    ensures OwnSteps(steps, c)
    ensures var t := Run(cfg, s, steps);
            && c in t.consumers && t.consumers[c] == (if raised then STOPPED else s.consumers[c].(phase := Committing))
            && t.committed == s.committed
            && t.dlq == s.dlq + AsSet(DeadLetters(batch))
            && TablesAre(t.landing, TableAfter(script, attempts, features, TopicRows(batch, Features)),
                         TableAfter(script, attempts, labels, TopicRows(batch, Labels)))
  {
    assert InLogs(s.logs, SlotsOf(batch));
    RowsSplit(s.logs, batch);
    FitsWhenWriting(cfg, s, c, batch, script.fits);
    steps := BatchRun(cfg, s, c, batch, script, attempts, raised);
    SplitWriteIsBatchWrite(s.logs, s.landing, features, labels, batch);
    DeadLettersAreRefused(s.logs, batch);
    TablesAfter(script, attempts, s.landing, features, labels, BatchRows(s.logs, SlotsOf(batch)),
                TopicRows(batch, Features), TopicRows(batch, Labels));
  }

  lemma TablesAfter(
    script: Script, attempts: nat, landing: Landing, features: map<string, Row>, labels: map<string, Row>,
    rows: seq<Entry<Key, Row>>, featuresRows: seq<Entry<string, Row>>, labelsRows: seq<Entry<string, Row>>)
    requires TablesAre(landing, features, labels)
    requires TablesAre(InsertAll(landing, rows), InsertAll(features, featuresRows), InsertAll(labels, labelsRows))
    ensures TablesAre(TableAfter(script, attempts, landing, rows), TableAfter(script, attempts, features, featuresRows),
                      TableAfter(script, attempts, labels, labelsRows))
  {
  }

  /** What the broker keeps of an offset commit. */
  function KeptOffsets(reply: CommitReply, offsets: Heights): Heights {
    match reply
    case Acknowledged => offsets
    case Rejected(applied, _) => Restrict(offsets, applied)
  }

  lemma CommitAcceptedStep(cfg: Config, s: State, c: nat)
    requires c in s.consumers && s.consumers[c].phase == Committing
    ensures After(cfg, s, Do(c, CommitAccepted)) ==
      s.(committed := s.committed + NextOffsets(s.consumers[c].batch),
         consumers := s.consumers[c := s.consumers[c].(batch := [], phase := Polling)])
  {
  }

  lemma CommitRejectedStep(cfg: Config, s: State, c: nat, applied: set<Partition>)
    requires c in s.consumers && s.consumers[c].phase == Committing
    ensures After(cfg, s, Do(c, CommitRejected(applied))) ==
      s.(committed := s.committed + Restrict(NextOffsets(s.consumers[c].batch), applied),
         consumers := s.consumers[c := s.consumers[c].(batch := [], phase := Polling)])
  {
  }

  lemma CommitStep(cfg: Config, s: State, c: nat, before: seq<Action>, reply: CommitReply) returns (steps: seq<Action>)
    requires OwnSteps(before, c)
    requires var t := Run(cfg, s, before); c in t.consumers && t.consumers[c].phase == Committing
    ensures OwnSteps(steps, c)
    ensures var t := Run(cfg, s, before);
            Run(cfg, s, steps) ==
              t.(committed := t.committed + KeptOffsets(reply, NextOffsets(t.consumers[c].batch)),
                 consumers := t.consumers[c := t.consumers[c].(batch := [], phase := Polling)])
  {
    match reply
    case Acknowledged =>
      CommitAcceptedStep(cfg, Run(cfg, s, before), c);
      RunSnoc(cfg, s, before, Do(c, CommitAccepted));
      steps := before + [Do(c, CommitAccepted)];
    case Rejected(applied, _) =>
      CommitRejectedStep(cfg, Run(cfg, s, before), c, applied);
      RunSnoc(cfg, s, before, Do(c, CommitRejected(applied)));
      steps := before + [Do(c, CommitRejected(applied))];
  }

  lemma AgainIsOnce<K, V>(table: map<K, V>, es: seq<Entry<K, V>>)
    ensures InsertAll(InsertAll(table, es), es) == InsertAll(table, es)
  {
    InsertAllMeaning(table, es);
    InsertAllAbsorbed(InsertAll(table, es), es);
  }
}
