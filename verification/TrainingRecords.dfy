/** Training records: an incremental join against accumulated curated state. Builds and upserts of
    different runs may interleave with each other and with arriving features and labels. */
module TrainingRecords {
  import opened Tables
  import opened Upserts

  datatype Feature = Feature(entityId: string, eventTimestamp: int, features: string, schemaVersion: string)
  datatype Label = Label(entityId: string, target: int)
  datatype Record = Record(
    entityId: string, featureEventId: string, labelEventId: string, eventTimestamp: int,
    features: string, target: int, schemaVersion: string, sourceRun: string)

  type Features = map<string, Feature>  // curated, by event id
  type Labels = map<string, Label>

  /** A run's data frame; `due` and `upserted` are history: the entities of the full join when it was
      built, and whether it has been written. */
  datatype Build = Build(frame: seq<Record>, due: set<string>, upserted: bool)

  datatype State = State(features: Features, labels: Labels, records: map<string, Record>, builds: map<string, Build>)

  const INIT := State(map[], map[], map[], map[])

  datatype Action =
    | FeatureArrives(eventId: string, observed: Feature)
    | LabelArrives(eventId: string, labelled: Label)
    | BuildFrame(run: string, frame: seq<Record>)  // the query's rows, in whatever order it returns them
    | Upsert(run: string)

  function Joined(f: string, l: string, features: Features, labels: Labels, run: string): Record
    requires f in features && l in labels
  {
    var feat := features[f];
    Record(feat.entityId, f, l, feat.eventTimestamp, feat.features, labels[l].target, feat.schemaVersion, run)
  }

  /** `r` is made of one curated feature and one curated label of its own entity. */
  ghost predicate OwnPair(features: Features, labels: Labels, r: Record) {
    && r.featureEventId in features && r.labelEventId in labels
    && features[r.featureEventId].entityId == r.entityId && labels[r.labelEventId].entityId == r.entityId
    && r.eventTimestamp == features[r.featureEventId].eventTimestamp
    && r.features == features[r.featureEventId].features
    && r.schemaVersion == features[r.featureEventId].schemaVersion
    && r.target == labels[r.labelEventId].target
  }

  ghost predicate HasLabel(labels: Labels, e: string) { exists l :: l in labels && labels[l].entityId == e }

  /** The entities a full recompute would hold. */
  ghost function JoinEntities(features: Features, labels: Labels): set<string> {
    set f | f in features && HasLabel(labels, features[f].entityId) :: features[f].entityId
  }

  /** `frame` answers the query: all pairs of matching entities that have no training record yet. */
  ghost predicate IsNewPairs(s: State, run: string, frame: seq<Record>) {
    forall r :: r in frame <==> OwnPair(s.features, s.labels, r) && r.entityId !in s.records && r.sourceRun == run
  }

  function Keyed(frame: seq<Record>): seq<Entry<string, Record>> {
    seq(|frame|, i requires 0 <= i < |frame| => Entry(frame[i].entityId, frame[i]))
  }

  ghost predicate Enabled(s: State, a: Action) {
    match a
    case FeatureArrives(id, _) => id !in s.features
    case LabelArrives(id, _) => id !in s.labels
    case BuildFrame(run, frame) => IsNewPairs(s, run, frame)
    case Upsert(run) => run in s.builds
  }

  ghost function Apply(s: State, a: Action): State
    requires Enabled(s, a)
  {
    match a
    case FeatureArrives(id, f) => s.(features := s.features[id := f])
    case LabelArrives(id, l) => s.(labels := s.labels[id := l])
    case BuildFrame(run, frame) => s.(builds := s.builds[run := Build(frame, JoinEntities(s.features, s.labels), false)])
    case Upsert(run) =>
      s.(records := InsertAll(s.records, Keyed(s.builds[run].frame)),
         builds := s.builds[run := s.builds[run].(upserted := true)])
  }

  ghost function Run(s: State, schedule: seq<Action>): State {
    if schedule == [] then s
    else
      var t := Run(s, schedule[..|schedule| - 1]);
      var a := schedule[|schedule| - 1];
      if Enabled(t, a) then Apply(t, a) else t
  }

  // ----- invariant -----

  ghost predicate RecordsOk(s: State) {
    forall e :: e in s.records ==> OwnPair(s.features, s.labels, s.records[e]) && s.records[e].entityId == e
  }

  ghost predicate InFrame(frame: seq<Record>, e: string) {
    exists i :: 0 <= i < |frame| && frame[i].entityId == e
  }

  ghost predicate BuildOk(s: State, b: Build) {
    && (forall i :: 0 <= i < |b.frame| ==> OwnPair(s.features, s.labels, b.frame[i]))
    && (forall e :: e in b.due ==> e in s.records || InFrame(b.frame, e))
    && (b.upserted ==> b.due <= s.records.Keys)
  }

  ghost predicate Inv(s: State) {
    RecordsOk(s) && forall run :: run in s.builds ==> BuildOk(s, s.builds[run])
  }

  lemma OwnPairIsInJoin(features: Features, labels: Labels, r: Record)
    requires OwnPair(features, labels, r)
    ensures r.entityId in JoinEntities(features, labels)
  {
    assert HasLabel(labels, features[r.featureEventId].entityId);
  }

  /** Every joined entity has a pair the query would return. */
  lemma JoinHasPair(features: Features, labels: Labels, e: string, run: string) returns (r: Record)
    requires e in JoinEntities(features, labels)
    ensures OwnPair(features, labels, r) && r.entityId == e && r.sourceRun == run
  {
    var f :| f in features && HasLabel(labels, features[f].entityId) && features[f].entityId == e;
    var l :| l in labels && labels[l].entityId == e;
    r := Joined(f, l, features, labels, run);
  }

  lemma BuildKeeps(s: State, run: string, frame: seq<Record>)
    requires Inv(s) && IsNewPairs(s, run, frame)
    ensures BuildOk(s, Build(frame, JoinEntities(s.features, s.labels), false))
  {
    forall i | 0 <= i < |frame|
      ensures OwnPair(s.features, s.labels, frame[i])
    {
      assert frame[i] in frame;
    }
    forall e | e in JoinEntities(s.features, s.labels) && e !in s.records
      ensures InFrame(frame, e)
    {
      var r := JoinHasPair(s.features, s.labels, e, run);
      assert r in frame;
    }
  }

  ghost predicate ComesFrom(records: map<string, Record>, frame: seq<Record>, e: string, r: Record) {
    || (e in records && r == records[e])
    || exists i :: 0 <= i < |frame| && frame[i].entityId == e && r == frame[i]
  }

  /** After an upsert every record is an old one or one of the frame, and none is missing. */
  ghost predicate Upserted(records: map<string, Record>, frame: seq<Record>, after: map<string, Record>) {
    && (forall e :: e in after ==> ComesFrom(records, frame, e, after[e]))
    && (forall e :: InFrame(frame, e) ==> e in after)
    && records.Keys <= after.Keys
  }

  lemma {:induction false} UpsertOrigin(records: map<string, Record>, frame: seq<Record>)
    ensures Upserted(records, frame, InsertAll(records, Keyed(frame)))
  {
    if frame != [] {
      var init, last := frame[..|frame| - 1], frame[|frame| - 1];
      UpsertOrigin(records, init);
      assert Keyed(frame)[..|frame| - 1] == Keyed(init);
      UpsertOneMore(records, init, last, InsertAll(records, Keyed(init)));
      assert frame == init + [last];
    }
  }

  lemma UpsertOneMore(records: map<string, Record>, init: seq<Record>, last: Record, after: map<string, Record>)
    requires Upserted(records, init, after)
    ensures Upserted(records, init + [last], InsertOne(after, Entry(last.entityId, last)))
  {
    var frame, next := init + [last], InsertOne(after, Entry(last.entityId, last));
    assert frame[|init|] == last;
    forall e | e in next
      ensures ComesFrom(records, frame, e, next[e])
    {
      if e in after {
        assert ComesFrom(records, init, e, after[e]);
        assert forall i :: 0 <= i < |init| ==> frame[i] == init[i];
      }
    }
    forall e | InFrame(frame, e)
      ensures e in next
    {
      var i :| 0 <= i < |frame| && frame[i].entityId == e;
      assert i < |init| ==> init[i].entityId == e;
    }
  }

  lemma ApplyKeeps(s: State, a: Action)
    requires Inv(s) && Enabled(s, a)
    ensures Inv(Apply(s, a))
  {
    match a
    case FeatureArrives(_, _) =>
    case LabelArrives(_, _) =>
    case BuildFrame(run, frame) => BuildKeeps(s, run, frame);
    case Upsert(run) =>
      UpsertOrigin(s.records, s.builds[run].frame);
  }

  lemma {:induction false} RunKeeps(s: State, schedule: seq<Action>)
    requires Inv(s)
    ensures Inv(Run(s, schedule))
  {
    if schedule != [] {
      RunKeeps(s, schedule[..|schedule| - 1]);
      var t := Run(s, schedule[..|schedule| - 1]);
      if Enabled(t, schedule[|schedule| - 1]) {
        ApplyKeeps(t, schedule[|schedule| - 1]);
      }
    }
  }

  // ----- main results -----

  /** In every reachable state: training records never leave the current full join, each is keyed by its
      entity and built from that entity's own feature and label, and every run that has upserted has
      brought in at least the full join of its build. */
  lemma RecordsBetweenSnapshotAndJoin(schedule: seq<Action>)
    ensures var s := Run(INIT, schedule);
            && s.records.Keys <= JoinEntities(s.features, s.labels)
            && (forall e :: e in s.records ==> s.records[e].entityId == e && OwnPair(s.features, s.labels, s.records[e]))
            && (forall run :: run in s.builds && s.builds[run].upserted ==> s.builds[run].due <= s.records.Keys)
  {
    RunKeeps(INIT, schedule);
    var s := Run(INIT, schedule);
    forall e | e in s.records
      ensures e in JoinEntities(s.features, s.labels)
    {
      OwnPairIsInJoin(s.features, s.labels, s.records[e]);
    }
  }

  /** What a training record is made of, field by field, in every reachable state. */
  lemma RecordsAreTheirPairs(schedule: seq<Action>, e: string)
    requires e in Run(INIT, schedule).records
    ensures var s := Run(INIT, schedule);
            var r := s.records[e];
            && r.entityId == e
            && r.featureEventId in s.features && r.labelEventId in s.labels
            && var f, l := s.features[r.featureEventId], s.labels[r.labelEventId];
               && f.entityId == e && l.entityId == e
               && r.eventTimestamp == f.eventTimestamp && r.features == f.features
               && r.schemaVersion == f.schemaVersion && r.target == l.target
  {
    RunKeeps(INIT, schedule);
  }

  /** The query always has an answer: every state has a frame. */
  lemma FrameExists(s: State, run: string) returns (frame: seq<Record>)
    ensures IsNewPairs(s, run, frame)
  {
    var pairs := set f, l | f in s.features && l in s.labels && s.features[f].entityId == s.labels[l].entityId
                            && s.features[f].entityId !in s.records :: Joined(f, l, s.features, s.labels, run);
    frame := Listed(pairs);
    forall r
      ensures r in frame <==> OwnPair(s.features, s.labels, r) && r.entityId !in s.records && r.sourceRun == run
    {
      if OwnPair(s.features, s.labels, r) && r.entityId !in s.records && r.sourceRun == run {
        assert r == Joined(r.featureEventId, r.labelEventId, s.features, s.labels, run);
        assert r in pairs;
      }
      if r in frame {
        assert r in pairs;
      }
    }
  }

  lemma {:induction false} Listed<T>(xs: set<T>) returns (list: seq<T>)
    ensures forall x :: x in list <==> x in xs
    decreases |xs|
  {
    if xs == {} {
      list := [];
    } else {
      var x :| x in xs;
      var rest := Listed(xs - {x});
      list := [x] + rest;
    }
  }

  /** Incremental equals full recompute: whatever happened before, one build followed by its upsert leaves
      exactly the entities of the full join. */
  lemma BuildThenUpsertIsFullRecompute(schedule: seq<Action>, run: string, frame: seq<Record>)
    requires IsNewPairs(Run(INIT, schedule), run, frame)
    ensures var t := Run(INIT, schedule + [BuildFrame(run, frame), Upsert(run)]);
            t.records.Keys == JoinEntities(t.features, t.labels)
  {
    var s := Run(INIT, schedule);
    var one := schedule + [BuildFrame(run, frame)];
    var two := schedule + [BuildFrame(run, frame), Upsert(run)];
    assert one[..|schedule|] == schedule && two[..|schedule| + 1] == one;
    assert Run(INIT, one) == Apply(s, BuildFrame(run, frame));
    var t := Apply(Run(INIT, one), Upsert(run));
    assert Run(INIT, two) == t;
    assert t.builds[run] == Build(frame, JoinEntities(s.features, s.labels), true);
    RecordsBetweenSnapshotAndJoin(two);
  }

  /** A label that arrives after its feature is picked up by the next build and upsert, whichever run that is. */
  lemma LateLabelIsPickedUp(schedule: seq<Action>, l: string, late: Label, run: string, frame: seq<Record>)
    requires var s := Run(INIT, schedule);
             l !in s.labels && exists f :: f in s.features && s.features[f].entityId == late.entityId
    requires IsNewPairs(Run(INIT, schedule + [LabelArrives(l, late)]), run, frame)
    ensures late.entityId in Run(INIT, schedule + [LabelArrives(l, late)] + [BuildFrame(run, frame), Upsert(run)]).records
  {
    var s := Run(INIT, schedule);
    var f :| f in s.features && s.features[f].entityId == late.entityId;
    var arrived := schedule + [LabelArrives(l, late)];
    assert arrived[..|schedule|] == schedule;
    var t := Run(INIT, arrived);
    assert t == Apply(s, LabelArrives(l, late));
    assert t.labels[l] == late && HasLabel(t.labels, t.features[f].entityId);
    assert late.entityId in JoinEntities(t.features, t.labels);
    BuildThenUpsertIsFullRecompute(arrived, run, frame);
    BuildChangesNoCuratedRow(arrived, run, frame);
  }

  lemma BuildChangesNoCuratedRow(schedule: seq<Action>, run: string, frame: seq<Record>)
    ensures var s, t := Run(INIT, schedule), Run(INIT, schedule + [BuildFrame(run, frame), Upsert(run)]);
            t.features == s.features && t.labels == s.labels
  {
    var one := schedule + [BuildFrame(run, frame)];
    var two := schedule + [BuildFrame(run, frame), Upsert(run)];
    assert one[..|schedule|] == schedule && two[..|schedule| + 1] == one;
  }

  /** With one feature and one label event per entity the record itself, not only its key, is the one a
      full recompute would hold, whichever run wrote it. */
  lemma RecordIsTheOnlyPair(schedule: seq<Action>, f: string, l: string)
    requires var s := Run(INIT, schedule);
             && f in s.features && l in s.labels && s.features[f].entityId == s.labels[l].entityId
             && s.features[f].entityId in s.records
             && (forall g :: g in s.features && s.features[g].entityId == s.features[f].entityId ==> g == f)
             && (forall m :: m in s.labels && s.labels[m].entityId == s.labels[l].entityId ==> m == l)
    ensures var s := Run(INIT, schedule);
            var r := s.records[s.features[f].entityId];
            && r.entityId == s.features[f].entityId && r.featureEventId == f && r.labelEventId == l
            && r.eventTimestamp == s.features[f].eventTimestamp && r.features == s.features[f].features
            && r.schemaVersion == s.features[f].schemaVersion && r.target == s.labels[l].target
  {
    RunKeeps(INIT, schedule);
  }

  // ----- why the join is against accumulated state -----

  /** What one run extracted. */
  datatype Delta = Delta(features: Features, labels: Labels)

  ghost function AllFeatures(deltas: seq<Delta>): Features {
    if deltas == [] then map[] else AllFeatures(deltas[..|deltas| - 1]) + deltas[|deltas| - 1].features
  }
  ghost function AllLabels(deltas: seq<Delta>): Labels {
    if deltas == [] then map[] else AllLabels(deltas[..|deltas| - 1]) + deltas[|deltas| - 1].labels
  }

  /** The alternative: every run joins only what it extracted itself. */
  ghost function DeltaJoins(deltas: seq<Delta>): set<string> {
    if deltas == [] then {}
    else DeltaJoins(deltas[..|deltas| - 1]) + JoinEntities(deltas[|deltas| - 1].features, deltas[|deltas| - 1].labels)
  }

  ghost predicate FeatureIn(d: Delta, e: string) { exists f :: f in d.features && d.features[f].entityId == e }

  lemma {:induction false} DeltaJoinsMeaning(deltas: seq<Delta>, e: string)
    ensures e in DeltaJoins(deltas) <==> exists i :: 0 <= i < |deltas| && FeatureIn(deltas[i], e) && HasLabel(deltas[i].labels, e)
  {
    if deltas != [] {
      var n := |deltas| - 1;
      DeltaJoinsMeaning(deltas[..n], e);
      if i :| 0 <= i < |deltas| && FeatureIn(deltas[i], e) && HasLabel(deltas[i].labels, e) {
        assert i < n ==> deltas[..n][i] == deltas[i];
      }
      assert e in JoinEntities(deltas[n].features, deltas[n].labels) <==> FeatureIn(deltas[n], e) && HasLabel(deltas[n].labels, e);
    }
  }

  /** An event is extracted by one run only. */
  ghost predicate ExtractedOnce(deltas: seq<Delta>) {
    forall i, j :: 0 <= i < j < |deltas| ==>
      deltas[i].features.Keys !! deltas[j].features.Keys && deltas[i].labels.Keys !! deltas[j].labels.Keys
  }

  /** What was extracted once stays in the accumulated state. */
  lemma {:induction false} AccumulatedFeature(deltas: seq<Delta>, i: nat, f: string)
    requires ExtractedOnce(deltas) && i < |deltas| && f in deltas[i].features
    ensures f in AllFeatures(deltas) && AllFeatures(deltas)[f] == deltas[i].features[f]
  {
    var n := |deltas| - 1;
    if i < n {
      AccumulatedFeature(deltas[..n], i, f);
      assert deltas[i].features.Keys !! deltas[n].features.Keys;
    }
  }

  lemma {:induction false} AccumulatedLabel(deltas: seq<Delta>, i: nat, l: string)
    requires ExtractedOnce(deltas) && i < |deltas| && l in deltas[i].labels
    ensures l in AllLabels(deltas) && AllLabels(deltas)[l] == deltas[i].labels[l]
  {
    var n := |deltas| - 1;
    if i < n {
      AccumulatedLabel(deltas[..n], i, l);
      assert deltas[i].labels.Keys !! deltas[n].labels.Keys;
    }
  }

  /** An entity with a feature and a label in any runs is in the accumulated join; joining each run's own
      extraction misses it exactly if no run extracted both, so whenever the label comes in another run. */
  lemma {:induction false} DeltaJoinMissesLateLabels(deltas: seq<Delta>, e: string, i: nat, j: nat)
    requires ExtractedOnce(deltas) && i < |deltas| && j < |deltas|
    requires FeatureIn(deltas[i], e) && HasLabel(deltas[j].labels, e)
    ensures e in JoinEntities(AllFeatures(deltas), AllLabels(deltas))
    ensures e !in DeltaJoins(deltas) <==> forall k :: 0 <= k < |deltas| && FeatureIn(deltas[k], e) ==> !HasLabel(deltas[k].labels, e)
  {
    var f :| f in deltas[i].features && deltas[i].features[f].entityId == e;
    var l :| l in deltas[j].labels && deltas[j].labels[l].entityId == e;
    AccumulatedFeature(deltas, i, f);
    AccumulatedLabel(deltas, j, l);
    assert HasLabel(AllLabels(deltas), AllFeatures(deltas)[f].entityId);
    DeltaJoinsMeaning(deltas, e);
  }

  // ----- the writing task -----

  method UpsertTrainingRecords(sink: Sink<string, Record>, frame: seq<Record>) returns (inserted: nat)
    modifies sink
    ensures sink.rows == InsertAll(old(sink.rows), Keyed(frame))
    ensures inserted == Inserted(old(sink.rows), Keyed(frame))
  {
    if frame == [] {
      assert KeysOf(Keyed(frame)) == {};
      return 0;
    }
    inserted := sink.UpsertChunked(Keyed(frame), TRAINING_COLUMNS);
  }
}
