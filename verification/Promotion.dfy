/** Candidate to champion promotion and its audit log. Metrics are reals. */
module Promotion {
  import opened Tables

  datatype Metrics = Metrics(testAccuracy: Option<real>, testRocAuc: Option<real>)
  datatype Criteria = Criteria(minTestAccuracy: real, minTestRocAuc: real, maxRegression: real)

  datatype Check = Accuracy | RocAuc | Regression | FirstPromotion | MissingMetrics
  datatype Reason = Reason(check: Check, passed: bool)
  datatype Decision = Decision(approved: bool, reasons: seq<Reason>)

  /** Absolute floors first, then relative to the champion; each check leaves a reason. */
  method EvaluatePromotion(candidate: Metrics, champion: Option<Metrics>, criteria: Criteria) returns (d: Decision)
    ensures d.approved <==> Clears(candidate, champion, criteria)
    ensures d.approved <==>
      && candidate.testAccuracy.Some? && candidate.testRocAuc.Some?
      && candidate.testAccuracy.value >= criteria.minTestAccuracy && candidate.testRocAuc.value >= criteria.minTestRocAuc
      && (champion.Some? && champion.value.testAccuracy.Some? ==>
            candidate.testAccuracy.value >= champion.value.testAccuracy.value - criteria.maxRegression)
      && (champion.Some? && champion.value.testAccuracy.None? ==> candidate.testAccuracy.value >= 0.0 - criteria.maxRegression)
    ensures d.approved <==> forall i :: 0 <= i < |d.reasons| ==> d.reasons[i].passed
    ensures candidate.testAccuracy.Some? && candidate.testRocAuc.Some? ==>
      && |d.reasons| == 3 && d.reasons[0].check == Accuracy && d.reasons[1].check == RocAuc
      && (d.reasons[2].check == if champion.Some? then Regression else FirstPromotion)
      && (d.reasons[0].passed <==> candidate.testAccuracy.value >= criteria.minTestAccuracy)
      && (d.reasons[1].passed <==> candidate.testRocAuc.value >= criteria.minTestRocAuc)
    ensures candidate.testAccuracy.None? || candidate.testRocAuc.None? ==> d.reasons == [Reason(MissingMetrics, false)]
  {
    if candidate.testAccuracy.None? || candidate.testRocAuc.None? {
      d := Decision(false, [Reason(MissingMetrics, false)]);
      assert !d.reasons[0].passed;
      return;
    }
    var acc, auc := candidate.testAccuracy.value, candidate.testRocAuc.value;
    var reasons, ok := [], true;
    if acc < criteria.minTestAccuracy {
      ok := false;
      reasons := reasons + [Reason(Accuracy, false)];
    } else {
      reasons := reasons + [Reason(Accuracy, true)];
    }
    if auc < criteria.minTestRocAuc {
      ok := false;
      reasons := reasons + [Reason(RocAuc, false)];
    } else {
      reasons := reasons + [Reason(RocAuc, true)];
    }
    match champion {
      case None =>
        reasons := reasons + [Reason(FirstPromotion, true)];
      case Some(current) =>
        var champAcc := if current.testAccuracy.Some? then current.testAccuracy.value else 0.0;
        if acc < champAcc - criteria.maxRegression {
          ok := false;
          reasons := reasons + [Reason(Regression, false)];
        } else {
          reasons := reasons + [Reason(Regression, true)];
        }
    }
    assert ok <==> reasons[0].passed && reasons[1].passed && reasons[2].passed;
    return Decision(ok, reasons);
  }

  /** A champion without the metric counts as accuracy 0. */
  function AccuracyOf(m: Metrics): real { if m.testAccuracy.Some? then m.testAccuracy.value else 0.0 }

  /** The promotion rule: both floors, and no regression beyond the tolerance against a known champion. */
  predicate Clears(candidate: Metrics, champion: Option<Metrics>, criteria: Criteria) {
    && candidate.testAccuracy.Some? && candidate.testRocAuc.Some?
    && criteria.minTestAccuracy <= candidate.testAccuracy.value
    && criteria.minTestRocAuc <= candidate.testRocAuc.value
    && (champion.Some? ==> AccuracyOf(champion.value) - criteria.maxRegression <= candidate.testAccuracy.value)
  }

  datatype AuditRow = AuditRow(version: string, previous: Option<string>, forced: bool)

  /** The alias and the audit table. */
  datatype Registry = Registry(champion: Option<string>, audit: seq<AuditRow>)

  const EMPTY := Registry(None, [])

  /** Reading the champion: either of the two lookups may raise, and both are read as "no champion yet". */
  datatype Fetch = Works | AliasFails | MetricsFail

  /** One promote call. `crashes`: the process dies between the alias flip and the audit insert. */
  datatype Call = Call(version: string, force: bool, fetch: Fetch, crashes: bool)

  type Models = string -> Metrics

  function ChampionMetrics(models: Models, r: Registry, call: Call): Option<Metrics> {
    if r.champion.Some? && call.fetch.Works? then Some(models(r.champion.value)) else None
  }

  /** The alias is read first, so a failure to read the metrics does not lose it. */
  function PreviousVersion(r: Registry, call: Call): Option<string> { if call.fetch.AliasFails? then None else r.champion }

  function Promote(models: Models, criteria: Criteria, r: Registry, call: Call): Registry {
    var approved := Clears(models(call.version), ChampionMetrics(models, r, call), criteria);
    if !approved && !call.force then r
    else
      var row := AuditRow(call.version, PreviousVersion(r, call), call.force && !approved);
      Registry(Some(call.version), if call.crashes then r.audit else r.audit + [row])
  }

  function History(models: Models, criteria: Criteria, calls: seq<Call>): Registry {
    if calls == [] then EMPTY
    else Promote(models, criteria, History(models, criteria, calls[..|calls| - 1]), calls[|calls| - 1])
  }

  class ModelRegistry {
    var champion: Option<string>
    var audit: seq<AuditRow>

    constructor ()
      ensures View() == EMPTY
    {
      champion, audit := None, [];
    }

    function View(): Registry
      reads this
    {
      Registry(champion, audit)
    }

    /** Decide, flip the alias, then insert the audit row, unless the process dies in between. */
    method PromoteVersion(models: Models, criteria: Criteria, call: Call) returns (d: Decision)
      modifies this
      ensures View() == Promote(models, criteria, old(View()), call)
      ensures d.approved <==> Clears(models(call.version), ChampionMetrics(models, old(View()), call), criteria)
    {
      var previous := PreviousVersion(View(), call);
      d := EvaluatePromotion(models(call.version), ChampionMetrics(models, View(), call), criteria);
      if !d.approved && !call.force {
        return;
      }
      champion := Some(call.version);
      if call.crashes {
        return;
      }
      audit := audit + [AuditRow(call.version, previous, call.force && !d.approved)];
    }
  }

  ghost predicate NoCrash(calls: seq<Call>) { forall i :: 0 <= i < |calls| ==> !calls[i].crashes }
  ghost predicate NoFailedFetch(calls: seq<Call>) { forall i :: 0 <= i < |calls| ==> calls[i].fetch.Works? }
  ghost predicate AliasAlwaysRead(calls: seq<Call>) { forall i :: 0 <= i < |calls| ==> !calls[i].fetch.AliasFails? }

  // ----- the audit chain -----

  /** Each row names its predecessor's version as the previous champion, the last row is the champion. */
  ghost predicate Chained(r: Registry) {
    && (r.audit == [] ==> r.champion == None)
    && (r.audit != [] ==> r.audit[0].previous == None && r.champion == Some(r.audit[|r.audit| - 1].version))
    && forall i :: 0 < i < |r.audit| ==> r.audit[i].previous == Some(r.audit[i - 1].version)
  }

  lemma {:induction false} AuditIsAChain(models: Models, criteria: Criteria, calls: seq<Call>)
    requires NoCrash(calls) && AliasAlwaysRead(calls)
    ensures Chained(History(models, criteria, calls))
  {
    if calls != [] {
      AuditIsAChain(models, criteria, calls[..|calls| - 1]);
    }
  }

  /** The candidate reaches both floors, and comes within the tolerance of a champion that could be read, whose
      accuracy is 0 if it was never recorded. */
  ghost predicate GoodEnough(candidate: Metrics, champion: Option<Metrics>, criteria: Criteria) {
    && candidate.testAccuracy.Some? && candidate.testRocAuc.Some?
    && candidate.testAccuracy.value >= criteria.minTestAccuracy && candidate.testRocAuc.value >= criteria.minTestRocAuc
    && match champion
       case None => true
       case Some(current) =>
         match current.testAccuracy
         case None => candidate.testAccuracy.value >= 0.0 - criteria.maxRegression
         case Some(accuracy) => candidate.testAccuracy.value >= accuracy - criteria.maxRegression
  }

  /** What one call does, in numbers: nothing if it is neither forced nor good enough; otherwise its version
      becomes champion, and unless it crashes one audit row says so, forced exactly if it was not good enough. */
  lemma PromotesExactlyWhen(models: Models, criteria: Criteria, r: Registry, call: Call)
    ensures var champion := if call.fetch == Works && r.champion != None then Some(models(r.champion.value)) else None;
            var good := GoodEnough(models(call.version), champion, criteria);
            var t := Promote(models, criteria, r, call);
            && (!good && !call.force ==> t == r)
            && (good || call.force ==>
                  && t.champion == Some(call.version)
                  && (call.crashes ==> t.audit == r.audit)
                  && (!call.crashes ==>
                        t.audit == r.audit + [AuditRow(call.version, if call.fetch == AliasFails then None else r.champion, !good)]))
  {
  }

  /** Whether a call takes effect, from what it is called with. */
  predicate Promotes(models: Models, criteria: Criteria, r: Registry, call: Call) {
    call.force || Clears(models(call.version), ChampionMetrics(models, r, call), criteria)
  }

  /** When one call breaks the chain: it promotes, and either it crashes while the champion is another version,
      or it cannot read the alias of a champion there is. */
  lemma ChainBreaksExactlyWhen(models: Models, criteria: Criteria, r: Registry, call: Call)
    requires Chained(r)
    ensures Chained(Promote(models, criteria, r, call)) <==>
      && !(Promotes(models, criteria, r, call) && call.crashes && r.champion != Some(call.version))
      && !(Promotes(models, criteria, r, call) && !call.crashes && call.fetch.AliasFails? && r.champion.Some?)
  {
    var t, n := Promote(models, criteria, r, call), |r.audit|;
    assert t.audit == r.audit || (t.audit[..n] == r.audit && t.audit[n].previous == PreviousVersion(r, call));
    assert forall i :: 0 <= i < n && t.audit != r.audit ==> t.audit[i] == t.audit[..n][i];
  }

  /** Every version sits exactly on the floors. */
  function OnTheFloors(criteria: Criteria): Models {
    _ => Metrics(Some(criteria.minTestAccuracy), Some(criteria.minTestRocAuc))
  }

  /** After one sound promotion, a second one breaks the chain both ways: if it dies between alias and audit
      row, and if it finds the alias unreadable. */
  lemma ChainBreaks(criteria: Criteria)
    requires 0.0 <= criteria.maxRegression
    ensures var r := History(OnTheFloors(criteria), criteria, [Call("1", false, Works, false)]);
            && Chained(r)
            && !Chained(Promote(OnTheFloors(criteria), criteria, r, Call("2", false, Works, true)))
            && !Chained(Promote(OnTheFloors(criteria), criteria, r, Call("2", false, AliasFails, false)))
  {
    var first := Call("1", false, Works, false);
    HistorySnoc(OnTheFloors(criteria), criteria, [], first);
    assert [] + [first] == [first];
    var r := Registry(Some("1"), [AuditRow("1", None, false)]);
    assert Promote(OnTheFloors(criteria), criteria, EMPTY, first) == r;
    ChainBreaksExactlyWhen(OnTheFloors(criteria), criteria, r, Call("2", false, Works, true));
    ChainBreaksExactlyWhen(OnTheFloors(criteria), criteria, r, Call("2", false, AliasFails, false));
  }

  lemma HistorySnoc(models: Models, criteria: Criteria, calls: seq<Call>, call: Call)
    ensures History(models, criteria, calls + [call]) == Promote(models, criteria, History(models, criteria, calls), call)
  {
    assert (calls + [call])[..|calls|] == calls;
  }

  // ----- floors and regression -----

  ghost predicate ClearsFloors(m: Metrics, criteria: Criteria) {
    && m.testAccuracy.Some? && m.testRocAuc.Some?
    && criteria.minTestAccuracy <= m.testAccuracy.value && criteria.minTestRocAuc <= m.testRocAuc.value
  }

  /** Every unforced audit row clears both floors, and stays within the tolerance of the champion it
      replaced. */
  ghost predicate RowsJustified(models: Models, criteria: Criteria, audit: seq<AuditRow>) {
    forall i :: 0 <= i < |audit| && !audit[i].forced ==>
      && ClearsFloors(models(audit[i].version), criteria)
      && (audit[i].previous.Some? ==>
            AccuracyOf(models(audit[i].previous.value)) - criteria.maxRegression <= AccuracyOf(models(audit[i].version)))
  }

  lemma {:induction false} UnforcedRowsAreJustified(models: Models, criteria: Criteria, calls: seq<Call>)
    requires NoFailedFetch(calls)
    ensures RowsJustified(models, criteria, History(models, criteria, calls).audit)
  {
    if calls != [] {
      UnforcedRowsAreJustified(models, criteria, calls[..|calls| - 1]);
    }
  }

  lemma {:induction false} ErosionAlongChain(models: Models, criteria: Criteria, audit: seq<AuditRow>, i: nat, k: nat)
    requires i + k < |audit| && RowsJustified(models, criteria, audit)
    requires forall j :: i < j <= i + k ==> !audit[j].forced && audit[j].previous == Some(audit[j - 1].version)
    ensures AccuracyOf(models(audit[i].version)) - k as real * criteria.maxRegression <= AccuracyOf(models(audit[i + k].version))
  {
    if k != 0 {
      ErosionAlongChain(models, criteria, audit, i, k - 1);
      OneMoreTolerance(k, criteria.maxRegression);
      assert audit[i + k].previous == Some(audit[i + k - 1].version);
    }
  }

  lemma OneMoreTolerance(k: nat, tolerance: real)
    requires 0 < k
    ensures k as real * tolerance == (k - 1) as real * tolerance + tolerance
  {
    assert k as real == (k - 1) as real + 1.0;
  }

  /** k consecutive unforced promotions lower the test accuracy by at most k times the tolerance. */
  lemma ErosionIsBounded(models: Models, criteria: Criteria, calls: seq<Call>, i: nat, k: nat)
    requires NoCrash(calls) && NoFailedFetch(calls)
    requires i + k < |History(models, criteria, calls).audit|
    requires forall j :: i < j <= i + k ==> !History(models, criteria, calls).audit[j].forced
    ensures var audit := History(models, criteria, calls).audit;
            AccuracyOf(models(audit[i].version)) - k as real * criteria.maxRegression <= AccuracyOf(models(audit[i + k].version))
  {
    AuditIsAChain(models, criteria, calls);
    UnforcedRowsAreJustified(models, criteria, calls);
    ErosionAlongChain(models, criteria, History(models, criteria, calls).audit, i, k);
  }

  /** The bound needs the hypothesis on the lookups: a candidate at the floor that regresses is refused
      exactly when they worked; otherwise it replaces any champion, unforced. */
  lemma FailedFetchSkipsRegressionCheck(models: Models, criteria: Criteria, r: Registry, call: Call)
    requires r.champion.Some? && !call.force && !call.crashes && ClearsFloors(models(call.version), criteria)
    requires AccuracyOf(models(call.version)) < AccuracyOf(models(r.champion.value)) - criteria.maxRegression
    ensures Promote(models, criteria, r, call) == r <==> call.fetch.Works?
    ensures !call.fetch.Works? ==>
      Promote(models, criteria, r, call).champion == Some(call.version) &&
      !Promote(models, criteria, r, call).audit[|r.audit|].forced
  {
  }
}
