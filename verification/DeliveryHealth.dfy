/** Delivery reports and the readiness rule of the two Kafka producers: two timestamps stand for the whole
    history of reports. */
module DeliveryHealth {
  import opened Tables

  datatype Delivery = Delivery(at: real, error: Option<string>)

  /** Reports are stamped by one poll thread with a monotone clock. */
  ghost predicate Stamped(reports: seq<Delivery>) {
    forall i, j :: 0 <= i < j < |reports| ==> reports[i].at <= reports[j].at
  }

  function LastAt(reports: seq<Delivery>, failed: bool): Option<real> {
    if reports == [] then None
    else
      var last := reports[|reports| - 1];
      if last.error.Some? == failed then Some(last.at) else LastAt(reports[..|reports| - 1], failed)
  }

  function Failures(reports: seq<Delivery>): nat {
    if reports == [] then 0 else Failures(reports[..|reports| - 1]) + if reports[|reports| - 1].error.Some? then 1 else 0
  }

  function LastError(reports: seq<Delivery>): Option<string> {
    if reports == [] then None
    else if reports[|reports| - 1].error.Some? then reports[|reports| - 1].error
    else LastError(reports[..|reports| - 1])
  }

  /** A report that still counts against readiness: a failure no older than the window, and no success
      stamped after it. */
  ghost predicate Current(reports: seq<Delivery>, i: nat, now: real, window: real) {
    && i < |reports| && reports[i].error.Some? && now - reports[i].at <= window
    && forall j :: 0 <= j < |reports| && reports[j].error.None? ==> reports[j].at <= reports[i].at
  }

  ghost predicate AnyCurrent(reports: seq<Delivery>, now: real, window: real) {
    exists i: nat :: Current(reports, i, now, window)
  }

  predicate DegradedBy(errorAt: Option<real>, okAt: Option<real>, now: real, window: real) {
    errorAt.Some? && !(okAt.Some? && errorAt.value < okAt.value) && now - errorAt.value <= window
  }

  lemma {:induction false} LastIsLatest(reports: seq<Delivery>, failed: bool)
    requires Stamped(reports)
    ensures LastAt(reports, failed).None? <==> forall i :: 0 <= i < |reports| ==> reports[i].error.Some? != failed
    ensures LastAt(reports, failed).Some? ==> HasStamp(reports, failed, LastAt(reports, failed).value)
    ensures LastAt(reports, failed).Some? ==>
      forall i :: 0 <= i < |reports| && reports[i].error.Some? == failed ==> reports[i].at <= LastAt(reports, failed).value
  {
    if reports != [] {
      var init := reports[..|reports| - 1];
      LastIsLatest(init, failed);
      if LastAt(init, failed).Some? {
        var i :| 0 <= i < |init| && init[i].error.Some? == failed && init[i].at == LastAt(init, failed).value;
        assert reports[i] == init[i];
      }
    }
  }

  ghost predicate HasStamp(reports: seq<Delivery>, failed: bool, at: real) {
    exists i :: 0 <= i < |reports| && reports[i].error.Some? == failed && reports[i].at == at
  }

  /** The two timestamps lose nothing: the rule computed from them is the rule over the whole history. */
  lemma TwoStampsSuffice(reports: seq<Delivery>, now: real, window: real)
    requires Stamped(reports)
    ensures DegradedBy(LastAt(reports, true), LastAt(reports, false), now, window) <==> AnyCurrent(reports, now, window)
  {
    LastIsLatest(reports, true);
    LastIsLatest(reports, false);
    if DegradedBy(LastAt(reports, true), LastAt(reports, false), now, window) {
      var i :| 0 <= i < |reports| && reports[i].error.Some? && reports[i].at == LastAt(reports, true).value;
      assert Current(reports, i, now, window);
    }
  }

  /** One success ends the degradation exactly if the clock has moved since the last failure. */
  lemma SuccessClearsExactlyWhen(reports: seq<Delivery>, ok: Delivery, now: real, window: real)
    requires Stamped(reports + [ok]) && ok.error.None? && AnyCurrent(reports, now, window)
    ensures AnyCurrent(reports + [ok], now, window) <==> LastAt(reports, true) == Some(ok.at)
  {
    var all := reports + [ok];
    assert all[..|reports|] == reports;
    assert forall i :: 0 <= i < |reports| ==> all[i] == reports[i];
    TwoStampsSuffice(reports, now, window);
    TwoStampsSuffice(all, now, window);
    LastIsLatest(reports, true);
    var i :| 0 <= i < |reports| && reports[i].error.Some? && reports[i].at == LastAt(reports, true).value;
    assert all[i].at <= all[|reports|].at;
  }

  /** The delivery state of the prediction publisher; the simulator keeps the same four fields. */
  class ProducerHealth {
    var failures: nat
    var lastError: Option<string>
    var lastErrorAt: Option<real>
    var lastOkAt: Option<real>
    ghost var reports: seq<Delivery>

    ghost predicate Valid()
      reads this
    {
      && Stamped(reports)
      && failures == Failures(reports)
      && lastErrorAt == LastAt(reports, true) && lastOkAt == LastAt(reports, false)
      && lastError == LastError(reports) && (lastError.Some? <==> lastErrorAt.Some?)
    }

    constructor ()
      ensures Valid() && reports == []
    {
      failures, lastError, lastErrorAt, lastOkAt, reports := 0, None, None, None, [];
    }

    method OnDelivery(error: Option<string>, now: real)
      requires Valid() && Stamped(reports + [Delivery(now, error)])
      modifies this
      ensures Valid() && reports == old(reports) + [Delivery(now, error)]
    {
      assert (reports + [Delivery(now, error)])[..|reports|] == reports;
      reports := reports + [Delivery(now, error)];
      if error.None? {
        lastOkAt := Some(now);
        return;
      }
      failures := failures + 1;
      lastError := error;
      lastErrorAt := Some(now);
    }

    /** Degraded exactly while some reported failure is current. */
    method Degraded(window: real, now: real) returns (reason: Option<string>)
      requires Valid()
      ensures reason.Some? <==> AnyCurrent(reports, now, window)
      ensures reason.Some? ==> reason == LastError(reports)
    {
      TwoStampsSuffice(reports, now, window);
      if lastErrorAt.None? {
        return None;
      }
      var recovered := lastOkAt.Some? && lastOkAt.value > lastErrorAt.value;
      if recovered || now - lastErrorAt.value > window {
        return None;
      }
      return lastError;
    }
  }
}
