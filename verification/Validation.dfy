/** Row-level validation of an extracted batch: quarantine, report counts, and the gate. Column-level
    failures carry no row index and are not modelled. */
module Validation {

  datatype Report = Report(totalRows: nat, validRows: nat, invalidRows: nat) {
    function InvalidFraction(): real {
      if totalRows == 0 then 0.0 else invalidRows as real / totalRows as real
    }
  }

  /** The unique-id check flags every copy of a repeated id, not only the later ones. */
  predicate Flagged<R>(rows: seq<R>, id: R -> string, ok: R -> bool, i: nat)
    requires i < |rows|
  {
    !ok(rows[i]) || exists j :: 0 <= j < |rows| && j != i && id(rows[j]) == id(rows[i])
  }

  function Survivors<R>(rows: seq<R>, id: R -> string, ok: R -> bool, n: nat): seq<R>
    requires n <= |rows|
  {
    if n == 0 then []
    else Survivors(rows, id, ok, n - 1) + if Flagged(rows, id, ok, n - 1) then [] else [rows[n - 1]]
  }

  function Validate<R>(rows: seq<R>, id: R -> string, ok: R -> bool): (seq<R>, Report) {
    var valid := Survivors(rows, id, ok, |rows|);
    (valid, Report(|rows|, |valid|, |set i: nat | i < |rows| && Flagged(rows, id, ok, i)|))
  }

  ghost predicate DistinctIds<R>(rows: seq<R>, id: R -> string) {
    forall i, j :: 0 <= i < j < |rows| ==> id(rows[i]) != id(rows[j])
  }

  ghost predicate Kept<R>(rows: seq<R>, id: R -> string, ok: R -> bool, n: nat, r: R)
    requires n <= |rows|
  {
    exists i: nat :: i < n && !Flagged(rows, id, ok, i) && rows[i] == r
  }

  lemma {:induction false} SurvivorsMeaning<R>(rows: seq<R>, id: R -> string, ok: R -> bool, n: nat)
    requires n <= |rows|
    ensures forall r :: r in Survivors(rows, id, ok, n) <==> Kept(rows, id, ok, n, r)
    ensures |Survivors(rows, id, ok, n)| + |set i: nat | i < n && Flagged(rows, id, ok, i)| == n
  {
    if n != 0 {
      SurvivorsMeaning(rows, id, ok, n - 1);
      var before := set i: nat | i < n - 1 && Flagged(rows, id, ok, i);
      var now := set i: nat | i < n && Flagged(rows, id, ok, i);
      assert now == before + if Flagged(rows, id, ok, n - 1) then {n - 1} else {};
    }
  }

  lemma {:induction false} SurvivorsDistinct<R>(rows: seq<R>, id: R -> string, ok: R -> bool, n: nat)
    requires n <= |rows|
    ensures DistinctIds(Survivors(rows, id, ok, n), id)
  {
    if n != 0 {
      SurvivorsDistinct(rows, id, ok, n - 1);
      SurvivorsMeaning(rows, id, ok, n - 1);
      var before := Survivors(rows, id, ok, n - 1);
      if !Flagged(rows, id, ok, n - 1) {
        forall k | 0 <= k < |before|
          ensures id(before[k]) != id(rows[n - 1])
        {
          assert before[k] in before;
          assert Kept(rows, id, ok, n - 1, before[k]);
          var i: nat :| i < n - 1 && !Flagged(rows, id, ok, i) && rows[i] == before[k];
        }
      }
    }
  }

  /** Rows are never silently lost: each is either kept or counted, and the kept ones have distinct ids. */
  lemma ReportAddsUp<R>(rows: seq<R>, id: R -> string, ok: R -> bool)
    ensures var (valid, report) := Validate(rows, id, ok);
            && report.totalRows == |rows| == report.validRows + report.invalidRows
            && report.validRows == |valid|
            && DistinctIds(valid, id)
  {
    SurvivorsMeaning(rows, id, ok, |rows|);
    SurvivorsDistinct(rows, id, ok, |rows|);
  }

  /** Read from a table with the id as primary key, the duplicate check is vacuous: exactly the rows that
      pass their own checks are kept. */
  lemma PrimaryKeyMakesDuplicateCheckVacuous<R>(rows: seq<R>, id: R -> string, ok: R -> bool)
    requires DistinctIds(rows, id)
    ensures forall r :: r in Validate(rows, id, ok).0 <==> r in rows && ok(r)
  {
    SurvivorsMeaning(rows, id, ok, |rows|);
    forall i: nat | i < |rows|
      ensures Flagged(rows, id, ok, i) <==> !ok(rows[i])
    {
    }
    forall r | r in rows && ok(r)
      ensures r in Validate(rows, id, ok).0
    {
      var i: nat :| i < |rows| && rows[i] == r;
      assert !Flagged(rows, id, ok, i);
    }
  }

  /** Without that, exactly the rows whose own checks pass and whose id no other row carries are kept. */
  lemma ValidExactlyWhen<R>(rows: seq<R>, id: R -> string, ok: R -> bool, r: R)
    ensures r in Validate(rows, id, ok).0 <==>
      exists i: nat :: i < |rows| && rows[i] == r && ok(r) && forall j: nat :: j < |rows| && j != i ==> id(rows[j]) != id(r)
  {
    SurvivorsMeaning(rows, id, ok, |rows|);
    if r in Validate(rows, id, ok).0 {
      var i: nat :| i < |rows| && !Flagged(rows, id, ok, i) && rows[i] == r;
      assert forall j: nat :: j < |rows| && j != i ==> id(rows[j]) != id(r);
    }
    if i: nat :| i < |rows| && rows[i] == r && ok(r) && forall j: nat :: j < |rows| && j != i ==> id(rows[j]) != id(r) {
      assert !Flagged(rows, id, ok, i);
    }
  }

  /** Rows that do not pass their own checks. */
  function Failing<R>(rows: seq<R>, ok: R -> bool): nat {
    if rows == [] then 0 else Failing(rows[..|rows| - 1], ok) + if ok(rows[|rows| - 1]) then 0 else 1
  }

  lemma {:induction false} SurvivorsCount<R>(rows: seq<R>, id: R -> string, ok: R -> bool, n: nat)
    requires n <= |rows| && DistinctIds(rows, id)
    ensures |Survivors(rows, id, ok, n)| + Failing(rows[..n], ok) == n
  {
    if n != 0 {
      SurvivorsCount(rows, id, ok, n - 1);
      assert rows[..n][..n - 1] == rows[..n - 1];
      assert Flagged(rows, id, ok, n - 1) <==> !ok(rows[n - 1]);
    }
  }

  /** At most the share `bound` of `n`; of nothing, nothing. */
  ghost predicate AtMostShare(a: nat, n: nat, bound: real) {
    if n == 0 then 0.0 <= bound else a as real <= bound * n as real
  }

  /** What the gate compares: with distinct ids the report's fraction stays within a bound if and only if the
      failing rows are at most that share of the rows. */
  lemma FractionWithinExactlyWhen<R>(rows: seq<R>, id: R -> string, ok: R -> bool, bound: real)
    requires DistinctIds(rows, id)
    ensures Validate(rows, id, ok).1.InvalidFraction() <= bound <==> AtMostShare(Failing(rows, ok), |rows|, bound)
  {
    InvalidAreFailing(rows, id, ok);
    FractionMeaning(Validate(rows, id, ok).1, Failing(rows, ok), |rows|, bound);
  }

  lemma InvalidAreFailing<R>(rows: seq<R>, id: R -> string, ok: R -> bool)
    requires DistinctIds(rows, id)
    ensures Validate(rows, id, ok).1.invalidRows == Failing(rows, ok)
    ensures Validate(rows, id, ok).1.totalRows == |rows|
  {
    SurvivorsCount(rows, id, ok, |rows|);
    assert rows[..|rows|] == rows;
    ReportAddsUp(rows, id, ok);
  }

  lemma FractionMeaning(report: Report, a: nat, n: nat, bound: real)
    requires report.invalidRows == a && report.totalRows == n
    ensures report.InvalidFraction() <= bound <==> AtMostShare(a, n, bound)
  {
    if n != 0 {
      QuotientWithin(a as real, n as real, bound);
    }
  }

  lemma QuotientWithin(a: real, n: real, bound: real)
    requires 0.0 < n
    ensures a / n <= bound <==> a <= bound * n
  {
    var q := a / n;
    assert a == q * n;
    if q <= bound {
      assert 0.0 <= (bound - q) * n;
    } else {
      assert 0.0 < (q - bound) * n;
    }
  }
}
