/** Entity ids: zero-padded indices, their string order, and where a restarted simulator resumes. */
module EntityIds {
  const WIDTH := 9
  const PREFIX := "higgs-"
  const LIMIT := 1000000000  // ten to the WIDTH

  function Digit(d: nat): char
    requires d < 10
  {
    ('0' as int + d) as char
  }

  function Value(c: char): int { c as int - '0' as int }

  /** The low `width` decimal digits of `n`, most significant first. */
  function Digits(n: nat, width: nat): string {
    if width == 0 then "" else Digits(n / 10, width - 1) + [Digit(n % 10)]
  }

  /** Decimal digits needed for `n`. */
  function DigitCount(n: nat): nat {
    if n < 10 then 1 else 1 + DigitCount(n / 10)
  }

  /** `{n:09d}`: padded to nine digits, longer when needed. */
  function Pad(n: nat): string { Digits(n, Width(n)) }

  function Width(n: nat): nat { if DigitCount(n) < WIDTH then WIDTH else DigitCount(n) }

  function FormatId(n: nat): string { PREFIX + Pad(n) }

  /** `10#...`: decimal, leading zeros allowed. */
  function ParseDigits(s: string): int {
    if s == "" then 0 else 10 * ParseDigits(s[..|s| - 1]) + Value(s[|s| - 1])
  }

  /** `${id#higgs-}` read as a number. */
  function ParseId(s: string): int
    requires |PREFIX| <= |s|
  {
    ParseDigits(s[|PREFIX|..])
  }

  function Pow10(n: nat): nat { if n == 0 then 1 else 10 * Pow10(n - 1) }

  // ----- format and parse -----

  lemma {:induction false} ParseOfDigits(n: nat, width: nat)
    requires n < Pow10(width)
    ensures ParseDigits(Digits(n, width)) == n
    ensures |Digits(n, width)| == width
  {
    if width != 0 {
      assert n / 10 < Pow10(width - 1);
      ParseOfDigits(n / 10, width - 1);
      assert Digits(n, width)[..width - 1] == Digits(n / 10, width - 1);
    }
  }

  lemma {:induction false} DigitCountSuffices(n: nat)
    ensures n < Pow10(DigitCount(n))
  {
    if n >= 10 {
      DigitCountSuffices(n / 10);
    }
  }

  lemma {:induction false} Pow10Grows(m: nat, n: nat)
    requires m <= n
    ensures 1 <= Pow10(m) <= Pow10(n)
    decreases n
  {
    if m < n {
      Pow10Grows(m, n - 1);
    } else if 0 < m {
      Pow10Grows(m - 1, m - 1);
    }
  }

  lemma PadParses(n: nat)
    ensures ParseDigits(Pad(n)) == n
    ensures |Pad(n)| == Width(n) && n < Pow10(Width(n))
  {
    DigitCountSuffices(n);
    Pow10Grows(DigitCount(n), Width(n));
    ParseOfDigits(n, Width(n));
  }

  /** An id parses back to its index, for every index, also past nine digits; so ids never collide. */
  lemma FormatRoundTrips(n: nat)
    ensures ParseId(FormatId(n)) == n
  {
    PadParses(n);
    assert FormatId(n)[|PREFIX|..] == Pad(n);
  }

  lemma FormatIsInjective(m: nat, n: nat)
    ensures FormatId(m) == FormatId(n) <==> m == n
  {
    FormatRoundTrips(m);
    FormatRoundTrips(n);
  }

  /** The id the scripts fall back to on an empty table, and the first one after it. */
  lemma FirstIds()
    ensures FormatId(0) == "higgs-000000000" && FormatId(1) == "higgs-000000001"
  {
    OneDigitIds(0);
    OneDigitIds(1);
    assert "higgs-00000000" + ['0'] == "higgs-000000000";
    assert "higgs-00000000" + ['1'] == "higgs-000000001";
  }

  lemma OneDigitIds(d: nat)
    requires d < 10
    ensures FormatId(d) == "higgs-00000000" + [Digit(d)]
  {
    ZeroDigits(8);
    EightZeros();
    assert Pad(d) == Digits(0, 8) + [Digit(d)];
  }

  lemma EightZeros()
    ensures seq(8, _ => '0') == "00000000"
  {
  }

  lemma {:induction false} ZeroDigits(width: nat)
    ensures Digits(0, width) == seq(width, _ => '0')
  {
    if width != 0 {
      ZeroDigits(width - 1);
    }
  }

  // ----- string order -----

  /** The order of max(entity_id): code points, a proper prefix first. */
  ghost predicate LexLess(a: string, b: string) {
    exists k :: LexLessAt(a, b, k)
  }

  ghost predicate LexLessAt(a: string, b: string, k: int) {
    0 <= k <= |a| && k < |b| && a[..k] == b[..k] && (k == |a| || a[k] < b[k])
  }

  lemma AppendKeepsOrder(a: string, b: string, c: char, d: char)
    requires |a| == |b|
    ensures LexLess(a, b) ==> LexLess(a + [c], b + [d])
    ensures c < d ==> LexLess(a + [c], a + [d])
  {
    if LexLess(a, b) {
      var k :| LexLessAt(a, b, k);
      assert (a + [c])[..k] == a[..k] && (b + [d])[..k] == b[..k];
      assert LexLessAt(a + [c], b + [d], k);
    }
    if c < d {
      assert (a + [c])[..|a|] == a == (a + [d])[..|a|];
      assert LexLessAt(a + [c], a + [d], |a|);
    }
  }

  lemma TensAndOnes(m: nat, n: nat, p: nat)
    requires m < n < 10 * p
    ensures m / 10 <= n / 10 < p
    ensures m / 10 == n / 10 ==> m % 10 < n % 10
  {
  }

  /** One digit more: the order of the tens, or that of the ones, carries over. */
  lemma OneDigitMore(m: nat, n: nat, width: nat)
    requires 0 < width && |Digits(m / 10, width - 1)| == |Digits(n / 10, width - 1)|
    requires LexLess(Digits(m / 10, width - 1), Digits(n / 10, width - 1)) || (m / 10 == n / 10 && m % 10 < n % 10)
    ensures LexLess(Digits(m, width), Digits(n, width))
  {
    AppendKeepsOrder(Digits(m / 10, width - 1), Digits(n / 10, width - 1), Digit(m % 10), Digit(n % 10));
  }

  /** At equal width the strings compare as the numbers do. */
  lemma {:induction false} SameWidthOrder(m: nat, n: nat, width: nat)
    requires m < n < Pow10(width)
    ensures LexLess(Digits(m, width), Digits(n, width))
  {
    TensAndOnes(m, n, Pow10(width - 1));
    ParseOfDigits(m / 10, width - 1);
    ParseOfDigits(n / 10, width - 1);
    if m / 10 < n / 10 {
      SameWidthOrder(m / 10, n / 10, width - 1);
    }
    OneDigitMore(m, n, width);
  }

  lemma {:induction false} DigitCountBelow(n: nat, width: nat)
    requires 1 <= width
    ensures DigitCount(n) <= width <==> n < Pow10(width)
    decreases n
  {
    if n >= 10 {
      if width == 1 {
        assert Pow10(1) == 10 * Pow10(0);
      } else {
        DigitCountBelow(n / 10, width - 1);
      }
    } else {
      Pow10Grows(1, width);
      assert Pow10(1) == 10 * Pow10(0);
    }
  }

  lemma {:induction false} DigitCountGrows(m: nat, n: nat)
    requires m <= n
    ensures DigitCount(m) <= DigitCount(n)
    decreases n
  {
    if m >= 10 {
      DigitCountGrows(m / 10, n / 10);
    }
  }

  /** `n` without its last `dropped` decimal digits. */
  function Leading(n: nat, dropped: nat): nat {
    if dropped == 0 then n else Leading(n / 10, dropped - 1)
  }

  /** Cutting the text drops the digits of the number. */
  lemma {:induction false} LeadingDigits(n: nat, width: nat, lead: nat)
    requires lead <= width && n < Pow10(width)
    ensures |Digits(n, width)| == width
    ensures Leading(n, width - lead) < Pow10(lead)
    ensures Digits(n, width)[..lead] == Digits(Leading(n, width - lead), lead)
    decreases width
  {
    ParseOfDigits(n, width);
    if lead < width {
      LeadingDigits(n / 10, width - 1, lead);
      assert Digits(n, width)[..lead] == Digits(n / 10, width - 1)[..lead];
    }
  }

  lemma LimitIsPow10()
    ensures Pow10(WIDTH) == LIMIT
  {
    assert Pow10(3) == 1000;
    assert Pow10(6) == 1000 * Pow10(3);
    assert Pow10(9) == 1000 * Pow10(6);
  }

  lemma LexAsymmetric(a: string, b: string)
    requires LexLess(a, b)
    ensures !LexLess(b, a)
  {
    var k :| LexLessAt(a, b, k);
    forall j
      ensures !LexLessAt(b, a, j)
    {
      NotBothWays(a, b, k, j);
    }
  }

  lemma NotBothWays(a: string, b: string, k: int, j: int)
    requires LexLessAt(a, b, k)
    ensures !LexLessAt(b, a, j)
  {
    AgreeBefore(a, b, k);
    AgreeBefore(b, a, j);
  }

  lemma AgreeBefore(a: string, b: string, k: int)
    ensures LexLessAt(a, b, k) ==> k <= |a| && k < |b| && forall i :: 0 <= i < k ==> a[i] == b[i]
  {
    if LexLessAt(a, b, k) {
      assert forall i :: 0 <= i < k ==> a[i] == a[..k][i] && b[i] == b[..k][i];
    }
  }

  /** A shorter id sorts before a longer one exactly when it does not exceed its leading digits. */
  lemma ShorterAgainstLonger(a: string, b: string, k: nat)
    requires k == |a| < |b|
    ensures a == b[..k] ==> LexLess(a, b)
    ensures LexLess(a, b[..k]) ==> LexLess(a, b)
    ensures LexLess(b[..k], a) ==> LexLess(b, a)
  {
    if a == b[..k] {
      assert a[..k] == b[..k];
      assert LexLessAt(a, b, k);
    }
    if LexLess(a, b[..k]) {
      var j :| LexLessAt(a, b[..k], j);
      assert b[..k][..j] == b[..j];
      assert LexLessAt(a, b, j);
    }
    if LexLess(b[..k], a) {
      var j :| LexLessAt(b[..k], a, j);
      assert b[..k][..j] == b[..j];
      assert LexLessAt(b, a, j);
    }
  }

  lemma PrefixKeepsOrder(a: string, b: string)
    ensures LexLess(a, b) ==> LexLess(PREFIX + a, PREFIX + b)
  {
    if LexLess(a, b) {
      var k :| LexLessAt(a, b, k);
      assert (PREFIX + a)[..|PREFIX| + k] == PREFIX + a[..k];
      assert (PREFIX + b)[..|PREFIX| + k] == PREFIX + b[..k];
      assert LexLessAt(PREFIX + a, PREFIX + b, |PREFIX| + k);
    }
  }

  /** When ids compare as their indices do, for all indices: the smaller one must not exceed the leading digits
      of the larger one, read at the smaller one's width. */
  lemma IdsOrderExactlyWhen(m: nat, n: nat)
    requires m < n
    ensures Width(m) <= Width(n)
    ensures LexLess(FormatId(m), FormatId(n)) <==> m <= Leading(n, Width(n) - Width(m))
  {
    PadsOrder(m, n);
    PrefixKeepsOrder(Pad(m), Pad(n));
    PrefixKeepsOrder(Pad(n), Pad(m));
    if LexLess(FormatId(n), FormatId(m)) {
      LexAsymmetric(FormatId(n), FormatId(m));
    }
  }

  lemma PadsOrder(m: nat, n: nat)
    requires m < n
    ensures Width(m) <= Width(n)
    ensures m <= Leading(n, Width(n) - Width(m)) ==> LexLess(Pad(m), Pad(n))
    ensures Leading(n, Width(n) - Width(m)) < m ==> LexLess(Pad(n), Pad(m))
  {
    DigitCountGrows(m, n);
    PadParses(m);
    PadParses(n);
    LeadingDigits(n, Width(n), Width(m));
    PaddedOrder(m, Width(m), n, Width(n), Leading(n, Width(n) - Width(m)));
  }

  lemma PaddedOrder(m: nat, v: nat, n: nat, w: nat, lead: nat)
    requires m < n && v <= w && m < Pow10(v) && n < Pow10(w) && lead < Pow10(v)
    requires |Digits(n, w)| == w && Digits(n, w)[..v] == Digits(lead, v)
    requires v == w ==> lead == n
    ensures m <= lead ==> LexLess(Digits(m, v), Digits(n, w))
    ensures lead < m ==> LexLess(Digits(n, w), Digits(m, v))
  {
    ParseOfDigits(m, v);
    if v == w {
      SameWidthOrder(m, n, v);
    } else {
      ShorterAgainstLonger(Digits(m, v), Digits(n, w), v);
      if m < lead {
        SameWidthOrder(m, lead, v);
      } else if lead < m {
        SameWidthOrder(lead, m, v);
      }
    }
  }

  /** Below ten to the ninth, ids compare as their indices do. */
  lemma IdsOrderBelowLimit(m: nat, n: nat)
    requires m < n < LIMIT
    ensures LexLess(FormatId(m), FormatId(n))
  {
    LimitIsPow10();
    DigitCountBelow(m, WIDTH);
    DigitCountBelow(n, WIDTH);
    IdsOrderExactlyWhen(m, n);
  }

  // ----- the start index -----

  /** `top` is what max(entity_id) returns for the landed indices. */
  ghost predicate IsMaxId(landed: set<nat>, top: nat) {
    top in landed && forall n :: n in landed && n != top ==> LexLess(FormatId(n), FormatId(top))
  }

  ghost predicate IsGreatest(landed: set<nat>, last: nat) {
    last in landed && forall n :: n in landed ==> n <= last
  }

  /** No landed id outranks, as text, the one of the greatest landed index. */
  ghost predicate TextAgrees(landed: set<nat>, last: nat) {
    forall n :: n in landed && n < last ==>
      Width(n) <= Width(last) && n <= Leading(last, Width(last) - Width(n))
  }

  /** What the query for the greatest landed id came back with. */
  datatype Reply = Failed | Empty | MaxId(id: string)

  /** One past the parsed maximum. A failed query reads as an empty table. */
  function StartIndex(reply: Reply): int
    requires reply.MaxId? ==> |PREFIX| <= |reply.id|
  {
    ParseId(if reply.MaxId? then reply.id else FormatId(0)) + 1
  }

  /** The Compose stack gets no index at all when the query fails, and falls back to 0. */
  function ComposeStartIndex(reply: Reply): int
    requires reply.MaxId? ==> |PREFIX| <= |reply.id|
  {
    if reply.Failed? then 0 else StartIndex(reply)
  }

  /** Every id emitted from `start` on, however far the data set cycles, differs from every landed one. */
  ghost predicate Fresh(landed: set<nat>, start: int) {
    forall n, emitted: nat :: n in landed && start <= emitted ==> FormatId(emitted) != FormatId(n)
  }

  lemma FreshMeansBeyond(landed: set<nat>, start: nat)
    ensures Fresh(landed, start) <==> forall n :: n in landed ==> n < start
  {
    forall n, emitted: nat
      ensures FormatId(emitted) == FormatId(n) <==> emitted == n
    {
      FormatIsInjective(emitted, n);
    }
    if n :| n in landed && start <= n {
      assert FormatId(n) == FormatId(n);
    }
  }

  /** Restart freshness, exactly: the start index avoids every landed id if and only if text order agrees with
      number order on the landed table. */
  lemma RestartFreshExactlyWhen(landed: set<nat>, top: nat, last: nat)
    requires IsMaxId(landed, top) && IsGreatest(landed, last)
    ensures Fresh(landed, StartIndex(MaxId(FormatId(top)))) <==> TextAgrees(landed, last)
  {
    FormatRoundTrips(top);
    FreshMeansBeyond(landed, top + 1);
    forall n | n in landed && n < last
      ensures Width(n) <= Width(last)
      ensures LexLess(FormatId(n), FormatId(last)) <==> n <= Leading(last, Width(last) - Width(n))
    {
      IdsOrderExactlyWhen(n, last);
    }
    if top != last {
      LexAsymmetric(FormatId(last), FormatId(top));
    }
  }

  /** With fewer than ten to the ninth ids ever landed it always does. */
  lemma {:induction false} RestartIsFresh(landed: set<nat>, top: nat)
    requires IsMaxId(landed, top) && forall n :: n in landed ==> n < LIMIT
    ensures Fresh(landed, StartIndex(MaxId(FormatId(top))))
  {
    FormatRoundTrips(top);
    FreshMeansBeyond(landed, top + 1);
    forall n | n in landed
      ensures n <= top
    {
      if top < n {
        IdsOrderBelowLimit(top, n);
        LexAsymmetric(FormatId(top), FormatId(n));
      }
    }
  }

  /** The first table on which it fails: the start index is the index that has already landed. */
  lemma RestartCollidesPastLimit()
    ensures IsMaxId({LIMIT - 1, LIMIT}, LIMIT - 1)
    ensures StartIndex(MaxId(FormatId(LIMIT - 1))) == LIMIT
    ensures !Fresh({LIMIT - 1, LIMIT}, StartIndex(MaxId(FormatId(LIMIT - 1))))
  {
    FormatRoundTrips(LIMIT - 1);
    LimitIsPow10();
    DigitCountBelow(LIMIT - 1, WIDTH);
    DigitCountBelow(LIMIT, WIDTH);
    assert Pow10(WIDTH + 1) == 10 * LIMIT;
    DigitCountBelow(LIMIT, WIDTH + 1);
    PadParses(LIMIT - 1);
    PadParses(LIMIT);
    LeadingDigits(LIMIT, WIDTH + 1, WIDTH);
    SameWidthOrder(LIMIT / 10, LIMIT - 1, WIDTH);
    ShorterAgainstLonger(Pad(LIMIT - 1), Pad(LIMIT), WIDTH);
    PrefixKeepsOrder(Pad(LIMIT), Pad(LIMIT - 1));
    FreshMeansBeyond({LIMIT - 1, LIMIT}, LIMIT);
  }

  /** Without an answer from the database the deployment restarts the ids at 1, which is fresh only on a table
      that holds no id from 1 on. */
  lemma FailedQueryFreshExactlyWhen(landed: set<nat>)
    ensures Fresh(landed, StartIndex(Failed)) <==> forall n :: n in landed ==> n == 0
  {
    FormatRoundTrips(0);
    FreshMeansBeyond(landed, 1);
  }

  /** The Compose stack restarts them at 0, which is fresh only on an empty table. */
  lemma ComposeFailedQueryFreshExactlyWhen(landed: set<nat>)
    ensures Fresh(landed, ComposeStartIndex(Failed)) <==> landed == {}
  {
    FreshMeansBeyond(landed, 0);
  }
}
