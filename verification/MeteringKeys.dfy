/** Usage records of apps/workers/billing/activities_marketplace.go and the idempotency key
    that identifies the charge of one tenant for one period. */
module MeteringKeys {
  import opened Strings

  /** `periodEnd` is the Unix time of the end of the period; the period is one hour long
      and the dimension is always "active_users". */
  datatype UsageRecord = UsageRecord(
    tenantId: string, source: string, periodEnd: nat, quantity: int, idempotencyKey: string)

  function Digit(d: nat): char
    requires d < 10
  {
    '0' + d as char
  }

  /** `%d` for a non-negative number. */
  function Decimal(n: nat): (s: string)
    ensures s != ""
  {
    if n < 10 then [Digit(n)] else Decimal(n / 10) + [Digit(n % 10)]
  }

  /** `fmt.Sprintf("%s:%d", tenantId, periodEnd.Unix())`. */
  function Key(tenantId: string, periodEnd: nat): string {
    tenantId + [':'] + Decimal(periodEnd)
  }

  lemma {:induction false} DecimalHasNoColon(n: nat)
    ensures ':' !in Decimal(n)
  {
    if n >= 10 { DecimalHasNoColon(n / 10); }
  }

  lemma {:induction false} DecimalIsInjective(m: nat, n: nat)
    requires Decimal(m) == Decimal(n)
    ensures m == n
  {
    var a, b := Decimal(m), Decimal(n);
    assert a[|a| - 1] == Digit(m % 10) && b[|b| - 1] == Digit(n % 10);
    if m >= 10 && n >= 10 {
      assert Decimal(m / 10) == a[..|a| - 1] && Decimal(n / 10) == b[..|b| - 1];
      DecimalIsInjective(m / 10, n / 10);
    }
  }

  /** The number that a string of decimal digits denotes. */
  function Denoted(s: string): int {
    if s == "" then 0 else 10 * Denoted(s[..|s| - 1]) + (s[|s| - 1] as int - '0' as int)
  }

  lemma {:induction false} DecimalDenotes(n: nat)
    ensures Denoted(Decimal(n)) == n
    ensures forall i :: 0 <= i < |Decimal(n)| ==> '0' <= Decimal(n)[i] <= '9'
  {
    var s := Decimal(n);
    if n < 10 {
      assert s[..0] == "";
    } else {
      DecimalDenotes(n / 10);
      assert s[..|s| - 1] == Decimal(n / 10);
    }
  }

  /** A key is the tenant id, a colon and the period end in decimal digits, and is read back so. */
  lemma {:induction false} KeyReadsBack(tenantId: string, periodEnd: nat)
    ensures var key := Key(tenantId, periodEnd);
            var colon := LastIndex(key, ':');
            && colon == |tenantId| && key[..colon] == tenantId && Denoted(key[colon + 1..]) == periodEnd
            && forall i :: colon < i < |key| ==> '0' <= key[i] <= '9'
  {
    DecimalHasNoColon(periodEnd);
    DecimalDenotes(periodEnd);
    LastIndexAt(tenantId, ':', Decimal(periodEnd));
    Halves(tenantId, ':', Decimal(periodEnd));
  }

  /** One key, one tenant and one period. */
  lemma {:induction false} KeyIsInjective(tenant: string, period: nat, tenant': string, period': nat)
    requires Key(tenant, period) == Key(tenant', period')
    ensures tenant == tenant' && period == period'
  {
    var a, b := Decimal(period), Decimal(period');
    DecimalHasNoColon(period);
    DecimalHasNoColon(period');
    // The last colon of a key ends the tenant id, whatever characters the id contains.
    LastIndexAt(tenant, ':', a);
    LastIndexAt(tenant', ':', b);
    assert Key(tenant, period)[..|tenant|] == tenant && Key(tenant', period')[..|tenant|] == tenant';
    assert Key(tenant, period)[|tenant| + 1..] == a && Key(tenant', period')[|tenant| + 1..] == b;
    DecimalIsInjective(period, period');
  }
}
