/** `MeteringWorkflow` of apps/workers/billing: collect usage rows, submit them to three
    clouds in parallel batches, retry the whole on failure. */
module Metering {
  import opened MeteringKeys

  datatype Cloud = Aws | Gcp | Azure

  function SourceOf(c: Cloud): string {
    match c
    case Aws => "aws_marketplace"
    case Gcp => "gcp_marketplace"
    case Azure => "azure_marketplace"
  }

  datatype Subscription = Subscription(id: string, plan: string)

  /** Azure's SaaS subscription of a tenant. */
  type Subscriptions = string -> Subscription

  // ---- what a cloud is told, and what it charges ----

  datatype Sent = Sent(cloud: Cloud, record: UsageRecord)

  /** The account that a request asks the cloud to charge. */
  function Customer(sub: Subscriptions, s: Sent): string {
    match s.cloud
    case Aws => s.record.tenantId
    case Gcp => "project:" + s.record.tenantId
    case Azure => sub(s.record.tenantId).id
  }

  /** What the cloud recognises a repeated request by. Azure is sent no idempotency key; it
      goes by resource, plan and effective time. */
  datatype DedupKey = ByKey(key: string) | ByUsage(resource: string, plan: string, effective: nat)

  function Dedup(sub: Subscriptions, s: Sent): DedupKey {
    if s.cloud.Azure? then
      ByUsage(sub(s.record.tenantId).id, sub(s.record.tenantId).plan, s.record.periodEnd)
    else ByKey(s.record.idempotencyKey)
  }

  ghost predicate Seen(sub: Subscriptions, log: seq<Sent>, s: Sent) {
    exists i :: 0 <= i < |log| && log[i].cloud == s.cloud && Dedup(sub, log[i]) == Dedup(sub, s)
  }

  predicate Bills(sub: Subscriptions, s: Sent, cloud: Cloud, customer: string, periodEnd: nat) {
    s.cloud == cloud && Customer(sub, s) == customer && s.record.periodEnd == periodEnd
  }

  /** How often a cloud charges a customer for a period: a request counts when its
      deduplication key is new to that cloud. */
  ghost function Charges(sub: Subscriptions, log: seq<Sent>, cloud: Cloud, customer: string, periodEnd: nat): nat {
    if log == [] then 0
    else
      var before, s := log[..|log| - 1], log[|log| - 1];
      Charges(sub, before, cloud, customer, periodEnd)
      + if Bills(sub, s, cloud, customer, periodEnd) && !Seen(sub, before, s) then 1 else 0
  }

  predicate Genuine(r: UsageRecord) {
    r.idempotencyKey == Key(r.tenantId, r.periodEnd)
  }

  ghost predicate GenuineLog(log: seq<Sent>) {
    forall i :: 0 <= i < |log| ==> Genuine(log[i].record)
  }

  /** Tenants that share an Azure subscription share its plan. */
  ghost predicate PlansAgree(sub: Subscriptions) {
    forall t, t' :: sub(t).id == sub(t').id ==> sub(t).plan == sub(t').plan
  }

  lemma {:induction false} SameKeySameBill(sub: Subscriptions, s: Sent, s': Sent)
    requires Genuine(s.record) && Genuine(s'.record) && s.cloud == s'.cloud && Dedup(sub, s) == Dedup(sub, s')
    ensures Customer(sub, s) == Customer(sub, s') && s.record.periodEnd == s'.record.periodEnd
  {
    if !s.cloud.Azure? {
      KeyIsInjective(s.record.tenantId, s.record.periodEnd, s'.record.tenantId, s'.record.periodEnd);
    }
  }

  lemma {:induction false} SameBillSameKey(sub: Subscriptions, s: Sent, s': Sent)
    requires Genuine(s.record) && Genuine(s'.record) && s.cloud == s'.cloud && PlansAgree(sub)
    requires Customer(sub, s) == Customer(sub, s') && s.record.periodEnd == s'.record.periodEnd
    ensures Dedup(sub, s) == Dedup(sub, s')
  {
    if s.cloud.Gcp? { SameSuffix("project:", s.record.tenantId, s'.record.tenantId); }
  }

  lemma {:induction false} SameSuffix(p: string, a: string, b: string)
    requires p + a == p + b
    ensures a == b
  {
    assert (p + a)[|p|..] == a && (p + b)[|p|..] == b;
  }

  lemma {:induction false} ChargedWasBilled(
    sub: Subscriptions, log: seq<Sent>, cloud: Cloud, customer: string, periodEnd: nat)
    returns (i: nat)
    requires Charges(sub, log, cloud, customer, periodEnd) > 0
    ensures i < |log| && Bills(sub, log[i], cloud, customer, periodEnd)
  {
    if Charges(sub, log[..|log| - 1], cloud, customer, periodEnd) > 0 {
      i := ChargedWasBilled(sub, log[..|log| - 1], cloud, customer, periodEnd);
    } else {
      i := |log| - 1;
    }
  }

  /** Whatever is sent, and however often, a customer is charged at most once a period. */
  lemma {:induction false} ChargedAtMostOnce(
    sub: Subscriptions, log: seq<Sent>, cloud: Cloud, customer: string, periodEnd: nat)
    requires GenuineLog(log) && PlansAgree(sub)
    ensures Charges(sub, log, cloud, customer, periodEnd) <= 1
  {
    if log != [] {
      var before, s := log[..|log| - 1], log[|log| - 1];
      ChargedAtMostOnce(sub, before, cloud, customer, periodEnd);
      if Charges(sub, before, cloud, customer, periodEnd) > 0 && Bills(sub, s, cloud, customer, periodEnd) {
        var i := ChargedWasBilled(sub, before, cloud, customer, periodEnd);
        SameBillSameKey(sub, before[i], s);
        assert Seen(sub, before, s);
      }
    }
  }

  /** Whatever a cloud has accepted is charged to the account that the request names. */
  lemma {:induction false} SentIsCharged(sub: Subscriptions, log: seq<Sent>, s: Sent)
    requires GenuineLog(log) && s in log
    ensures Charges(sub, log, s.cloud, Customer(sub, s), s.record.periodEnd) >= 1
  {
    var before, last := log[..|log| - 1], log[|log| - 1];
    assert log == before + [last];
    if s in before {
      SentIsCharged(sub, before, s);
    } else if Seen(sub, before, s) {
      var i :| 0 <= i < |before| && before[i].cloud == s.cloud && Dedup(sub, before[i]) == Dedup(sub, s);
      SameKeySameBill(sub, before[i], s);
      SentIsCharged(sub, before, before[i]);
    }
  }

  // ---- whose record is charged ----

  predicate Concerns(s: Sent, cloud: Cloud, tenantId: string, periodEnd: nat) {
    s.cloud == cloud && s.record.tenantId == tenantId && s.record.periodEnd == periodEnd
  }

  /** How often a cloud charges for a tenant's own records of a period. */
  ghost function TenantCharges(
    sub: Subscriptions, log: seq<Sent>, cloud: Cloud, tenantId: string, periodEnd: nat): nat
  {
    if log == [] then 0
    else
      var before, s := log[..|log| - 1], log[|log| - 1];
      TenantCharges(sub, before, cloud, tenantId, periodEnd)
      + if Concerns(s, cloud, tenantId, periodEnd) && !Seen(sub, before, s) then 1 else 0
  }

  predicate SameRequest(sub: Subscriptions, s: Sent, s': Sent) {
    s.cloud == s'.cloud && Dedup(sub, s) == Dedup(sub, s')
  }

  /** The first accepted request with the deduplication key of s is of the tenant of s. */
  ghost predicate OwnFirst(sub: Subscriptions, log: seq<Sent>, s: Sent) {
    exists i :: 0 <= i < |log| && IsFirstRequest(sub, log, s, i) && log[i].record.tenantId == s.record.tenantId
  }

  ghost predicate IsFirstRequest(sub: Subscriptions, log: seq<Sent>, s: Sent, i: nat)
    requires i < |log|
  {
    SameRequest(sub, log[i], s) && forall j :: 0 <= j < i ==> !SameRequest(sub, log[j], s)
  }

  lemma {:induction false} SameRequestOfTenant(sub: Subscriptions, s: Sent, s': Sent)
    requires Genuine(s.record) && Genuine(s'.record) && s.record.tenantId == s'.record.tenantId
    ensures SameRequest(sub, s, s') <==> Concerns(s, s'.cloud, s'.record.tenantId, s'.record.periodEnd)
  {
    if s.cloud == s'.cloud && Dedup(sub, s) == Dedup(sub, s') { SameKeySameBill(sub, s, s'); }
  }

  lemma {:induction false} OwnFirstSnoc(sub: Subscriptions, before: seq<Sent>, x: Sent, s: Sent)
    ensures OwnFirst(sub, before + [x], s)
            <==> OwnFirst(sub, before, s)
                 || (SameRequest(sub, x, s) && !Seen(sub, before, s) && x.record.tenantId == s.record.tenantId)
  {
    var log := before + [x];
    if i :| 0 <= i < |log| && IsFirstRequest(sub, log, s, i) && log[i].record.tenantId == s.record.tenantId {
      assert forall j :: 0 <= j < i ==> log[j] == before[j];
      if i < |before| { assert IsFirstRequest(sub, before, s, i); }
    }
    if i :| 0 <= i < |before| && IsFirstRequest(sub, before, s, i) && before[i].record.tenantId == s.record.tenantId {
      assert forall j :: 0 <= j < i ==> log[j] == before[j];
      assert IsFirstRequest(sub, log, s, i);
    }
    if SameRequest(sub, x, s) && !Seen(sub, before, s) {
      assert forall j :: 0 <= j < |before| ==> log[j] == before[j] && !SameRequest(sub, before[j], s);
      assert IsFirstRequest(sub, log, s, |before|);
    }
  }

  /** A tenant's records of a period are charged once if the first accepted request with their
      key is the tenant's own; otherwise another tenant's request has swallowed the charge. */
  lemma {:induction false} OwnChargeIffFirst(sub: Subscriptions, log: seq<Sent>, s: Sent)
    requires GenuineLog(log) && Genuine(s.record)
    ensures TenantCharges(sub, log, s.cloud, s.record.tenantId, s.record.periodEnd)
            == if OwnFirst(sub, log, s) then 1 else 0
  {
    if log != [] {
      var before, x := log[..|log| - 1], log[|log| - 1];
      assert log == before + [x];
      OwnChargeIffFirst(sub, before, s);
      OwnFirstSnoc(sub, before, x, s);
      if x.record.tenantId == s.record.tenantId { SameRequestOfTenant(sub, x, s); }
      assert SameRequest(sub, x, s) ==> (Seen(sub, before, x) <==> Seen(sub, before, s));
      if i :| 0 <= i < |before| && IsFirstRequest(sub, before, s, i) { assert Seen(sub, before, s); }
    }
  }

  /** No two tenants share an Azure subscription and plan. */
  ghost predicate AccountsDiffer(sub: Subscriptions) {
    forall t, t' :: sub(t) == sub(t') ==> t == t'
  }

  lemma {:induction false} FirstRequest(sub: Subscriptions, log: seq<Sent>, s: Sent) returns (i: nat)
    requires s in log
    ensures i < |log| && IsFirstRequest(sub, log, s, i)
  {
    var before, last := log[..|log| - 1], log[|log| - 1];
    assert log == before + [last];
    if j :| 0 <= j < |before| && SameRequest(sub, before[j], s) {
      i := FirstRequestUpTo(sub, log, s, j);
    } else {
      i := |log| - 1;
      assert forall j :: 0 <= j < i ==> log[j] == before[j];
    }
  }

  lemma {:induction false} FirstRequestUpTo(sub: Subscriptions, log: seq<Sent>, s: Sent, j: nat) returns (i: nat)
    requires j < |log| && SameRequest(sub, log[j], s)
    ensures i <= j && IsFirstRequest(sub, log, s, i)
    decreases j
  {
    if k :| 0 <= k < j && SameRequest(sub, log[k], s) {
      i := FirstRequestUpTo(sub, log, s, k);
    } else {
      i := j;
    }
  }

  lemma {:induction false} DifferentAccountsOwnFirst(sub: Subscriptions, log: seq<Sent>, s: Sent)
    requires AccountsDiffer(sub) && GenuineLog(log) && s in log
    ensures OwnFirst(sub, log, s)
  {
    var i := FirstRequest(sub, log, s);
    var n :| 0 <= n < |log| && log[n] == s;
    if !s.cloud.Azure? {
      KeyIsInjective(log[i].record.tenantId, log[i].record.periodEnd, s.record.tenantId, s.record.periodEnd);
    }
  }

  // ---- one key on several clouds ----

  /** How often the records of an idempotency key are charged, over all clouds. */
  ghost function KeyCharges(sub: Subscriptions, log: seq<Sent>, key: string): nat {
    if log == [] then 0
    else
      var before, s := log[..|log| - 1], log[|log| - 1];
      KeyCharges(sub, before, key) + if s.record.idempotencyKey == key && !Seen(sub, before, s) then 1 else 0
  }

  /** The clouds that have accepted a request with the key. */
  function CloudsOf(log: seq<Sent>, key: string): set<Cloud> {
    if log == [] then {}
    else
      CloudsOf(log[..|log| - 1], key)
      + if log[|log| - 1].record.idempotencyKey == key then {log[|log| - 1].cloud} else {}
  }

  lemma {:induction false} CloudIsThere(log: seq<Sent>, i: nat)
    requires i < |log|
    ensures log[i].cloud in CloudsOf(log, log[i].record.idempotencyKey)
  {
    var n := |log| - 1;
    if i < n {
      assert log[..n][i] == log[i];
      CloudIsThere(log[..n], i);
    }
  }

  lemma {:induction false} CloudHasRequest(log: seq<Sent>, key: string, c: Cloud) returns (i: nat)
    requires c in CloudsOf(log, key)
    ensures i < |log| && log[i].cloud == c && log[i].record.idempotencyKey == key
  {
    var n := |log| - 1;
    if c in CloudsOf(log[..n], key) {
      i := CloudHasRequest(log[..n], key, c);
    } else {
      i := n;
    }
  }

  lemma {:induction false} SameKeySameRequest(sub: Subscriptions, s: Sent, s': Sent)
    requires Genuine(s.record) && Genuine(s'.record) && s.cloud == s'.cloud
    ensures s.record.idempotencyKey == s'.record.idempotencyKey ==> Dedup(sub, s) == Dedup(sub, s')
    ensures AccountsDiffer(sub) && Dedup(sub, s) == Dedup(sub, s')
            ==> s.record.idempotencyKey == s'.record.idempotencyKey
  {
    if s.record.idempotencyKey == s'.record.idempotencyKey {
      KeyIsInjective(s.record.tenantId, s.record.periodEnd, s'.record.tenantId, s'.record.periodEnd);
    }
  }

  lemma {:induction false} SeenOnItsCloud(sub: Subscriptions, before: seq<Sent>, s: Sent)
    requires GenuineLog(before) && Genuine(s.record)
    ensures s.cloud in CloudsOf(before, s.record.idempotencyKey) ==> Seen(sub, before, s)
    ensures AccountsDiffer(sub) && Seen(sub, before, s) ==> s.cloud in CloudsOf(before, s.record.idempotencyKey)
  {
    if Seen(sub, before, s) {
      var i :| 0 <= i < |before| && before[i].cloud == s.cloud && Dedup(sub, before[i]) == Dedup(sub, s);
      SameKeySameRequest(sub, before[i], s);
      CloudIsThere(before, i);
    }
    if s.cloud in CloudsOf(before, s.record.idempotencyKey) {
      var i := CloudHasRequest(before, s.record.idempotencyKey, s.cloud);
      SameKeySameRequest(sub, before[i], s);
    }
  }

  /** A key is charged at most once by each cloud that has accepted a request with it, and exactly
      once if no other tenant's request can swallow the charge. */
  lemma {:induction false} ChargedOncePerCloud(sub: Subscriptions, log: seq<Sent>, key: string)
    requires GenuineLog(log)
    ensures KeyCharges(sub, log, key) <= |CloudsOf(log, key)|
    ensures AccountsDiffer(sub) ==> KeyCharges(sub, log, key) == |CloudsOf(log, key)|
  {
    if log != [] {
      var before, s := log[..|log| - 1], log[|log| - 1];
      var clouds := CloudsOf(before, key);
      ChargedOncePerCloud(sub, before, key);
      SeenOnItsCloud(sub, before, s);
      if s.record.idempotencyKey == key && s.cloud in clouds {
        assert clouds + {s.cloud} == clouds;
      }
    }
  }

  /** No two accepted requests with the key are on different clouds. */
  ghost predicate OneCloud(log: seq<Sent>, key: string) {
    forall i, j :: (0 <= i < j < |log| && log[i].record.idempotencyKey == key == log[j].record.idempotencyKey)
                   ==> log[i].cloud == log[j].cloud
  }

  lemma {:induction false} OneCloudIff(log: seq<Sent>, key: string)
    ensures |CloudsOf(log, key)| <= 1 <==> OneCloud(log, key)
  {
    var clouds := CloudsOf(log, key);
    if i, j :| 0 <= i < j < |log| && log[i].record.idempotencyKey == key == log[j].record.idempotencyKey
               && log[i].cloud != log[j].cloud
    {
      CloudIsThere(log, i);
      CloudIsThere(log, j);
      TwoMembers(clouds, log[i].cloud, log[j].cloud);
    }
    if c, d :| c in clouds && d in clouds && c != d {
      var i := CloudHasRequest(log, key, c);
      var j := CloudHasRequest(log, key, d);
      assert !OneCloud(log, key);
    } else if c :| c in clouds {
      assert clouds == {c};
    }
  }

  lemma {:induction false} TwoMembers(clouds: set<Cloud>, c: Cloud, d: Cloud)
    requires c in clouds && d in clouds && c != d
    ensures |clouds| >= 2
  {
    var rest := clouds - {c};
    assert clouds == rest + {c} && d in rest;
    assert |rest| > 0;
  }

  // ---- the activities ----

  datatype Status = Pending | Submitted

  datatype Row = Row(record: UsageRecord, status: Status)

  type Table = map<string, Row>

  /** A tenant with its source and active users, as the query of the collector finds it. */
  datatype Found = Found(tenantId: string, source: string, users: int)

  function RecordOf(f: Found, periodEnd: nat): (r: UsageRecord)
    ensures Genuine(r)
  {
    UsageRecord(f.tenantId, f.source, periodEnd, f.users, Key(f.tenantId, periodEnd))
  }

  function RecordsOf(found: seq<Found>, periodEnd: nat): (r: seq<UsageRecord>)
    ensures |r| == |found|
    ensures forall i :: 0 <= i < |r| ==> Genuine(r[i])
  {
    if found == [] then [] else RecordsOf(found[..|found| - 1], periodEnd) + [RecordOf(found[|found| - 1], periodEnd)]
  }

  /** INSERT ... ON CONFLICT (idempotency_key) DO NOTHING. */
  function Inserted(t: Table, r: UsageRecord): Table {
    if r.idempotencyKey in t then t else t[r.idempotencyKey := Row(r, Pending)]
  }

  function InsertedAll(t: Table, records: seq<UsageRecord>): Table {
    if records == [] then t else Inserted(InsertedAll(t, records[..|records| - 1]), records[|records| - 1])
  }

  lemma {:induction false} CollectSnoc(found: seq<Found>, i: nat, periodEnd: nat, t: Table)
    requires i < |found|
    ensures var r, records := RecordOf(found[i], periodEnd), RecordsOf(found[..i], periodEnd);
            && RecordsOf(found[..i + 1], periodEnd) == records + [r]
            && InsertedAll(t, records + [r]) == Inserted(InsertedAll(t, records), r)
  {
    var r, records := RecordOf(found[i], periodEnd), RecordsOf(found[..i], periodEnd);
    assert found[..i + 1][..i] == found[..i];
    assert (records + [r])[..i] == records;
  }

  lemma {:induction false} RecordsAt(found: seq<Found>, periodEnd: nat, i: nat)
    requires i < |found|
    ensures RecordsOf(found, periodEnd)[i] == RecordOf(found[i], periodEnd)
  {
    if i < |found| - 1 {
      RecordsAt(found[..|found| - 1], periodEnd, i);
    }
  }

  /** The record says of the tenant what the query has found, field by field. */
  predicate Reports(r: UsageRecord, f: Found, periodEnd: nat) {
    && r.tenantId == f.tenantId && r.source == f.source && r.periodEnd == periodEnd && r.quantity == f.users
    && r.idempotencyKey == Key(f.tenantId, periodEnd)
  }

  /** One of the first n tenants found. */
  ghost predicate ReportsOne(r: UsageRecord, found: seq<Found>, n: nat, periodEnd: nat) {
    exists i :: 0 <= i < |found| && i < n && Reports(r, found[i], periodEnd)
  }

  /** The rows of t as they were, and a pending row for each of the first n tenants without one. */
  ghost predicate Extends(rows: Table, t: Table, found: seq<Found>, n: nat, periodEnd: nat) {
    && (forall k :: k in t ==> k in rows && rows[k] == t[k])
    && (forall i :: 0 <= i < |found| && i < n ==> Key(found[i].tenantId, periodEnd) in rows)
    && (forall k :: k in rows && k !in t ==>
          rows[k].status == Pending && ReportsOne(rows[k].record, found, n, periodEnd))
  }

  lemma {:induction false} InsertedExtends(rows: Table, t: Table, found: seq<Found>, n: nat, periodEnd: nat)
    requires n < |found| && Extends(rows, t, found, n, periodEnd)
    ensures Extends(Inserted(rows, RecordOf(found[n], periodEnd)), t, found, n + 1, periodEnd)
  {
    var rows' := Inserted(rows, RecordOf(found[n], periodEnd));
    assert Reports(RecordOf(found[n], periodEnd), found[n], periodEnd);
    forall k | k in rows' && k !in t ensures ReportsOne(rows'[k].record, found, n + 1, periodEnd) {
      if k in rows {
        var i :| 0 <= i < |found| && i < n && Reports(rows[k].record, found[i], periodEnd);
      }
    }
  }

  lemma {:induction false} AllRead(rows: Table, t: Table, found: seq<Found>, n: nat, periodEnd: nat)
    requires n >= |found| && Extends(rows, t, found, |found|, periodEnd)
    ensures Extends(rows, t, found, n, periodEnd)
  {
    forall k | k in rows && k !in t ensures ReportsOne(rows[k].record, found, n, periodEnd) {
      var i :| 0 <= i < |found| && Reports(rows[k].record, found[i], periodEnd);
    }
  }

  lemma {:induction false} InsertedUpTo(t: Table, found: seq<Found>, periodEnd: nat, n: nat)
    requires n <= |found|
    ensures Extends(InsertedAll(t, RecordsOf(found[..n], periodEnd)), t, found, n, periodEnd)
  {
    if n > 0 {
      InsertedUpTo(t, found, periodEnd, n - 1);
      CollectSnoc(found, n - 1, periodEnd, t);
      InsertedExtends(InsertedAll(t, RecordsOf(found[..n - 1], periodEnd)), t, found, n - 1, periodEnd);
    }
  }

  /** UPDATE ... SET status = 'submitted' WHERE idempotency_key = key. */
  function Marked(t: Table, key: string): Table {
    if key in t then t[key := t[key].(status := Submitted)] else t
  }

  function Batch(records: seq<UsageRecord>, source: string): seq<UsageRecord> {
    if records == [] then []
    else
      var last := records[|records| - 1];
      Batch(records[..|records| - 1], source) + if last.source == source then [last] else []
  }

  lemma {:induction false} BatchHolds(records: seq<UsageRecord>, source: string)
    ensures forall r :: r in Batch(records, source) <==> r in records && r.source == source
  {
    if records != [] {
      BatchHolds(records[..|records| - 1], source);
      assert records == records[..|records| - 1] + [records[|records| - 1]];
    }
  }

  /** How many of the first n records have the source. */
  function OfSource(records: seq<UsageRecord>, source: string, n: nat): nat
    requires n <= |records|
  {
    if n == 0 then 0 else OfSource(records, source, n - 1) + if records[n - 1].source == source then 1 else 0
  }

  lemma {:induction false} BatchSize(records: seq<UsageRecord>, source: string, n: nat)
    requires n <= |records|
    ensures |Batch(records[..n], source)| == OfSource(records, source, n)
  {
    if n > 0 {
      BatchSize(records, source, n - 1);
      assert records[..n][..n - 1] == records[..n - 1];
    }
  }

  /** A batch keeps the order and the repetitions of its records: each stands behind exactly those
      of its source that come before it. */
  lemma {:induction false} BatchInOrder(records: seq<UsageRecord>, source: string, n: nat, i: nat)
    requires i < n <= |records| && records[i].source == source
    ensures |Batch(records[..n], source)| == OfSource(records, source, n)
    ensures OfSource(records, source, i) < |Batch(records[..n], source)|
    ensures Batch(records[..n], source)[OfSource(records, source, i)] == records[i]
  {
    BatchSize(records, source, n);
    BatchSize(records, source, n - 1);
    assert records[..n][..n - 1] == records[..n - 1];
    if i < n - 1 { BatchInOrder(records, source, n - 1, i); }
  }

  method SplitByCloud(records: seq<UsageRecord>)
    returns (aws: seq<UsageRecord>, gcp: seq<UsageRecord>, azure: seq<UsageRecord>)
    ensures aws == Batch(records, SourceOf(Aws))
    ensures gcp == Batch(records, SourceOf(Gcp))
    ensures azure == Batch(records, SourceOf(Azure))
    ensures forall r :: r in aws <==> r in records && r.source == "aws_marketplace"
    ensures forall r :: r in gcp <==> r in records && r.source == "gcp_marketplace"
    ensures forall r :: r in azure <==> r in records && r.source == "azure_marketplace"
  {
    aws, gcp, azure := [], [], [];
    SourcesDiffer();
    for i := 0 to |records|
      invariant aws == Batch(records[..i], SourceOf(Aws))
      invariant gcp == Batch(records[..i], SourceOf(Gcp))
      invariant azure == Batch(records[..i], SourceOf(Azure))
    {
      var r := records[i];
      assert records[..i + 1][..i] == records[..i];
      if r.source == "aws_marketplace" {
        aws := aws + [r];
      } else if r.source == "gcp_marketplace" {
        gcp := gcp + [r];
      } else if r.source == "azure_marketplace" {
        azure := azure + [r];
      }
    }
    assert records[..|records|] == records;
    BatchHolds(records, SourceOf(Aws));
    BatchHolds(records, SourceOf(Gcp));
    BatchHolds(records, SourceOf(Azure));
  }

  lemma {:induction false} SourcesDiffer()
    ensures forall c, d :: SourceOf(c) == SourceOf(d) ==> c == d
  {
    assert SourceOf(Aws)[1] == 'w' && SourceOf(Gcp)[1] == 'c' && SourceOf(Azure)[1] == 'z';
  }

  /** The rows that are read before a failure, and whether the collection succeeds. */
  function ReadRows(found: seq<Found>, broken: nat): seq<Found> {
    if broken < |found| then found[..broken] else found
  }

  predicate Collected(found: seq<Found>, broken: nat, rowsErr: bool) {
    broken >= |found| && !rowsErr
  }

  /** How one try of a submission can end: refused without a charge; accepted although the
      activity fails, before or after the row update; accepted with the row update failing,
      which is ignored; all well. */
  datatype Try = Refused | LostBeforeUpdate | LostAfterUpdate | UpdateFailed | AllWell

  predicate Accepted(t: Try) { !t.Refused? }
  predicate Updated(t: Try) { t.LostAfterUpdate? || t.AllWell? }
  predicate Succeeds(t: Try) { t.UpdateFailed? || t.AllWell? }

  class Store {
    var rows: Table
    var log: seq<Sent>

    constructor ()
      ensures rows == map[] && log == []
    {
      rows, log := map[], [];
    }

    /** `broken` is the row whose scan or insert fails, if any; the earlier inserts stay, and all
        of them do when `rowsErr` says that the query fails after its last row. */
    method CollectMeteringData(found: seq<Found>, periodEnd: nat, broken: nat, rowsErr: bool)
      returns (ok: bool, records: seq<UsageRecord>)
      modifies this`rows
      ensures ok <==> broken >= |found| && !rowsErr
      ensures ok ==> records == RecordsOf(found, periodEnd)
      ensures ok ==> |records| == |found| && forall i :: 0 <= i < |found| ==> Reports(records[i], found[i], periodEnd)
      ensures rows == InsertedAll(old(rows), RecordsOf(ReadRows(found, broken), periodEnd))
      ensures Extends(rows, old(rows), found, broken, periodEnd)
    {
      records := [];
      for i := 0 to |found|
        invariant i <= broken
        invariant records == RecordsOf(found[..i], periodEnd)
        invariant rows == InsertedAll(old(rows), records)
      {
        if i == broken {
          InsertedUpTo(old(rows), found, periodEnd, i);
          return false, [];
        }
        var r := RecordOf(found[i], periodEnd);
        CollectSnoc(found, i, periodEnd, old(rows));
        if r.idempotencyKey !in rows {
          rows := rows[r.idempotencyKey := Row(r, Pending)];
        }
        records := records + [r];
      }
      assert found[..|found|] == found;
      InsertedUpTo(old(rows), found, periodEnd, |found|);
      AllRead(rows, old(rows), found, broken, periodEnd);
      ok := !rowsErr;
      forall i | 0 <= i < |found| ensures Reports(records[i], found[i], periodEnd) { RecordsAt(found, periodEnd, i); }
    }

    /** One try of the submit activity of a cloud. */
    method Submit(cloud: Cloud, record: UsageRecord, t: Try) returns (ok: bool)
      modifies this
      ensures ok <==> t == UpdateFailed || t == AllWell
      ensures log == if t == Refused then old(log) else old(log) + [Sent(cloud, record)]
      ensures var k := record.idempotencyKey;
              rows == if (t == LostAfterUpdate || t == AllWell) && k in old(rows)
                      then old(rows)[k := Row(old(rows)[k].record, Submitted)] else old(rows)
    {
      if t.Refused? { return false; }
      log := log + [Sent(cloud, record)];
      if Updated(t) && record.idempotencyKey in rows {
        rows := rows[record.idempotencyKey := rows[record.idempotencyKey].(status := Submitted)];
      }
      ok := Succeeds(t);
    }
  }

  // ---- the workflow as a step system ----

  /** The activity retry policy. */
  const MAX_ATTEMPTS := 5

  /** A batch is worked off in order; it fails when one record has used up its tries. */
  datatype Progress = Progress(records: seq<UsageRecord>, next: nat, tries: nat)

  predicate BatchDone(p: Progress) { p.next >= |p.records| }
  predicate BatchFailed(p: Progress) { p.tries >= MAX_ATTEMPTS }

  datatype Attempt =
    | Idle
    | Running(records: seq<UsageRecord>, aws: Progress, gcp: Progress, azure: Progress)

  function ProgressOf(a: Attempt, c: Cloud): Progress
    requires a.Running?
  {
    match c case Aws => a.aws case Gcp => a.gcp case Azure => a.azure
  }

  function WithProgress(a: Attempt, c: Cloud, p: Progress): Attempt
    requires a.Running?
  {
    match c
    case Aws => a.(aws := p)
    case Gcp => a.(gcp := p)
    case Azure => a.(azure := p)
  }

  /** `issued` are all records ever handed to an activity, `paid` the records of the
      attempts that returned nil. */
  datatype State = State(rows: Table, log: seq<Sent>, attempt: Attempt, issued: set<Sent>, paid: set<UsageRecord>)

  datatype Event =
    // A new attempt begins.
    | Collect(found: seq<Found>, periodEnd: nat, broken: nat, rowsErr: bool)
    // A batch tries its next record.
    | Submission(cloud: Cloud, outcome: Try)
    // A try thought lost arrives late.
    | Straggler(sent: Sent, outcome: Try)
    // All three futures are ready.
    | Finish
    // The attempt dies.
    | Abandon

  function Init(): State {
    State(map[], [], Idle, {}, {})
  }

  function Start(records: seq<UsageRecord>): Attempt {
    if records == [] then Idle
    else Running(records,
                 Progress(Batch(records, SourceOf(Aws)), 0, 0),
                 Progress(Batch(records, SourceOf(Gcp)), 0, 0),
                 Progress(Batch(records, SourceOf(Azure)), 0, 0))
  }

  function Deliver(s: State, sent: Sent, t: Try): State {
    s.(log := if Accepted(t) then s.log + [sent] else s.log,
       rows := if Updated(t) then Marked(s.rows, sent.record.idempotencyKey) else s.rows)
  }

  predicate Active(p: Progress) { !BatchDone(p) && !BatchFailed(p) }

  function Advance(p: Progress, ok: bool): Progress {
    if ok then Progress(p.records, p.next + 1, 0) else Progress(p.records, p.next, p.tries + 1)
  }

  function Next(s: State, e: Event): State {
    match e
    case Collect(found, periodEnd, broken, rowsErr) =>
      if s.attempt.Running? then s
      else
        var s' := s.(rows := InsertedAll(s.rows, RecordsOf(ReadRows(found, broken), periodEnd)));
        if Collected(found, broken, rowsErr) then s'.(attempt := Start(RecordsOf(found, periodEnd))) else s'
    case Submission(c, t) =>
      if !s.attempt.Running? || !Active(ProgressOf(s.attempt, c)) then s
      else
        var p := ProgressOf(s.attempt, c);
        var sent := Sent(c, p.records[p.next]);
        Deliver(s, sent, t).(attempt := WithProgress(s.attempt, c, Advance(p, Succeeds(t))),
                             issued := s.issued + {sent})
    case Straggler(sent, t) => if sent in s.issued then Deliver(s, sent, t) else s
    case Finish =>
      if !s.attempt.Running? || exists c :: Active(ProgressOf(s.attempt, c)) then s
      else if exists c :: BatchFailed(ProgressOf(s.attempt, c)) then s.(attempt := Idle)
      else s.(attempt := Idle, paid := s.paid + set r | r in s.attempt.records)
    case Abandon => s.(attempt := Idle)
  }

  function Exec(events: seq<Event>): State {
    if events == [] then Init() else Next(Exec(events[..|events| - 1]), events[|events| - 1])
  }

  predicate KnownSource(r: UsageRecord) {
    r.source == SourceOf(Aws) || r.source == SourceOf(Gcp) || r.source == SourceOf(Azure)
  }

  function CloudOf(r: UsageRecord): Cloud
    requires KnownSource(r)
  {
    if r.source == SourceOf(Aws) then Aws else if r.source == SourceOf(Gcp) then Gcp else Azure
  }

  // ---- the invariant ----

  ghost predicate SubmittedWasSent(row: Row, log: seq<Sent>) {
    exists i :: 0 <= i < |log| && log[i].record.tenantId == row.record.tenantId
                && log[i].record.periodEnd == row.record.periodEnd
  }

  ghost predicate TableSound(t: Table, log: seq<Sent>) {
    forall k :: k in t ==>
      && Genuine(t[k].record) && t[k].record.idempotencyKey == k
      && (t[k].status.Submitted? ==> SubmittedWasSent(t[k], log))
  }

  ghost predicate BatchSound(p: Progress, c: Cloud, log: seq<Sent>) {
    && (forall i :: 0 <= i < |p.records| ==> Genuine(p.records[i]))
    && p.next <= |p.records|
    && (forall i :: 0 <= i < p.next ==> Sent(c, p.records[i]) in log)
  }

  ghost predicate AttemptSound(a: Attempt, log: seq<Sent>) {
    a.Running? ==>
      && (forall c :: BatchSound(ProgressOf(a, c), c, log))
      && (forall c :: ProgressOf(a, c).records == Batch(a.records, SourceOf(c)))
  }

  ghost predicate PaidSound(paid: set<UsageRecord>, log: seq<Sent>) {
    forall r :: r in paid && KnownSource(r) ==> Sent(CloudOf(r), r) in log
  }

  ghost predicate Inv(s: State) {
    && GenuineLog(s.log) && TableSound(s.rows, s.log) && AttemptSound(s.attempt, s.log) && PaidSound(s.paid, s.log)
    && forall x :: x in s.issued ==> Genuine(x.record)
  }

  lemma {:induction false} InsertKeepsTable(t: Table, records: seq<UsageRecord>, log: seq<Sent>)
    requires TableSound(t, log) && forall i :: 0 <= i < |records| ==> Genuine(records[i])
    ensures TableSound(InsertedAll(t, records), log)
  {
    if records != [] { InsertKeepsTable(t, records[..|records| - 1], log); }
  }

  lemma {:induction false} LogGrows(s: State, sent: Sent)
    requires Inv(s) && Genuine(sent.record)
    ensures Inv(s.(log := s.log + [sent]))
    ensures sent in s.log + [sent]
  {
    var log' := s.log + [sent];
    assert log'[|s.log|] == sent;
    forall k | k in s.rows && s.rows[k].status.Submitted? ensures SubmittedWasSent(s.rows[k], log') {
      var i :| 0 <= i < |s.log| && s.log[i].record.tenantId == s.rows[k].record.tenantId
               && s.log[i].record.periodEnd == s.rows[k].record.periodEnd;
      assert log'[i] == s.log[i];
    }
  }

  lemma {:induction false} MarkKeepsTable(t: Table, log: seq<Sent>, sent: Sent)
    requires TableSound(t, log) && Genuine(sent.record) && sent in log
    ensures TableSound(Marked(t, sent.record.idempotencyKey), log)
  {
    var key := sent.record.idempotencyKey;
    if key in t {
      var r := t[key].record;
      KeyIsInjective(r.tenantId, r.periodEnd, sent.record.tenantId, sent.record.periodEnd);
      var i :| 0 <= i < |log| && log[i] == sent;
      assert SubmittedWasSent(t[key].(status := Submitted), log);
    }
  }

  lemma {:induction false} DeliverKeepsInv(s: State, sent: Sent, t: Try)
    requires Inv(s) && Genuine(sent.record)
    ensures Inv(Deliver(s, sent, t)) && (Accepted(t) ==> sent in Deliver(s, sent, t).log)
  {
    if Accepted(t) {
      LogGrows(s, sent);
      MarkKeepsTable(s.rows, s.log + [sent], sent);
    }
  }

  lemma {:induction false} CollectKeepsInv(s: State, found: seq<Found>, periodEnd: nat, broken: nat, rowsErr: bool)
    requires Inv(s)
    ensures Inv(Next(s, Collect(found, periodEnd, broken, rowsErr)))
  {
    if !s.attempt.Running? {
      InsertKeepsTable(s.rows, RecordsOf(ReadRows(found, broken), periodEnd), s.log);
      StartSound(RecordsOf(found, periodEnd), s.log);
    }
  }

  lemma {:induction false} StartSound(records: seq<UsageRecord>, log: seq<Sent>)
    requires forall i :: 0 <= i < |records| ==> Genuine(records[i])
    ensures AttemptSound(Start(records), log)
  {
    forall c, i | 0 <= i < |Batch(records, SourceOf(c))| ensures Genuine(Batch(records, SourceOf(c))[i]) {
      BatchHolds(records, SourceOf(c));
      assert Batch(records, SourceOf(c))[i] in records;
    }
  }

  lemma {:induction false} SubmissionKeepsInv(s: State, c: Cloud, t: Try)
    requires Inv(s)
    ensures Inv(Next(s, Submission(c, t)))
  {
    if s.attempt.Running? && Active(ProgressOf(s.attempt, c)) {
      var p := ProgressOf(s.attempt, c);
      var sent := Sent(c, p.records[p.next]);
      DeliverKeepsInv(s, sent, t);
      var s1 := Deliver(s, sent, t);
      var a := WithProgress(s.attempt, c, Advance(p, Succeeds(t)));
      forall d ensures ProgressOf(a, d) == if d == c then Advance(p, Succeeds(t)) else ProgressOf(s.attempt, d) {}
      assert BatchSound(ProgressOf(s1.attempt, c), c, s1.log);
      assert BatchSound(Advance(p, Succeeds(t)), c, s1.log);
      assert AttemptSound(a, s1.log);
    }
  }

  lemma {:induction false} FinishKeepsInv(s: State)
    requires Inv(s)
    ensures Inv(Next(s, Finish))
  {
    var s' := Next(s, Finish);
    if s'.paid != s.paid {
      forall r | r in s.attempt.records && KnownSource(r) ensures Sent(CloudOf(r), r) in s.log {
        var c := CloudOf(r);
        var p := ProgressOf(s.attempt, c);
        assert !Active(p) && !BatchFailed(p) && BatchSound(p, c, s.log);
        BatchHolds(s.attempt.records, SourceOf(c));
        var i :| 0 <= i < |p.records| && p.records[i] == r;
      }
    }
  }

  lemma {:induction false} StepKeepsInv(s: State, e: Event)
    requires Inv(s)
    ensures Inv(Next(s, e))
  {
    match e
    case Collect(found, periodEnd, broken, rowsErr) => CollectKeepsInv(s, found, periodEnd, broken, rowsErr);
    case Submission(c, t) => SubmissionKeepsInv(s, c, t);
    case Straggler(sent, t) => if sent in s.issued { DeliverKeepsInv(s, sent, t); }
    case Finish => FinishKeepsInv(s);
    case Abandon =>
  }

  lemma {:induction false} RunKeepsInv(events: seq<Event>)
    ensures Inv(Exec(events))
  {
    if events != [] {
      RunKeepsInv(events[..|events| - 1]);
      StepKeepsInv(Exec(events[..|events| - 1]), events[|events| - 1]);
    }
  }

  // ---- the promises ----

  /** On every run, a row marked submitted stands for a request that a cloud accepted for
      the row's tenant and period. */
  lemma {:induction false} SubmittedRowsAreInALedger(events: seq<Event>, key: string)
    requires key in Exec(events).rows && Exec(events).rows[key].status.Submitted?
    ensures var s := Exec(events);
            exists i :: 0 <= i < |s.log| && s.log[i].record.tenantId == s.rows[key].record.tenantId
                        && s.log[i].record.periodEnd == s.rows[key].record.periodEnd
                        && key == Key(s.log[i].record.tenantId, s.log[i].record.periodEnd)
  {
    RunKeepsInv(events);
    var s := Exec(events);
    assert SubmittedWasSent(s.rows[key], s.log);
  }

  /** On every run, however often metering is retried and wherever it fails, no cloud
      charges a customer twice for a period. */
  lemma {:induction false} NeverChargedTwice(
    sub: Subscriptions, events: seq<Event>, cloud: Cloud, customer: string, periodEnd: nat)
    requires PlansAgree(sub)
    ensures Charges(sub, Exec(events).log, cloud, customer, periodEnd) <= 1
  {
    RunKeepsInv(events);
    ChargedAtMostOnce(sub, Exec(events).log, cloud, customer, periodEnd);
  }

  /** Once an attempt has returned nil, the account that each of its records with a known source
      names has been charged for the period exactly once, and this stays so. */
  lemma {:induction false} NilMeansChargedOnce(sub: Subscriptions, events: seq<Event>, r: UsageRecord)
    requires PlansAgree(sub) && r in Exec(events).paid && KnownSource(r)
    ensures Charges(sub, Exec(events).log, CloudOf(r), Customer(sub, Sent(CloudOf(r), r)), r.periodEnd) == 1
  {
    RunKeepsInv(events);
    SentIsCharged(sub, Exec(events).log, Sent(CloudOf(r), r));
    ChargedAtMostOnce(sub, Exec(events).log, CloudOf(r), Customer(sub, Sent(CloudOf(r), r)), r.periodEnd);
  }

  /** The tenant of the record has been charged for it, exactly once. */
  ghost predicate ChargedAsOwn(sub: Subscriptions, s: State, r: UsageRecord) {
    KnownSource(r) && TenantCharges(sub, s.log, CloudOf(r), r.tenantId, r.periodEnd) == 1
  }

  /** Every record of every attempt that returned nil is charged as its own tenant's, exactly
      once. */
  ghost predicate PaidAreOwn(sub: Subscriptions) {
    forall events, r :: r in Exec(events).paid && KnownSource(r) ==> ChargedAsOwn(sub, Exec(events), r)
  }

  /** This holds on all runs if and only if no two tenants share an Azure subscription and plan;
      OwnChargeIffFirst says which records of a single run are affected. */
  lemma {:induction false} PaidAreOwnIffAccountsDiffer(sub: Subscriptions)
    ensures PaidAreOwn(sub) <==> AccountsDiffer(sub)
  {
    if AccountsDiffer(sub) {
      forall events, r | r in Exec(events).paid && KnownSource(r) ensures ChargedAsOwn(sub, Exec(events), r) {
        RunKeepsInv(events);
        DifferentAccountsOwnFirst(sub, Exec(events).log, Sent(CloudOf(r), r));
        OwnChargeIffFirst(sub, Exec(events).log, Sent(CloudOf(r), r));
      }
    }
    if t, t' :| sub(t) == sub(t') && t != t' {
      var events, r := SharedAccount(sub, t, t');
    }
  }

  /** Two tenants of one subscription in one period: both are paid, one is charged. */
  lemma {:induction false} SharedAccount(sub: Subscriptions, t: string, t': string)
    returns (events: seq<Event>, r: UsageRecord)
    requires sub(t) == sub(t') && t != t'
    ensures r in Exec(events).paid && KnownSource(r) && !ChargedAsOwn(sub, Exec(events), r)
  {
    var found := [Found(t, SourceOf(Azure), 1), Found(t', SourceOf(Azure), 1)];
    var other := RecordOf(found[0], 0);
    r := RecordOf(found[1], 0);
    TwoRecords(found, other, r);
    events := BothPaid(found, other, r);
    RunKeepsInv(events);
    var log := Exec(events).log;
    OwnChargeIffFirst(sub, log, Sent(Azure, r));
    assert SameRequest(sub, log[0], Sent(Azure, r));
    SourcesDiffer();
  }

  predicate OnlyAzure(s: State, records: seq<UsageRecord>, next: nat) {
    s.attempt == Running(records, Progress([], 0, 0), Progress([], 0, 0), Progress(records, next, 0))
  }

  lemma {:induction false} AzureStep(s: State, records: seq<UsageRecord>, next: nat)
    requires OnlyAzure(s, records, next) && next < |records|
    ensures var s' := Next(s, Submission(Azure, AllWell));
            OnlyAzure(s', records, next + 1) && s'.log == s.log + [Sent(Azure, records[next])]
  {
  }

  lemma {:induction false} AzureFinish(s: State, records: seq<UsageRecord>)
    requires OnlyAzure(s, records, |records|)
    ensures forall r :: r in records ==> r in Next(s, Finish).paid
    ensures Next(s, Finish).log == s.log
  {
    forall c ensures !Active(ProgressOf(s.attempt, c)) && !BatchFailed(ProgressOf(s.attempt, c)) {}
  }

  lemma {:induction false} BothPaid(found: seq<Found>, a: UsageRecord, b: UsageRecord) returns (events: seq<Event>)
    requires |found| == 2 && RecordsOf(found, 0) == [a, b]
    requires Batch([a, b], SourceOf(Azure)) == [a, b]
    requires Batch([a, b], SourceOf(Aws)) == [] && Batch([a, b], SourceOf(Gcp)) == []
    ensures Exec(events).log == [Sent(Azure, a), Sent(Azure, b)] && b in Exec(events).paid
  {
    var collect := [Collect(found, 0, 2, false)];
    var first := collect + [Submission(Azure, AllWell)];
    var second := first + [Submission(Azure, AllWell)];
    events := second + [Finish];
    ExecSnoc([], collect[0]);
    assert [] + [collect[0]] == collect;
    assert OnlyAzure(Exec(collect), [a, b], 0) && Exec(collect).log == [];
    ExecSnoc(collect, Submission(Azure, AllWell));
    AzureStep(Exec(collect), [a, b], 0);
    ExecSnoc(first, Submission(Azure, AllWell));
    AzureStep(Exec(first), [a, b], 1);
    ExecSnoc(second, Finish);
    AzureFinish(Exec(second), [a, b]);
  }

  lemma {:induction false} ExecSnoc(events: seq<Event>, e: Event)
    ensures Exec(events + [e]) == Next(Exec(events), e)
  {
    assert (events + [e])[..|events|] == events;
  }

  lemma {:induction false} TwoRecords(found: seq<Found>, a: UsageRecord, b: UsageRecord)
    requires |found| == 2 && a == RecordOf(found[0], 0) && b == RecordOf(found[1], 0)
    requires a.source == b.source == SourceOf(Azure)
    ensures RecordsOf(found, 0) == [a, b]
    ensures Batch([a, b], SourceOf(Azure)) == [a, b]
    ensures Batch([a, b], SourceOf(Aws)) == [] && Batch([a, b], SourceOf(Gcp)) == []
  {
    SourcesDiffer();
    assert found[..1] == [found[0]] && [found[0]][..0] == [];
    assert RecordsOf(found[..1], 0) == [a];
    assert [a, b][..1] == [a] && [a][..0] == [];
    forall source ensures Batch([a], source) == if a.source == source then [a] else [] {}
  }

  // ---- each key at most once, over all clouds ----

  /** On every run a key whose accepted requests are all on one cloud is charged at most once, over
      all clouds; with different accounts this is the only way for it to be charged at most once. */
  lemma {:induction false} KeyChargedOnceIff(sub: Subscriptions, events: seq<Event>, key: string)
    ensures OneCloud(Exec(events).log, key) ==> KeyCharges(sub, Exec(events).log, key) <= 1
    ensures AccountsDiffer(sub) && KeyCharges(sub, Exec(events).log, key) <= 1 ==> OneCloud(Exec(events).log, key)
  {
    RunKeepsInv(events);
    ChargedOncePerCloud(sub, Exec(events).log, key);
    OneCloudIff(Exec(events).log, key);
  }

  /** After an attempt that returned nil, the key of each of its known-source records is charged
      exactly once over all clouds if and only if the requests accepted with it are on one cloud. */
  lemma {:induction false} PaidKeyChargedOnceIff(sub: Subscriptions, events: seq<Event>, r: UsageRecord)
    requires AccountsDiffer(sub) && r in Exec(events).paid && KnownSource(r)
    ensures KeyCharges(sub, Exec(events).log, r.idempotencyKey) == 1 <==> OneCloud(Exec(events).log, r.idempotencyKey)
  {
    var log := Exec(events).log;
    RunKeepsInv(events);
    KeyChargedOnceIff(sub, events, r.idempotencyKey);
    ChargedOncePerCloud(sub, log, r.idempotencyKey);
    var i :| 0 <= i < |log| && log[i] == Sent(CloudOf(r), r);
    CloudIsThere(log, i);
  }

  /** Some collection has made the record. */
  ghost predicate Collects(events: seq<Event>, r: UsageRecord) {
    exists n :: 0 <= n < |events| && CollectsAt(events[n], r)
  }

  predicate CollectsAt(e: Event, r: UsageRecord) {
    e.Collect? && r in RecordsOf(e.found, e.periodEnd)
  }

  /** A request goes to the cloud that its record names. */
  ghost predicate Proper(events: seq<Event>, x: Sent) {
    Collects(events, x.record) && x.record.source == SourceOf(x.cloud)
  }

  ghost predicate Origins(events: seq<Event>, s: State) {
    && (forall i :: 0 <= i < |s.log| ==> Proper(events, s.log[i]))
    && (forall x :: x in s.issued ==> Proper(events, x))
    && (s.attempt.Running? ==> forall i :: 0 <= i < |s.attempt.records| ==> Collects(events, s.attempt.records[i]))
  }

  lemma {:induction false} OriginsStay(events: seq<Event>, e: Event, s: State)
    requires Origins(events, s)
    ensures Origins(events + [e], s)
  {
    var more := events + [e];
    forall r | Collects(events, r) ensures Collects(more, r) {
      var n :| 0 <= n < |events| && CollectsAt(events[n], r);
      assert more[n] == events[n];
    }
  }

  lemma {:induction false} DeliverKeepsOrigins(events: seq<Event>, s: State, x: Sent, t: Try)
    requires Origins(events, s) && Proper(events, x)
    ensures Origins(events, Deliver(s, x, t))
  {
  }

  lemma {:induction false} SubmissionKeepsOrigins(events: seq<Event>, s: State, c: Cloud, t: Try)
    requires Inv(s) && Origins(events, s)
    ensures Origins(events, Next(s, Submission(c, t)))
  {
    if s.attempt.Running? && Active(ProgressOf(s.attempt, c)) {
      var p := ProgressOf(s.attempt, c);
      var r := p.records[p.next];
      BatchHolds(s.attempt.records, SourceOf(c));
      assert p.records == Batch(s.attempt.records, SourceOf(c)) && r in p.records;
      var i :| 0 <= i < |s.attempt.records| && s.attempt.records[i] == r;
      DeliverKeepsOrigins(events, s, Sent(c, r), t);
    }
  }

  lemma {:induction false} CollectKeepsOrigins(events: seq<Event>, s: State, e: Event)
    requires Origins(events + [e], s) && e.Collect?
    ensures Origins(events + [e], Next(s, e))
  {
    var more := events + [e];
    assert more[|events|] == e;
    forall r | r in RecordsOf(e.found, e.periodEnd) ensures Collects(more, r) { assert CollectsAt(more[|events|], r); }
  }

  lemma {:induction false} StepKeepsOrigins(before: seq<Event>, s: State, e: Event)
    requires Inv(s) && Origins(before + [e], s)
    ensures Origins(before + [e], Next(s, e))
  {
    match e
    case Collect(_, _, _, _) => CollectKeepsOrigins(before, s, e);
    case Submission(c, t) => SubmissionKeepsOrigins(before + [e], s, c, t);
    case Straggler(x, t) =>
      if x in s.issued { DeliverKeepsOrigins(before + [e], s, x, t); }
    case _ =>
  }

  lemma {:induction false} RunKeepsOrigins(events: seq<Event>)
    ensures Origins(events, Exec(events))
  {
    if events != [] {
      var before, e := events[..|events| - 1], events[|events| - 1];
      assert events == before + [e];
      RunKeepsInv(before);
      RunKeepsOrigins(before);
      OriginsStay(before, e, Exec(before));
      StepKeepsOrigins(before, Exec(before), e);
    }
  }

  predicate SameTenantPeriod(r: UsageRecord, r': UsageRecord) {
    r.tenantId == r'.tenantId && r.periodEnd == r'.periodEnd
  }

  /** Every collection of a period finds a tenant with the same source. */
  ghost predicate SourcesFixed(events: seq<Event>) {
    forall r, r' :: (Collects(events, r) && Collects(events, r') && SameTenantPeriod(r, r')) ==> r.source == r'.source
  }

  lemma {:induction false} SameKeySameCloud(events: seq<Event>, x: Sent, y: Sent)
    requires SourcesFixed(events) && Proper(events, x) && Proper(events, y)
    requires Genuine(x.record) && Genuine(y.record) && x.record.idempotencyKey == y.record.idempotencyKey
    ensures x.cloud == y.cloud
  {
    KeyIsInjective(x.record.tenantId, x.record.periodEnd, y.record.tenantId, y.record.periodEnd);
    assert SameTenantPeriod(x.record, y.record);
    SourcesDiffer();
  }

  /** While a tenant's source does not change within a period, each key is charged at most once,
      however often metering is retried and wherever its batches fail. */
  lemma {:induction false} FixedSourcesChargeOnce(sub: Subscriptions, events: seq<Event>, key: string)
    requires SourcesFixed(events)
    ensures KeyCharges(sub, Exec(events).log, key) <= 1
  {
    var log := Exec(events).log;
    RunKeepsInv(events);
    RunKeepsOrigins(events);
    forall i, j | 0 <= i < j < |log| && log[i].record.idempotencyKey == key == log[j].record.idempotencyKey
      ensures log[i].cloud == log[j].cloud
    {
      SameKeySameCloud(events, log[i], log[j]);
    }
    KeyChargedOnceIff(sub, events, key);
  }

  ghost predicate RowsCollected(events: seq<Event>, t: Table) {
    forall k :: k in t ==> Collects(events, t[k].record)
  }

  lemma {:induction false} InsertKeepsCollected(events: seq<Event>, t: Table, records: seq<UsageRecord>)
    requires RowsCollected(events, t) && forall i :: 0 <= i < |records| ==> Collects(events, records[i])
    ensures RowsCollected(events, InsertedAll(t, records))
  {
    if records != [] { InsertKeepsCollected(events, t, records[..|records| - 1]); }
  }

  lemma {:induction false} ReadAreCollected(events: seq<Event>, e: Event, i: nat)
    requires events != [] && e == events[|events| - 1] && e.Collect? && i < |ReadRows(e.found, e.broken)|
    ensures Collects(events, RecordsOf(ReadRows(e.found, e.broken), e.periodEnd)[i])
  {
    RecordsAt(e.found, e.periodEnd, i);
    RecordsAt(ReadRows(e.found, e.broken), e.periodEnd, i);
    assert CollectsAt(events[|events| - 1], RecordOf(e.found[i], e.periodEnd));
  }

  lemma {:induction false} StepKeepsCollected(events: seq<Event>, s: State, e: Event)
    requires events != [] && e == events[|events| - 1] && RowsCollected(events, s.rows)
    ensures RowsCollected(events, Next(s, e).rows)
  {
    if e.Collect? && !s.attempt.Running? {
      var records := RecordsOf(ReadRows(e.found, e.broken), e.periodEnd);
      forall i | 0 <= i < |records| ensures Collects(events, records[i]) { ReadAreCollected(events, e, i); }
      InsertKeepsCollected(events, s.rows, records);
    }
  }

  lemma {:induction false} RunKeepsCollected(events: seq<Event>)
    ensures RowsCollected(events, Exec(events).rows)
  {
    if events != [] {
      var before, e := events[..|events| - 1], events[|events| - 1];
      RunKeepsCollected(before);
      forall r | Collects(before, r) ensures Collects(events, r) {
        var n :| 0 <= n < |before| && CollectsAt(before[n], r);
        assert events[n] == before[n];
      }
      StepKeepsCollected(events, Exec(before), e);
    }
  }

  /** While sources do not change, a row marked submitted stands for a request that the very cloud
      it names has accepted for its tenant and period. */
  lemma {:induction false} SubmittedOnItsCloud(events: seq<Event>, key: string)
    requires SourcesFixed(events) && key in Exec(events).rows && Exec(events).rows[key].status.Submitted?
    ensures var row, log := Exec(events).rows[key], Exec(events).log;
            exists i :: 0 <= i < |log| && SourceOf(log[i].cloud) == row.record.source
                        && SameTenantPeriod(log[i].record, row.record) && log[i].record.idempotencyKey == key
  {
    var row, log := Exec(events).rows[key], Exec(events).log;
    RunKeepsInv(events);
    RunKeepsOrigins(events);
    RunKeepsCollected(events);
    assert SubmittedWasSent(row, log);
    var i :| 0 <= i < |log| && log[i].record.tenantId == row.record.tenantId
             && log[i].record.periodEnd == row.record.periodEnd;
    assert Proper(events, log[i]) && SameTenantPeriod(log[i].record, row.record);
  }

  lemma {:induction false} TwoCloudsChargeTwice(sub: Subscriptions, a: UsageRecord, b: UsageRecord)
    requires a.idempotencyKey == b.idempotencyKey
    ensures KeyCharges(sub, [Sent(Aws, a), Sent(Azure, b)], a.idempotencyKey) == 2
  {
    var log := [Sent(Aws, a), Sent(Azure, b)];
    assert log[..1] == [Sent(Aws, a)] && [Sent(Aws, a)][..0] == [];
    assert KeyCharges(sub, log[..1], a.idempotencyKey) == 1;
    assert !Seen(sub, log[..1], Sent(Azure, b));
  }

  /** A tenant whose source changes between two attempts is charged twice under one key, and the
      second attempt returns nil. */
  lemma {:induction false} ChangedSourceChargesTwice(sub: Subscriptions, tenantId: string, period: nat)
    returns (events: seq<Event>, r: UsageRecord)
    ensures r in Exec(events).paid && r.idempotencyKey == Key(tenantId, period)
    ensures KeyCharges(sub, Exec(events).log, Key(tenantId, period)) == 2
  {
    var f, g := Found(tenantId, SourceOf(Aws), 1), Found(tenantId, SourceOf(Azure), 1);
    r := RecordOf(g, period);
    events := MovedTenant(f, g, period);
    TwoCloudsChargeTwice(sub, RecordOf(f, period), r);
  }

  /** Collected from AWS and submitted, abandoned, collected from Azure, submitted, finished. */
  lemma {:induction false} MovedTenant(f: Found, g: Found, period: nat) returns (events: seq<Event>)
    requires f.source == SourceOf(Aws) && g.source == SourceOf(Azure)
    ensures Exec(events).log == [Sent(Aws, RecordOf(f, period)), Sent(Azure, RecordOf(g, period))]
    ensures RecordOf(g, period) in Exec(events).paid
  {
    var before := OneSubmission([], f, Aws, period);
    ExecSnoc(before, Abandon);
    var after := OneSubmission(before + [Abandon], g, Azure, period);
    ExecSnoc(after, Finish);
    FinishPays(Exec(after), RecordOf(g, period));
    events := after + [Finish];
  }

  /** Nothing is left to submit in the running attempt, and it has the one record r. */
  ghost predicate AllSubmitted(s: State, r: UsageRecord) {
    && s.attempt.Running? && s.attempt.records == [r]
    && forall c :: BatchDone(ProgressOf(s.attempt, c)) && !BatchFailed(ProgressOf(s.attempt, c))
  }

  /** A tenant is collected and its record is accepted by its cloud. */
  lemma {:induction false} OneSubmission(events: seq<Event>, f: Found, c: Cloud, period: nat)
    returns (more: seq<Event>)
    requires Exec(events).attempt.Idle? && f.source == SourceOf(c)
    ensures Exec(more).log == Exec(events).log + [Sent(c, RecordOf(f, period))]
    ensures AllSubmitted(Exec(more), RecordOf(f, period))
  {
    var collect, submit := Collect([f], period, 1, false), Submission(c, AllWell);
    ExecSnoc(events, collect);
    CollectOne(Exec(events), f, c, period);
    ExecSnoc(events + [collect], submit);
    SubmitOne(Exec(events + [collect]), RecordOf(f, period), c);
    more := events + [collect] + [submit];
  }

  /** The running attempt has the one record r, which is still to be submitted to c. */
  ghost predicate OneToSubmit(s: State, r: UsageRecord, c: Cloud) {
    && s.attempt.Running? && s.attempt.records == [r]
    && forall d :: ProgressOf(s.attempt, d) == Progress(if d == c then [r] else [], 0, 0)
  }

  lemma {:induction false} BatchOfOne(r: UsageRecord, source: string)
    ensures Batch([r], source) == if r.source == source then [r] else []
  {
    assert [r][..0] == [];
  }

  lemma {:induction false} StartOne(r: UsageRecord, c: Cloud, d: Cloud)
    requires r.source == SourceOf(c)
    ensures ProgressOf(Start([r]), d) == Progress(if d == c then [r] else [], 0, 0)
  {
    SourcesDiffer();
    BatchOfOne(r, SourceOf(d));
  }

  lemma {:induction false} CollectOne(s: State, f: Found, c: Cloud, period: nat)
    requires s.attempt.Idle? && f.source == SourceOf(c)
    ensures var s' := Next(s, Collect([f], period, 1, false));
            s'.log == s.log && OneToSubmit(s', RecordOf(f, period), c)
  {
    var r := RecordOf(f, period);
    assert [f][..0] == [] && RecordsOf([f], period) == [r];
    forall d ensures ProgressOf(Start([r]), d) == Progress(if d == c then [r] else [], 0, 0) { StartOne(r, c, d); }
    assert Next(s, Collect([f], period, 1, false)).attempt == Start([r]);
  }

  lemma {:induction false} SubmitOne(s: State, r: UsageRecord, c: Cloud)
    requires OneToSubmit(s, r, c)
    ensures var s' := Next(s, Submission(c, AllWell));
            s'.log == s.log + [Sent(c, r)] && AllSubmitted(s', r)
  {
    var s' := Next(s, Submission(c, AllWell));
    assert s'.attempt == WithProgress(s.attempt, c, Progress([r], 1, 0));
    forall d ensures ProgressOf(s'.attempt, d) == if d == c then Progress([r], 1, 0) else Progress([], 0, 0) {
      assert ProgressOf(s.attempt, d) == Progress(if d == c then [r] else [], 0, 0);
      assert ProgressOf(s'.attempt, d) == if d == c then Progress([r], 1, 0) else ProgressOf(s.attempt, d);
    }
  }

  lemma {:induction false} FinishPays(s: State, r: UsageRecord)
    requires AllSubmitted(s, r)
    ensures r in Next(s, Finish).paid && Next(s, Finish).log == s.log
  {
    assert forall c :: !Active(ProgressOf(s.attempt, c));
  }
}
