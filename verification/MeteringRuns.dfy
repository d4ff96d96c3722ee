/** What a run of metering collects, sends and marks, attempt by attempt, in terms of what its
    queries have found and of how its submissions end. */
module MeteringRuns {
  import opened Metering
  import opened MeteringKeys

  // ---- nothing is reported but what was found ----

  /** Some collection of the run has found a tenant that the record reports. */
  ghost predicate WasFound(events: seq<Event>, r: UsageRecord) {
    exists n, i :: FoundAt(events, n, i, r)
  }

  ghost predicate FoundAt(events: seq<Event>, n: int, i: int, r: UsageRecord) {
    && 0 <= n < |events| && events[n].Collect? && 0 <= i < |events[n].found|
    && r.tenantId == events[n].found[i].tenantId && r.source == events[n].found[i].source
    && r.periodEnd == events[n].periodEnd && r.quantity == events[n].found[i].users
  }

  lemma {:induction false} CollectedWasFound(events: seq<Event>, r: UsageRecord)
    requires Collects(events, r)
    ensures WasFound(events, r)
  {
    var n :| 0 <= n < |events| && CollectsAt(events[n], r);
    var found, periodEnd := events[n].found, events[n].periodEnd;
    var i :| 0 <= i < |found| && RecordsOf(found, periodEnd)[i] == r;
    RecordsAt(found, periodEnd, i);
    assert FoundAt(events, n, i, r);
  }

  ghost predicate PaidCollected(events: seq<Event>, paid: set<UsageRecord>) {
    forall r :: r in paid ==> Collects(events, r)
  }

  lemma {:induction false} CollectsStays(before: seq<Event>, e: Event, r: UsageRecord)
    requires Collects(before, r)
    ensures Collects(before + [e], r)
  {
    var n :| 0 <= n < |before| && CollectsAt(before[n], r);
    assert CollectsAt((before + [e])[n], r);
  }

  lemma {:induction false} RunPaysCollected(events: seq<Event>)
    ensures PaidCollected(events, Exec(events).paid)
  {
    if events != [] {
      var before, e := events[..|events| - 1], events[|events| - 1];
      assert events == before + [e];
      RunPaysCollected(before);
      RunKeepsOrigins(before);
      forall r | r in Exec(events).paid ensures Collects(events, r) {
        PaidWas(before, e, r);
        CollectsStays(before, e, r);
      }
    }
  }

  lemma {:induction false} PaidWas(before: seq<Event>, e: Event, r: UsageRecord)
    requires PaidCollected(before, Exec(before).paid) && Origins(before, Exec(before))
    requires r in Next(Exec(before), e).paid
    ensures Collects(before, r)
  {
    if e.Finish? && r !in Exec(before).paid {
      var i :| 0 <= i < |Exec(before).attempt.records| && Exec(before).attempt.records[i] == r;
    }
  }

  /** Every record that a cloud has accepted, that stands in the table, or that an attempt has
      returned nil for reports the tenant, source, period and active users of a tenant found. */
  lemma {:induction false} OnlyFoundIsReported(events: seq<Event>)
    ensures var s := Exec(events);
            && (forall i :: 0 <= i < |s.log| ==> WasFound(events, s.log[i].record))
            && (forall k :: k in s.rows ==> WasFound(events, s.rows[k].record))
            && (forall r :: r in s.paid ==> WasFound(events, r))
  {
    var s := Exec(events);
    RunKeepsOrigins(events);
    RunKeepsCollected(events);
    RunPaysCollected(events);
    forall i | 0 <= i < |s.log| ensures WasFound(events, s.log[i].record) {
      assert Proper(events, s.log[i]);
      CollectedWasFound(events, s.log[i].record);
    }
    forall k | k in s.rows ensures WasFound(events, s.rows[k].record) { CollectedWasFound(events, s.rows[k].record); }
    forall r | r in s.paid ensures WasFound(events, r) { CollectedWasFound(events, r); }
  }

  // ---- an attempt ----

  /** A record has at most five tries, and only a record that is still to be submitted has any. */
  ghost predicate TriesSound(a: Attempt) {
    a.Running? ==> forall c :: TriesAt(ProgressOf(a, c))
  }

  predicate TriesAt(p: Progress) {
    p.tries <= 5 && (p.tries > 0 ==> p.next < |p.records|)
  }

  lemma {:induction false} SubmissionKeepsTries(s: State, c: Cloud, t: Try)
    requires TriesSound(s.attempt)
    ensures TriesSound(Next(s, Submission(c, t)).attempt)
  {
    if s.attempt.Running? && Active(ProgressOf(s.attempt, c)) {
      var p := Advance(ProgressOf(s.attempt, c), Succeeds(t));
      assert TriesAt(ProgressOf(s.attempt, c)) && TriesAt(p);
      forall d ensures TriesAt(ProgressOf(WithProgress(s.attempt, c, p), d)) {
        assert TriesAt(ProgressOf(s.attempt, d));
      }
    }
  }

  lemma {:induction false} RunKeepsTries(events: seq<Event>)
    ensures TriesSound(Exec(events).attempt)
  {
    if events != [] {
      var before, e := events[..|events| - 1], events[|events| - 1];
      RunKeepsTries(before);
      if e.Submission? { SubmissionKeepsTries(Exec(before), e.cloud, e.outcome); }
    }
  }

  ghost predicate FromTheStart(p: Progress, records: seq<UsageRecord>, source: string) {
    && p.next == 0 && p.tries == 0
    && forall r :: r in p.records <==> r in records && r.source == source
  }

  ghost predicate ReportsAll(records: seq<UsageRecord>, found: seq<Found>, periodEnd: nat) {
    |records| == |found| && forall i :: 0 <= i < |found| ==> Reports(records[i], found[i], periodEnd)
  }

  lemma {:induction false} RecordsReport(found: seq<Found>, periodEnd: nat)
    ensures ReportsAll(RecordsOf(found, periodEnd), found, periodEnd)
  {
    forall i | 0 <= i < |found| ensures Reports(RecordsOf(found, periodEnd)[i], found[i], periodEnd) {
      RecordsAt(found, periodEnd, i);
    }
  }

  lemma {:induction false} StartsFresh(records: seq<UsageRecord>, c: Cloud)
    requires records != []
    ensures Start(records).Running? && FromTheStart(ProgressOf(Start(records), c), records, SourceOf(c))
  {
    BatchHolds(records, SourceOf(c));
  }

  /** A collection that succeeds begins an attempt at the first record of each batch. */
  lemma {:induction false} AttemptBegins(
    events: seq<Event>, found: seq<Found>, periodEnd: nat, broken: nat, rowsErr: bool)
    requires Exec(events).attempt.Idle?
    ensures var a := Next(Exec(events), Collect(found, periodEnd, broken, rowsErr)).attempt;
            && (a.Running? <==> found != [] && broken >= |found| && !rowsErr)
            && (a.Running? ==>
                  && ReportsAll(a.records, found, periodEnd)
                  && forall c :: FromTheStart(ProgressOf(a, c), a.records, SourceOf(c)))
  {
    var records := RecordsOf(found, periodEnd);
    CollectStarts(Exec(events), found, periodEnd, broken, rowsErr);
    if found != [] {
      RecordsReport(found, periodEnd);
      forall c ensures FromTheStart(ProgressOf(Start(records), c), records, SourceOf(c)) { StartsFresh(records, c); }
    }
  }

  lemma {:induction false} CollectStarts(s: State, found: seq<Found>, periodEnd: nat, broken: nat, rowsErr: bool)
    requires s.attempt.Idle?
    ensures Next(s, Collect(found, periodEnd, broken, rowsErr)).attempt
            == if broken >= |found| && !rowsErr then Start(RecordsOf(found, periodEnd)) else Idle
    ensures found == [] ==> Start(RecordsOf(found, periodEnd)) == Idle
    ensures found != [] ==> Start(RecordsOf(found, periodEnd)).Running?
                            && Start(RecordsOf(found, periodEnd)).records == RecordsOf(found, periodEnd)
  {
  }

  /** A collection leaves the known rows as they are and a row for each tenant that it has read, even
      when it fails, and sends nothing. */
  lemma {:induction false} CollectionMeans(
    events: seq<Event>, found: seq<Found>, periodEnd: nat, broken: nat, rowsErr: bool)
    requires Exec(events).attempt.Idle?
    ensures var s := Exec(events);
            var s' := Next(s, Collect(found, periodEnd, broken, rowsErr));
            && Extends(s'.rows, s.rows, found, broken, periodEnd)
            && s'.log == s.log && s'.paid == s.paid && s'.issued == s.issued
  {
    var rows, n := Exec(events).rows, if broken < |found| then broken else |found|;
    InsertedUpTo(rows, found, periodEnd, n);
    assert found[..n] == ReadRows(found, broken);
    if broken >= |found| {
      AllRead(InsertedAll(rows, RecordsOf(found[..n], periodEnd)), rows, found, broken, periodEnd);
    }
  }

  /** Nothing that a run has done is undone: the ledger and the paid records grow, and a row keeps its
      record and stays submitted. */
  lemma {:induction false} NothingIsUndone(s: State, e: Event)
    ensures var s' := Next(s, e);
            && s.log <= s'.log && s.paid <= s'.paid && s.issued <= s'.issued
            && forall k :: k in s.rows ==>
                 k in s'.rows && s'.rows[k].record == s.rows[k].record
                 && (s.rows[k].status == Submitted ==> s'.rows[k].status == Submitted)
  {
    if e.Collect? { RowsStay(s.rows, RecordsOf(ReadRows(e.found, e.broken), e.periodEnd)); }
  }

  lemma {:induction false} RowsStay(t: Table, records: seq<UsageRecord>)
    ensures forall k :: k in t ==> k in InsertedAll(t, records) && InsertedAll(t, records)[k] == t[k]
  {
    if records != [] { RowsStay(t, records[..|records| - 1]); }
  }

  /** A batch tries its next record until a try succeeds or the record has had five; each way a try
      can end has its effect on the cloud, on the row of the record and on the batch. */
  lemma {:induction false} TryMeans(events: seq<Event>, c: Cloud, t: Try)
    requires Exec(events).attempt.Running?
    ensures var s := Exec(events);
            var p, s' := ProgressOf(s.attempt, c), Next(s, Submission(c, t));
            if p.next >= |p.records| || p.tries == 5 then s' == s
            else
              var r := p.records[p.next];
              && s'.log == (if t == Refused then s.log else s.log + [Sent(c, r)])
              && s'.rows == (if t == AllWell || t == LostAfterUpdate then RowSubmitted(s.rows, r) else s.rows)
              && s'.issued == s.issued + {Sent(c, r)} && s'.paid == s.paid
              && s'.attempt.Running? && s'.attempt.records == s.attempt.records
              && (var p' := ProgressOf(s'.attempt, c);
                  && p'.records == p.records
                  && (t == AllWell || t == UpdateFailed ==> p'.next == p.next + 1 && p'.tries == 0)
                  && (t != AllWell && t != UpdateFailed ==> p'.next == p.next && p'.tries == p.tries + 1))
              && forall d :: d != c ==> ProgressOf(s'.attempt, d) == ProgressOf(s.attempt, d)
  {
    RunKeepsTries(events);
    assert TriesAt(ProgressOf(Exec(events).attempt, c));
  }

  /** The row of the record, if there is one, becomes submitted and stays as it is otherwise. */
  function RowSubmitted(rows: Table, r: UsageRecord): Table {
    if r.idempotencyKey in rows then rows[r.idempotencyKey := Row(rows[r.idempotencyKey].record, Submitted)] else rows
  }

  /** A try that was thought lost has its effect when it arrives, and no other. */
  lemma {:induction false} LateTryMeans(events: seq<Event>, x: Sent, t: Try)
    requires x in Exec(events).issued
    ensures var s := Exec(events);
            var s' := Next(s, Straggler(x, t));
            && s'.log == (if t == Refused then s.log else s.log + [x])
            && s'.rows == (if t == AllWell || t == LostAfterUpdate then RowSubmitted(s.rows, x.record) else s.rows)
            && s'.attempt == s.attempt && s'.paid == s.paid
  {
  }

  /** An attempt ends when no batch has work left, and returns nil if and only if every batch has
      submitted its last record; otherwise a record of some batch has failed five times. */
  lemma {:induction false} AttemptEnds(events: seq<Event>)
    requires Exec(events).attempt.Running?
    ensures var s := Exec(events);
            var s' := Next(s, Finish);
            && (s' != s <==> forall c :: BatchOver(ProgressOf(s.attempt, c)))
            && (s' != s ==>
                  && s'.attempt == Idle && s'.log == s.log && s'.rows == s.rows
                  && s'.paid == (if forall c :: AllSent(ProgressOf(s.attempt, c))
                                 then s.paid + Elements(s.attempt.records) else s.paid))
  {
    RunKeepsTries(events);
    var s := Exec(events);
    forall c ensures BatchOver(ProgressOf(s.attempt, c)) <==> !Active(ProgressOf(s.attempt, c))
             ensures BatchOver(ProgressOf(s.attempt, c)) ==>
                       (AllSent(ProgressOf(s.attempt, c)) <==> !BatchFailed(ProgressOf(s.attempt, c)))
    {
      assert TriesAt(ProgressOf(s.attempt, c));
    }
  }

  predicate AllSent(p: Progress) { p.next >= |p.records| }

  predicate BatchOver(p: Progress) { p.next >= |p.records| || p.tries == 5 }

  function Elements(records: seq<UsageRecord>): set<UsageRecord> {
    set r | r in records
  }
}
