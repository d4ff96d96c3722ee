/** The audit page as a whole: the route's pages, sent as ISO 8601 text, unified with the live tail. */
module AuditView {
  import opened AuditRows
  import opened AuditPaging

  /** `Date.prototype.toISOString`, from milliseconds. */
  type Iso = nat -> string

  /** 10000-01-01T00:00:00Z: up to here the text has a four-digit year. */
  const YEAR_10000: nat := 253402300800000

  ghost predicate Chronological(iso: Iso) {
    forall a: nat, b: nat :: a < b < YEAR_10000 ==> Less(iso(a), iso(b))
  }

  function Sent(r: StoredRow, iso: Iso): AuditLog {
    AuditLog(r.id, iso(Millis(r)), r.action, r.principalId, r.detail)
  }

  function Shown(r: StoredRow, iso: Iso): AuditRow {
    HistoryRowToUnified(Sent(r, iso))
  }

  function SentAll(rows: seq<StoredRow>, iso: Iso, n: nat): (sent: seq<AuditLog>)
    requires n <= |rows|
    ensures |sent| == n && forall i :: 0 <= i < n ==> sent[i] == Sent(rows[i], iso)
  {
    if n == 0 then [] else SentAll(rows, iso, n - 1) + [Sent(rows[n - 1], iso)]
  }

  /** `id` is the primary key of the table. */
  predicate Keyed(rows: seq<StoredRow>) {
    forall i, j :: 0 <= i < j < |rows| ==> rows[i].id != rows[j].id
  }

  /** No two rows agree in action, principal and millisecond. */
  predicate NoTwins(rows: seq<StoredRow>) {
    forall i, j :: 0 <= i < j < |rows| ==> !Twins(rows[i], rows[j])
  }

  predicate Twins(a: StoredRow, b: StoredRow) {
    a.action == b.action && a.principalId == b.principalId && Millis(a) == Millis(b)
  }

  ghost predicate ShownOnce(r: StoredRow, out: seq<AuditRow>, iso: Iso) {
    multiset(out)[AuditRow(History, r.id, iso(r.createdAt / 1000), r.action, r.principalId, r.detail)] == 1
  }

  ghost predicate AllShown(rows: seq<StoredRow>, out: seq<AuditRow>, iso: Iso) {
    forall i :: 0 <= i < |rows| ==> ShownOnce(rows[i], out, iso)
  }

  predicate BeforeYear10000(rows: seq<StoredRow>) {
    forall i :: 0 <= i < |rows| ==> Millis(rows[i]) < YEAR_10000
  }

  ghost predicate HistoryBarFree(history: seq<StoredRow>, iso: Iso) {
    forall i :: 0 <= i < |history| ==> BarFree(Shown(history[i], iso))
  }

  /** `out` shows a history of rows of the log together with the live tail. */
  ghost predicate Loaded(
    rows: seq<StoredRow>, history: seq<StoredRow>, live: seq<AuditEnvelope>, iso: Iso, out: seq<AuditRow>)
  {
    && Keyed(rows) && BeforeYear10000(rows) && Chronological(iso)
    && (forall x :: x in history ==> x in rows)
    && HistoryBarFree(history, iso)
    && Shows(out, Unified(SentAll(history, iso, |history|), live))
  }

  lemma {:induction false} SameText(iso: Iso, a: nat, b: nat)
    requires Chronological(iso) && a < YEAR_10000 && b < YEAR_10000
    ensures iso(a) == iso(b) <==> a == b
    ensures Less(iso(a), iso(b)) <==> a < b
  {
    LessIrreflexive(iso(a));
    if b < a && Less(iso(a), iso(b)) { LessTransitive(iso(a), iso(b), iso(a)); }
  }

  lemma {:induction false} SameRow(rows: seq<StoredRow>, a: StoredRow, b: StoredRow)
    requires Keyed(rows) && a in rows && b in rows && a.id == b.id
    ensures a == b
  {
    var i :| 0 <= i < |rows| && rows[i] == a;
    var j :| 0 <= j < |rows| && rows[j] == b;
    assert i == j;
  }

  /** A row of the log that is on the page has been loaded. */
  lemma {:induction false} ShownIsLoaded(
    rows: seq<StoredRow>, history: seq<StoredRow>, live: seq<AuditEnvelope>, iso: Iso, out: seq<AuditRow>, r: StoredRow)
    requires Loaded(rows, history, live, iso, out) && r in rows && Shown(r, iso) in out
    ensures r in history
  {
    var sent := SentAll(history, iso, |history|);
    EveryRowIsGiven(Unified(sent, live), out, Shown(r, iso));
    var k :| 0 <= k < |sent| + |live| && Unified(sent, live)[k] == Shown(r, iso);
    assert k < |sent| && sent[k] == Sent(history[k], iso);
    assert history[k] in history;
    SameRow(rows, history[k], r);
  }

  /** A loaded row is on the page once, unless a twin took its place. */
  lemma {:induction false} LoadedIsShown(
    rows: seq<StoredRow>, history: seq<StoredRow>, live: seq<AuditEnvelope>, iso: Iso, out: seq<AuditRow>, r: StoredRow)
    returns (w: StoredRow)
    requires Loaded(rows, history, live, iso, out) && r in history
    ensures w in history && Twins(w, r) && multiset(out)[Shown(w, iso)] == 1
    ensures forall x :: x in out && SameEvent(x, Shown(r, iso)) ==> x == Shown(w, iso)
  {
    var sent := SentAll(history, iso, |history|);
    var h :| 0 <= h < |history| && history[h] == r;
    var f := FirstWith(Unified(sent, live), h);
    assert forall g :: 0 <= g <= h ==> Unified(sent, live)[g] == Shown(history[g], iso);
    OneRowPerEvent(Unified(sent, live), out, h);
    w := history[f];
    assert Unified(sent, live)[f] == Shown(w, iso) && Unified(sent, live)[h] == Shown(r, iso);
    assert w in history;
    SameText(iso, Millis(w), Millis(r));
  }

  lemma {:induction false} KeyedMatching(log: seq<StoredRow>, f: Filters)
    requires Descending(log) && Keyed(log) && BeforeYear10000(log)
    ensures Arrangement(log, log)
    ensures Keyed(Matching(log, f)) && BeforeYear10000(Matching(log, f))
  {
    var rows := Matching(log, f);
    assert Distinct(log);
    MatchingDescends(log, f);
    forall i | 0 <= i < |rows| ensures rows[i] in log {
      MatchingIs(log, f, rows[i]);
    }
    forall i, j | 0 <= i < j < |rows| ensures rows[i].id != rows[j].id {
      if rows[i].id == rows[j].id { SameRow(log, rows[i], rows[j]); }
    }
  }

  /** With nothing more to load, every matching row of the log is on the page exactly once if and
      only if the millisecond changes at every page boundary and no two rows are twins. */
  lemma {:induction false} ShownExactlyOnce(
    log: seq<StoredRow>, pageSize: nat, events: seq<Event>, live: seq<AuditEnvelope>, iso: Iso, out: seq<AuditRow>)
    requires Descending(log) && Keyed(log) && BeforeYear10000(log) && Chronological(iso)
    requires IsRun(log, events) && pageSize > 0
    requires !Exec(pageSize, events).pending && |Exec(pageSize, events).page| != pageSize
    requires var history := Exec(pageSize, events).history;
             && HistoryBarFree(history, iso)
             && Shows(out, Unified(SentAll(history, iso, |history|), live))
    ensures var rows := Matching(log, Exec(pageSize, events).filters);
            AllShown(rows, out, iso) <==> Clean(rows, pageSize, |rows|) && NoTwins(rows)
  {
    var ui := Exec(pageSize, events);
    var rows := Matching(log, ui.filters);
    KeyedMatching(log, ui.filters);
    RunKeepsInv(log, pageSize, events);
    forall x | x in ui.history ensures x in rows { MatchingIs(log, ui.filters, x); }
    CompleteIffClean(log, pageSize, events);
    if AllShown(rows, out, iso) {
      ShownMeansLoaded(rows, ui.history, live, iso, out);
    }
    if Clean(rows, pageSize, |rows|) && NoTwins(rows) {
      LoadedMeansShown(rows, ui.history, live, iso, out);
    }
  }

  /** Two twins cannot both be on the page. */
  lemma {:induction false} TwinsHide(
    rows: seq<StoredRow>, history: seq<StoredRow>, live: seq<AuditEnvelope>, iso: Iso, out: seq<AuditRow>,
    a: StoredRow, b: StoredRow)
    requires Loaded(rows, history, live, iso, out) && Twins(a, b) && b in history
    requires Shown(a, iso) in out && Shown(b, iso) in out
    ensures a.id == b.id
  {
    var w := LoadedIsShown(rows, history, live, iso, out, b);
    assert SameEvent(Shown(a, iso), Shown(b, iso)) && SameEvent(Shown(b, iso), Shown(b, iso));
    assert Shown(a, iso).key == Shown(b, iso).key;
  }

  lemma {:induction false} ShownMeansLoaded(
    rows: seq<StoredRow>, history: seq<StoredRow>, live: seq<AuditEnvelope>, iso: Iso, out: seq<AuditRow>)
    requires Loaded(rows, history, live, iso, out) && AllShown(rows, out, iso)
    ensures forall x :: x in rows ==> x in history
    ensures NoTwins(rows)
  {
    forall i | 0 <= i < |rows| ensures rows[i] in history {
      assert ShownOnce(rows[i], out, iso) && Shown(rows[i], iso) in multiset(out);
      ShownIsLoaded(rows, history, live, iso, out, rows[i]);
    }
    forall i, j | 0 <= i < j < |rows| ensures !Twins(rows[i], rows[j]) {
      if Twins(rows[i], rows[j]) {
        assert ShownOnce(rows[i], out, iso) && ShownOnce(rows[j], out, iso);
        assert Shown(rows[i], iso) in multiset(out) && Shown(rows[j], iso) in multiset(out);
        TwinsHide(rows, history, live, iso, out, rows[i], rows[j]);
      }
    }
  }

  lemma {:induction false} LoadedMeansShown(
    rows: seq<StoredRow>, history: seq<StoredRow>, live: seq<AuditEnvelope>, iso: Iso, out: seq<AuditRow>)
    requires Loaded(rows, history, live, iso, out) && NoTwins(rows)
    requires forall x :: x in rows ==> x in history
    ensures AllShown(rows, out, iso)
  {
    forall i | 0 <= i < |rows| ensures ShownOnce(rows[i], out, iso) {
      var w := LoadedIsShown(rows, history, live, iso, out, rows[i]);
      var j :| 0 <= j < |rows| && rows[j] == w;
      assert Twins(rows[i], rows[j]) && Twins(rows[j], rows[i]);
    }
  }

  /** Older rows of the log stand below newer ones. */
  lemma {:induction false} OlderBelow(
    rows: seq<StoredRow>, history: seq<StoredRow>, live: seq<AuditEnvelope>, iso: Iso, out: seq<AuditRow>,
    a: StoredRow, b: StoredRow, p: nat, q: nat)
    requires Loaded(rows, history, live, iso, out) && a in rows && b in rows && Millis(a) > Millis(b)
    requires p < |out| && q < |out| && out[p] == Shown(a, iso) && out[q] == Shown(b, iso)
    ensures p < q
  {
    SameText(iso, Millis(b), Millis(a));
  }

  /** With distinct milliseconds nothing is lost, whatever the page size. */
  lemma {:induction false} DistinctMillisSuffice(rows: seq<StoredRow>, pageSize: nat)
    requires Descending(rows) && pageSize > 0
    requires forall i, j :: 0 <= i < j < |rows| ==> Millis(rows[i]) != Millis(rows[j])
    ensures Clean(rows, pageSize, |rows|) && NoTwins(rows)
  {
    forall b | 0 < b < |rows| ensures Millis(rows[b]) < Millis(rows[b - 1]) {
      assert rows[b - 1].createdAt >= rows[b].createdAt;
    }
  }

  lemma {:induction false} NoFilterMatchesAll(log: seq<StoredRow>)
    ensures Matching(log, START.filters) == log
  {
    if log != [] {
      var n := |log| - 1;
      NoFilterMatchesAll(log[..n]);
      assert log == log[..n] + [log[n]];
    }
  }

  /** 51 mutations in one millisecond, in pages of 50: whatever order the query finds them in, and
      however the page is used, one of them is never loaded. */
  lemma {:induction false} LostRow(log: seq<StoredRow>, events: seq<Event>)
    requires |log| == 51 && Keyed(log) && forall k :: 0 <= k < 51 ==> log[k].createdAt == 7000
    requires IsRun(log, events)
    requires var ui := Exec(50, events); !ui.pending && |ui.page| != 50 && ui.filters == START.filters
    ensures exists k :: 0 <= k < 51 && log[k] !in Exec(50, events).history
  {
    NoFilterMatchesAll(log);
    assert Descending(log) && Distinct(log);
    CompleteIffClean(log, 50, events);
    assert Boundary(50, 50) && Millis(log[50]) == Millis(log[49]);
  }
}
