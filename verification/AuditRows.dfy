/** `historyRowToUnified`, `envelopeToUnified` and `unifyRows` of
    frontend/src/components/AuditLogView.tsx. */
module AuditRows {
  import opened Options
  import Strings

  datatype Source = History | Live

  /** The fields that are only copied; `metadata` is the text that JSON.stringify gives. */
  datatype Detail = Detail(
    principalType: Option<string>,
    targetKind: string,
    targetId: Option<string>,
    outcome: string,
    errorMessage: Option<string>,
    metadata: Option<string>)

  datatype AuditRow = AuditRow(
    source: Source, key: string, timestamp: string, action: string, principalId: string, detail: Detail)

  /** A row of the audit_log table as the browser holds it; `createdAt` is its ISO 8601 text. */
  datatype AuditLog = AuditLog(id: string, createdAt: string, action: string, principalId: string, detail: Detail)

  datatype AuditEnvelope = AuditEnvelope(timestamp: string, action: string, principalId: string, detail: Detail)

  function HistoryRowToUnified(r: AuditLog): AuditRow {
    AuditRow(History, r.id, r.createdAt, r.action, r.principalId, r.detail)
  }

  function EnvelopeToUnified(e: AuditEnvelope): AuditRow {
    AuditRow(Live, e.action + "|" + e.principalId + "|" + e.timestamp, e.timestamp, e.action, e.principalId, e.detail)
  }

  function DedupeKey(r: AuditRow): string {
    r.action + ['|'] + r.principalId + ['|'] + r.timestamp
  }

  /** The event a row is about. */
  predicate SameEvent(a: AuditRow, b: AuditRow) {
    a.action == b.action && a.principalId == b.principalId && a.timestamp == b.timestamp
  }

  /** The separator occurs neither in principal ids nor in timestamps; actions may contain it. */
  predicate BarFree(r: AuditRow) {
    '|' !in r.principalId && '|' !in r.timestamp
  }

  // ---- the specification ----

  /** The k-th row that is read: the history comes first. */
  function RowAt(history: seq<AuditLog>, live: seq<AuditEnvelope>, k: nat): AuditRow
    requires k < |history| + |live|
  {
    if k < |history| then HistoryRowToUnified(history[k]) else EnvelopeToUnified(live[k - |history|])
  }

  function Unified(history: seq<AuditLog>, live: seq<AuditEnvelope>): (rows: seq<AuditRow>) {
    FirstRows(history, live, |history| + |live|)
  }

  function FirstRows(history: seq<AuditLog>, live: seq<AuditEnvelope>, n: nat): (rows: seq<AuditRow>)
    requires n <= |history| + |live|
    ensures |rows| == n && forall k :: 0 <= k < n ==> rows[k] == RowAt(history, live, k)
  {
    if n == 0 then [] else FirstRows(history, live, n - 1) + [RowAt(history, live, n - 1)]
  }

  /** The keys of the first n rows. */
  function Keys(rows: seq<AuditRow>, n: nat): set<string>
    requires n <= |rows|
  {
    if n == 0 then {} else Keys(rows, n - 1) + {DedupeKey(rows[n - 1])}
  }

  /** Those of the first n rows whose key does not occur before them. */
  function Firsts(rows: seq<AuditRow>, n: nat): seq<AuditRow>
    requires n <= |rows|
  {
    if n == 0 then []
    else Firsts(rows, n - 1) + if DedupeKey(rows[n - 1]) in Keys(rows, n - 1) then [] else [rows[n - 1]]
  }

  function FirstOfEach(rows: seq<AuditRow>): seq<AuditRow> {
    Firsts(rows, |rows|)
  }

  /** JavaScript's `<` on strings. */
  predicate Less(a: string, b: string) {
    b != "" && (a == "" || a[0] < b[0] || (a[0] == b[0] && Less(a[1..], b[1..])))
  }

  predicate NewestFirst(rows: seq<AuditRow>) {
    forall i, j :: 0 <= i < j < |rows| ==> !Less(rows[i].timestamp, rows[j].timestamp)
  }

  /** What `unifyRows` promises; rows of equal timestamp may come in any order. */
  predicate Shows(out: seq<AuditRow>, rows: seq<AuditRow>) {
    multiset(out) == multiset(FirstOfEach(rows)) && NewestFirst(out)
  }

  // ---- the code ----

  method UnifyRows(history: seq<AuditLog>, live: seq<AuditEnvelope>) returns (out: seq<AuditRow>)
    ensures Shows(out, Unified(history, live))
  {
    ghost var all := Unified(history, live);
    var seen: set<string> := {};
    out := [];
    for i := 0 to |history|
      invariant out == Firsts(all, i) && seen == Keys(all, i)
    {
      var row := HistoryRowToUnified(history[i]);
      var dedupeKey := DedupeKey(row);
      if dedupeKey !in seen {
        seen := seen + {dedupeKey};
        out := out + [row];
      }
    }
    seen, out := ReadLive(live, seen, out, all, |history|);
    out := SortNewestFirst(out);
  }

  /** The second loop, which continues with the `seen` and `out` of the first; `all` is everything
      that is read, its first n rows by the first loop. */
  method ReadLive(
    live: seq<AuditEnvelope>, seen: set<string>, out: seq<AuditRow>, ghost all: seq<AuditRow>, ghost n: nat)
    returns (seen': set<string>, out': seq<AuditRow>)
    requires |all| == n + |live|
    requires forall i :: 0 <= i < |live| ==> all[n + i] == EnvelopeToUnified(live[i])
    requires out == Firsts(all, n) && seen == Keys(all, n)
    ensures out' == FirstOfEach(all) && seen' == Keys(all, |all|)
  {
    seen', out' := seen, out;
    for i := 0 to |live|
      invariant out' == Firsts(all, n + i) && seen' == Keys(all, n + i)
    {
      var row := EnvelopeToUnified(live[i]);
      var dedupeKey := DedupeKey(row);
      if dedupeKey !in seen' {
        seen' := seen' + {dedupeKey};
        out' := out' + [row];
      }
    }
  }

  /** `Array.prototype.sort`: callers may only use that the result is ordered and a permutation. */
  method SortNewestFirst(rows: seq<AuditRow>) returns (out: seq<AuditRow>)
    ensures multiset(out) == multiset(rows) && NewestFirst(out)
  {
    out := [];
    for i := 0 to |rows|
      invariant multiset(out) == multiset(rows[..i]) && NewestFirst(out)
    {
      var x, j := rows[i], 0;
      while j < |out| && !Less(out[j].timestamp, x.timestamp)
        invariant 0 <= j <= |out|
        invariant forall k :: 0 <= k < j ==> !Less(out[k].timestamp, x.timestamp)
      {
        j := j + 1;
      }
      InsertKeepsOrder(out, j, x);
      assert out == out[..j] + out[j..];
      assert rows[..i + 1] == rows[..i] + [x];
      out := out[..j] + [x] + out[j..];
    }
    assert rows[..|rows|] == rows;
  }

  // ---- strings and order ----

  lemma {:induction false} LessIrreflexive(a: string)
    ensures !Less(a, a)
  {
    if a != "" { LessIrreflexive(a[1..]); }
  }

  lemma {:induction false} LessTransitive(a: string, b: string, c: string)
    requires Less(a, b) && Less(b, c)
    ensures Less(a, c)
  {
    if a != "" && a[0] == b[0] == c[0] { LessTransitive(a[1..], b[1..], c[1..]); }
  }

  /** a comes before b at place k: they agree up to there, and a ends or has the smaller character. */
  predicate DiffersAt(a: string, b: string, k: nat) {
    && k <= |a| && k < |b| && (forall i :: 0 <= i < k ==> a[i] == b[i])
    && (k == |a| || a[k] < b[k])
  }

  /** The order is the one of dictionaries. */
  lemma {:induction false} LessIsLexicographic(a: string, b: string)
    ensures Less(a, b) <==> exists k: nat :: DiffersAt(a, b, k)
  {
    if Less(a, b) {
      var k := FirstDifference(a, b);
    }
    if k: nat :| DiffersAt(a, b, k) { DifferenceDecides(a, b, k); }
  }

  lemma {:induction false} FirstDifference(a: string, b: string) returns (k: nat)
    requires Less(a, b)
    ensures DiffersAt(a, b, k)
  {
    if a != "" && a[0] == b[0] {
      var n := FirstDifference(a[1..], b[1..]);
      k := n + 1;
      assert forall i :: 0 <= i < k ==> a[i] == (if i == 0 then b[0] else a[1..][i - 1]);
    } else {
      k := 0;
    }
  }

  lemma {:induction false} DifferenceDecides(a: string, b: string, k: nat)
    requires DiffersAt(a, b, k)
    ensures Less(a, b)
  {
    if k > 0 {
      assert forall i :: 0 <= i < k - 1 ==> a[1..][i] == a[i + 1] && b[1..][i] == b[i + 1];
      assert DiffersAt(a[1..], b[1..], k - 1);
      DifferenceDecides(a[1..], b[1..], k - 1);
    }
  }

  lemma {:induction false} InsertKeepsOrder(rows: seq<AuditRow>, j: nat, x: AuditRow)
    requires NewestFirst(rows) && j <= |rows|
    requires forall k :: 0 <= k < j ==> !Less(rows[k].timestamp, x.timestamp)
    requires j < |rows| ==> Less(rows[j].timestamp, x.timestamp)
    ensures NewestFirst(rows[..j] + [x] + rows[j..])
  {
    forall k | j <= k < |rows| ensures !Less(x.timestamp, rows[k].timestamp) {
      if Less(x.timestamp, rows[k].timestamp) {
        LessTransitive(rows[j].timestamp, x.timestamp, rows[k].timestamp);
        LessIrreflexive(rows[j].timestamp);
      }
    }
  }

  /** A tail without the separator can be read off the end. */
  lemma {:induction false} LastFieldUnique(x: string, t: string, y: string, u: string, c: char)
    requires c !in t && c !in u && x + [c] + t == y + [c] + u
    ensures x == y && t == u
  {
    Strings.LastIndexAt(x, c, t);
    Strings.LastIndexAt(y, c, u);
    assert (x + [c] + t)[..|x|] == x && (x + [c] + t)[|x| + 1..] == t;
    assert (y + [c] + u)[..|y|] == y && (y + [c] + u)[|y| + 1..] == u;
  }

  lemma {:induction false} KeyNamesEvent(a: AuditRow, b: AuditRow)
    requires BarFree(a) && BarFree(b)
    ensures DedupeKey(a) == DedupeKey(b) <==> SameEvent(a, b)
  {
    if DedupeKey(a) == DedupeKey(b) {
      LastFieldUnique(a.action + ['|'] + a.principalId, a.timestamp,
                      b.action + ['|'] + b.principalId, b.timestamp, '|');
      LastFieldUnique(a.action, a.principalId, b.action, b.principalId, '|');
    }
  }

  // ---- which rows can be hidden by a row of another event ----

  /** Of two rows the second is dropped exactly when the keys are equal. */
  lemma {:induction false} PairCollapses(a: AuditRow, b: AuditRow)
    ensures FirstOfEach([a, b]) == [a] <==> DedupeKey(a) == DedupeKey(b)
  {
    assert Keys([a, b], 1) == {DedupeKey(a)} && Firsts([a, b], 1) == [a];
    assert Firsts([a, b], 2) == if DedupeKey(b) in {DedupeKey(a)} then [a] else [a] + [b];
  }

  lemma {:induction false} BarSplits(s: string) returns (x: string, y: string)
    requires '|' in s
    ensures s == x + ['|'] + y
  {
    var i := Strings.FirstIndex(s, '|');
    x, y := s[..i], s[i + 1..];
  }

  lemma {:induction false} Reassociate(x: string, y: string, z: string)
    ensures x + ['|'] + y + ['|'] + z == x + ['|'] + (y + ['|'] + z)
  {
  }

  lemma {:induction false} BarInAction(a: AuditRow) returns (b: AuditRow)
    requires '|' in a.action
    ensures DedupeKey(b) == DedupeKey(a) && !SameEvent(a, b)
  {
    var x, y := BarSplits(a.action);
    b := a.(action := x, principalId := y + ['|'] + a.principalId);
    Reassociate(x, y, a.principalId);
  }

  lemma {:induction false} BarInPrincipal(a: AuditRow) returns (b: AuditRow)
    requires '|' in a.principalId
    ensures DedupeKey(b) == DedupeKey(a) && !SameEvent(a, b)
  {
    var x, y := BarSplits(a.principalId);
    b := a.(action := a.action + ['|'] + x, principalId := y);
    Reassociate(a.action, x, y);
  }

  lemma {:induction false} BarInTimestamp(a: AuditRow) returns (b: AuditRow)
    requires '|' in a.timestamp
    ensures DedupeKey(b) == DedupeKey(a) && !SameEvent(a, b)
  {
    var x, y := BarSplits(a.timestamp);
    b := a.(principalId := a.principalId + ['|'] + x, timestamp := y);
    Reassociate(a.action, a.principalId, x);
    Reassociate(a.action + ['|'] + a.principalId, x, y);
  }

  lemma {:induction false} PartsOfKey(a: AuditRow)
    ensures Strings.Split(DedupeKey(a), '|')
            == Strings.Split(a.action, '|') + Strings.Split(a.principalId, '|') + Strings.Split(a.timestamp, '|')
  {
    Strings.SplitConcat(a.action + ['|'] + a.principalId, '|', a.timestamp);
    Strings.SplitConcat(a.action, '|', a.principalId);
  }

  lemma {:induction false} OnePart(s: string)
    requires |Strings.Split(s, '|')| == 1
    ensures Strings.Split(s, '|') == [s]
  {
    Strings.JoinUndoesSplit(s, '|');
  }

  lemma {:induction false} BarFreeKey(a: AuditRow, b: AuditRow)
    requires '|' !in a.action && '|' !in a.principalId && '|' !in a.timestamp && DedupeKey(a) == DedupeKey(b)
    ensures SameEvent(a, b)
  {
    Strings.SplitOfFree(a.action, '|');
    Strings.SplitOfFree(a.principalId, '|');
    Strings.SplitOfFree(a.timestamp, '|');
    PartsOfKey(a);
    PartsOfKey(b);
    var p, q, r := Strings.Split(b.action, '|'), Strings.Split(b.principalId, '|'), Strings.Split(b.timestamp, '|');
    assert |p| == |q| == |r| == 1;
    OnePart(b.action);
    OnePart(b.principalId);
    OnePart(b.timestamp);
    var one, other := [a.action, a.principalId, a.timestamp], [b.action, b.principalId, b.timestamp];
    assert one == [a.action] + [a.principalId] + [a.timestamp] == [b.action] + [b.principalId] + [b.timestamp] == other;
    assert one[0] == other[0] && one[1] == other[1] && one[2] == other[2];
  }

  /** A row shares its key with no row of another event if and only if it is free of bars. */
  lemma {:induction false} KeyIsOwnIffBarFree(a: AuditRow)
    ensures (forall b :: DedupeKey(b) == DedupeKey(a) ==> SameEvent(a, b))
            <==> '|' !in a.action && '|' !in a.principalId && '|' !in a.timestamp
  {
    if '|' in a.action {
      var b := BarInAction(a);
    } else if '|' in a.principalId {
      var b := BarInPrincipal(a);
    } else if '|' in a.timestamp {
      var b := BarInTimestamp(a);
    } else {
      forall b | DedupeKey(b) == DedupeKey(a) ensures SameEvent(a, b) { BarFreeKey(a, b); }
    }
  }

  // ---- first occurrences ----

  lemma {:induction false} KeysAre(rows: seq<AuditRow>, n: nat, k: string)
    requires n <= |rows|
    ensures k in Keys(rows, n) <==> exists i :: 0 <= i < n && DedupeKey(rows[i]) == k
  {
    if n > 0 {
      KeysAre(rows, n - 1, k);
      assert k == DedupeKey(rows[n - 1]) ==> k in Keys(rows, n);
    }
  }

  /** The position of the row that represents the event of rows[i]. */
  function FirstWith(rows: seq<AuditRow>, i: nat): (f: nat)
    requires i < |rows|
    ensures f <= i && DedupeKey(rows[f]) == DedupeKey(rows[i])
    ensures forall j :: 0 <= j < f ==> DedupeKey(rows[j]) != DedupeKey(rows[i])
  {
    FirstFrom(rows, i, 0)
  }

  function FirstFrom(rows: seq<AuditRow>, i: nat, from: nat): (f: nat)
    requires from <= i < |rows|
    requires forall j :: 0 <= j < from ==> DedupeKey(rows[j]) != DedupeKey(rows[i])
    ensures f <= i && DedupeKey(rows[f]) == DedupeKey(rows[i])
    ensures forall j :: 0 <= j < f ==> DedupeKey(rows[j]) != DedupeKey(rows[i])
    decreases i - from
  {
    if DedupeKey(rows[from]) == DedupeKey(rows[i]) then from else FirstFrom(rows, i, from + 1)
  }

  predicate IsFirst(rows: seq<AuditRow>, i: nat)
    requires i < |rows|
  {
    forall j :: 0 <= j < i ==> DedupeKey(rows[j]) != DedupeKey(rows[i])
  }

  lemma {:induction false} FirstsAreKept(rows: seq<AuditRow>, i: nat, n: nat)
    requires i < n <= |rows| && IsFirst(rows, i)
    ensures rows[i] in Firsts(rows, n)
  {
    if i < n - 1 {
      FirstsAreKept(rows, i, n - 1);
    } else {
      KeysAre(rows, i, DedupeKey(rows[i]));
    }
  }

  lemma {:induction false} KeptAreFirsts(rows: seq<AuditRow>, n: nat, x: AuditRow) returns (i: nat)
    requires n <= |rows| && x in Firsts(rows, n)
    ensures i < n && rows[i] == x && IsFirst(rows, i)
  {
    if x in Firsts(rows, n - 1) {
      i := KeptAreFirsts(rows, n - 1, x);
    } else {
      i := n - 1;
      KeysAre(rows, i, DedupeKey(x));
    }
  }

  lemma {:induction false} KeptOnce(rows: seq<AuditRow>, n: nat, x: AuditRow)
    requires n <= |rows| && x in Firsts(rows, n)
    ensures multiset(Firsts(rows, n))[x] == 1
  {
    var before := Firsts(rows, n - 1);
    if x in before {
      KeptOnce(rows, n - 1, x);
      KeptIsSeen(rows, n - 1, x);
    }
    CountSnoc(before, rows[n - 1], x);
  }

  lemma {:induction false} KeptIsSeen(rows: seq<AuditRow>, n: nat, x: AuditRow)
    requires n <= |rows| && x in Firsts(rows, n)
    ensures DedupeKey(x) in Keys(rows, n)
  {
    var i := KeptAreFirsts(rows, n, x);
    KeysAre(rows, n, DedupeKey(x));
  }

  lemma {:induction false} CountSnoc(a: seq<AuditRow>, y: AuditRow, x: AuditRow)
    ensures multiset(a + [y])[x] == multiset(a)[x] + if x == y then 1 else 0
    ensures a + [] == a
  {
  }

  // ---- what the table shows ----

  /** Each row that is read is represented by exactly one row of the table, and no other row there
      is about its event; with bar-free rows up to this one, the row in the table is about it. */
  lemma {:induction false} OneRowPerEvent(rows: seq<AuditRow>, out: seq<AuditRow>, i: nat)
    requires Shows(out, rows) && i < |rows|
    ensures multiset(out)[rows[FirstWith(rows, i)]] == 1
    ensures forall x :: x in out && SameEvent(x, rows[i]) ==> x == rows[FirstWith(rows, i)]
    ensures (forall j :: 0 <= j <= i ==> BarFree(rows[j])) ==> SameEvent(rows[FirstWith(rows, i)], rows[i])
  {
    var f := FirstWith(rows, i);
    FirstsAreKept(rows, f, |rows|);
    KeptOnce(rows, |rows|, rows[f]);
    if BarFree(rows[f]) && BarFree(rows[i]) { KeyNamesEvent(rows[f], rows[i]); }
    forall x | x in out && SameEvent(x, rows[i]) ensures x == rows[f] {
      assert x in multiset(out);
      var j := KeptAreFirsts(rows, |rows|, x);
    }
  }

  /** The table invents nothing. */
  lemma {:induction false} EveryRowIsGiven(rows: seq<AuditRow>, out: seq<AuditRow>, x: AuditRow)
    requires Shows(out, rows) && x in out
    ensures x in rows
  {
    assert x in multiset(out);
    var i := KeptAreFirsts(rows, |rows|, x);
  }

  /** The row says what row r of the history says, under its id. */
  predicate CopiesHistory(x: AuditRow, r: AuditLog) {
    && x.source == History && x.key == r.id && x.timestamp == r.createdAt
    && x.action == r.action && x.principalId == r.principalId && x.detail == r.detail
  }

  predicate CopiesLive(x: AuditRow, e: AuditEnvelope) {
    && x.source == Live && x.key == e.action + "|" + e.principalId + "|" + e.timestamp
    && IsAbout(x, e) && x.detail == e.detail
  }

  predicate IsAbout(x: AuditRow, e: AuditEnvelope) {
    x.action == e.action && x.principalId == e.principalId && x.timestamp == e.timestamp
  }

  /** Each row of the table says what one input says, field by field. */
  lemma {:induction false} RowsAreCopies(
    history: seq<AuditLog>, live: seq<AuditEnvelope>, out: seq<AuditRow>, x: AuditRow)
    requires Shows(out, Unified(history, live)) && x in out
    ensures || (exists i :: 0 <= i < |history| && CopiesHistory(x, history[i]))
            || (exists j :: 0 <= j < |live| && CopiesLive(x, live[j]))
  {
    var rows := Unified(history, live);
    EveryRowIsGiven(rows, out, x);
    var k :| 0 <= k < |rows| && rows[k] == x;
    if k < |history| {
      assert CopiesHistory(x, history[k]);
    } else {
      assert CopiesLive(x, live[k - |history|]);
    }
  }

  /** The table is ordered by timestamp, newest first: where two rows differ in it at some place, the
      one with the smaller character there does not stand above. */
  lemma {:induction false} NewerStandsAbove(rows: seq<AuditRow>, out: seq<AuditRow>, i: nat, j: nat, k: nat)
    requires Shows(out, rows) && i < |out| && j < |out| && DiffersAt(out[i].timestamp, out[j].timestamp, k)
    ensures j < i
  {
    DifferenceDecides(out[i].timestamp, out[j].timestamp, k);
    LessIrreflexive(out[i].timestamp);
  }

  /** An envelope whose event the history has too is represented by a row of the history, and no live
      row is about it. */
  lemma {:induction false} EnvelopeShownOnce(
    history: seq<AuditLog>, live: seq<AuditEnvelope>, out: seq<AuditRow>, j: nat, h: nat)
    requires Shows(out, Unified(history, live)) && j < |live| && h < |history|
    requires live[j].action == history[h].action && live[j].principalId == history[h].principalId
    requires live[j].timestamp == history[h].createdAt
    ensures forall x :: x in out && IsAbout(x, live[j]) ==> x.source == History
    ensures exists x :: x in out && x.source == History && DedupeKey(x) == DedupeKey(HistoryRowToUnified(history[h]))
  {
    HistoryWins(history, live, out, h);
    var rows := Unified(history, live);
    OneRowPerEvent(rows, out, h);
    assert rows[FirstWith(rows, h)] in multiset(out);
  }

  /** An event that only the live tail has is shown, by a live row. */
  lemma {:induction false} OnlyLiveIsShown(
    history: seq<AuditLog>, live: seq<AuditEnvelope>, out: seq<AuditRow>, j: nat)
    requires Shows(out, Unified(history, live)) && j < |live|
    requires forall h :: 0 <= h < |history| ==> BarFree(HistoryRowToUnified(history[h]))
    requires forall i :: 0 <= i <= j ==> BarFree(EnvelopeToUnified(live[i]))
    requires forall h :: 0 <= h < |history| ==>
               history[h].action != live[j].action || history[h].principalId != live[j].principalId
               || history[h].createdAt != live[j].timestamp
    ensures exists x :: x in out && x.source == Live && IsAbout(x, live[j])
  {
    var rows := Unified(history, live);
    var i := |history| + j;
    assert rows[i] == EnvelopeToUnified(live[j]);
    forall k | 0 <= k <= i ensures BarFree(rows[k]) {
      assert rows[k] == RowAt(history, live, k);
    }
    OneRowPerEvent(rows, out, i);
    var f := FirstWith(rows, i);
    assert rows[f] in multiset(out) && SameEvent(rows[f], rows[i]) && rows[f] == RowAt(history, live, f);
  }

  /** The f-th history row is the first one about the event of the h-th. */
  predicate FirstOfEvent(history: seq<AuditLog>, h: nat, f: nat)
    requires f <= h < |history|
  {
    && SameEvent(HistoryRowToUnified(history[f]), HistoryRowToUnified(history[h]))
    && forall g :: 0 <= g < f ==> !SameEvent(HistoryRowToUnified(history[g]), HistoryRowToUnified(history[h]))
  }

  /** An event that is in the history is shown by no live row, and with a bar-free history it is
      shown by its first history row, whatever the live rows contain. */
  lemma {:induction false} HistoryWins(
    history: seq<AuditLog>, live: seq<AuditEnvelope>, out: seq<AuditRow>, h: nat)
    requires Shows(out, Unified(history, live)) && h < |history|
    ensures forall x :: x in out && SameEvent(x, HistoryRowToUnified(history[h])) ==> x.source == History
    ensures (forall g :: 0 <= g <= h ==> BarFree(HistoryRowToUnified(history[g]))) ==>
              exists f: nat :: f <= h && FirstOfEvent(history, h, f) && HistoryRowToUnified(history[f]) in out
  {
    var rows := Unified(history, live);
    OneRowPerEvent(rows, out, h);
    var f := FirstWith(rows, h);
    assert forall g :: 0 <= g <= h ==> rows[g] == HistoryRowToUnified(history[g]);
    if forall g :: 0 <= g <= h ==> BarFree(HistoryRowToUnified(history[g])) {
      assert forall g :: 0 <= g <= h ==> BarFree(rows[g]);
      assert rows[f] in multiset(out);
      assert FirstOfEvent(history, h, f);
    }
  }

  /** The envelopes that have no row in the history yet. */
  function NotPersisted(history: seq<AuditLog>, live: seq<AuditEnvelope>): seq<AuditEnvelope> {
    if live == [] then []
    else
      var last := live[|live| - 1];
      NotPersisted(history, live[..|live| - 1])
      + if DedupeKey(EnvelopeToUnified(last)) in Keys(Unified(history, []), |history|) then [] else [last]
  }

  /** Live envelopes whose persisted version has arrived do not change what is shown. */
  lemma {:induction false} EchoesAreInvisible(history: seq<AuditLog>, live: seq<AuditEnvelope>)
    ensures FirstOfEach(Unified(history, live)) ==
            FirstOfEach(Unified(history, NotPersisted(history, live)))
  {
    SameEffect(history, live);
  }

  /** Two row lists from which the first occurrences and the keys are the same. */
  predicate Alike(a: seq<AuditRow>, b: seq<AuditRow>) {
    FirstOfEach(a) == FirstOfEach(b) && Keys(a, |a|) == Keys(b, |b|)
  }

  lemma {:induction false} PrefixDecides(a: seq<AuditRow>, row: AuditRow, n: nat)
    requires n <= |a|
    ensures Firsts(a + [row], n) == Firsts(a, n) && Keys(a + [row], n) == Keys(a, n)
  {
    if n > 0 { PrefixDecides(a, row, n - 1); }
  }

  lemma {:induction false} AlikeSnoc(a: seq<AuditRow>, b: seq<AuditRow>, row: AuditRow)
    requires Alike(a, b)
    ensures Alike(a + [row], b + [row])
    ensures DedupeKey(row) in Keys(a, |a|) ==> Alike(a + [row], b)
    ensures Keys(a, |a|) <= Keys(a + [row], |a| + 1)
  {
    PrefixDecides(a, row, |a|);
    PrefixDecides(b, row, |b|);
  }

  /** The whole tail and what is left of it without echoes have the same effect. */
  predicate EchoFree(history: seq<AuditLog>, live: seq<AuditEnvelope>) {
    && Alike(Unified(history, live), Unified(history, NotPersisted(history, live)))
    && Keys(Unified(history, []), |history|) <= Keys(Unified(history, live), |history| + |live|)
  }

  lemma {:induction false} EchoFreeSnoc(history: seq<AuditLog>, live: seq<AuditEnvelope>, e: AuditEnvelope)
    requires EchoFree(history, live)
    ensures EchoFree(history, live + [e])
  {
    NotPersistedSnoc(history, live, e);
    EffectSnoc(history, live, NotPersisted(history, live), e);
  }

  lemma {:induction false} SameEffect(history: seq<AuditLog>, live: seq<AuditEnvelope>)
    ensures EchoFree(history, live)
  {
    if live == [] {
      assert NotPersisted(history, live) == live;
    } else {
      SameEffect(history, live[..|live| - 1]);
      EchoFreeSnoc(history, live[..|live| - 1], live[|live| - 1]);
      assert live == live[..|live| - 1] + [live[|live| - 1]];
    }
  }

  lemma {:induction false} EffectSnoc(
    history: seq<AuditLog>, live: seq<AuditEnvelope>, kept: seq<AuditEnvelope>, e: AuditEnvelope)
    requires Alike(Unified(history, live), Unified(history, kept))
    requires Keys(Unified(history, []), |history|) <= Keys(Unified(history, live), |history| + |live|)
    ensures Alike(Unified(history, live + [e]), Unified(history, kept + [e]))
    ensures DedupeKey(EnvelopeToUnified(e)) in Keys(Unified(history, []), |history|)
            ==> Alike(Unified(history, live + [e]), Unified(history, kept + []))
    ensures Keys(Unified(history, []), |history|) <= Keys(Unified(history, live + [e]), |history| + |live| + 1)
  {
    UnifiedSnoc(history, live, e);
    UnifiedSnoc(history, kept, e);
    AlikeSnoc(Unified(history, live), Unified(history, kept), EnvelopeToUnified(e));
    assert kept + [] == kept;
  }

  lemma {:induction false} UnifiedSnoc(history: seq<AuditLog>, live: seq<AuditEnvelope>, e: AuditEnvelope)
    ensures Unified(history, live + [e]) == Unified(history, live) + [EnvelopeToUnified(e)]
  {
    var now, before := Unified(history, live + [e]), Unified(history, live);
    assert forall k :: 0 <= k < |before| ==> now[k] == before[k];
  }

  lemma {:induction false} NotPersistedSnoc(history: seq<AuditLog>, live: seq<AuditEnvelope>, e: AuditEnvelope)
    ensures NotPersisted(history, live + [e]) == NotPersisted(history, live)
            + if DedupeKey(EnvelopeToUnified(e)) in Keys(Unified(history, []), |history|) then [] else [e]
  {
    assert (live + [e])[..|live|] == live;
  }
}
