/** `audit.list` of packages/db/src/index.ts and the paging state machine of
    frontend/src/routes/Audit.tsx. The table keeps microseconds, the cursor milliseconds. Rows
    may have equal timestamps, and each query may find those in another order. */
module AuditPaging {
  import opened AuditRows
  import opened Options
  import opened OrderedMap

  // ---- the table and the query ----

  /** A row of audit_log; `createdAt` in microseconds, as PostgreSQL keeps it. */
  datatype StoredRow = StoredRow(id: string, createdAt: nat, action: string, principalId: string, detail: Detail)

  datatype Filters = Filters(action: Option<string>, principalId: Option<string>)

  predicate Matches(f: Filters, r: StoredRow) {
    && (f.action.Some? ==> r.action == f.action.value)
    && (f.principalId.Some? ==> r.principalId == f.principalId.value)
  }

  function Matching(log: seq<StoredRow>, f: Filters): seq<StoredRow> {
    if log == [] then []
    else
      var last := log[|log| - 1];
      Matching(log[..|log| - 1], f) + if Matches(f, last) then [last] else []
  }

  /** What a JavaScript Date keeps of a timestamp. */
  function Millis(r: StoredRow): nat {
    r.createdAt / 1000
  }

  /** `$3 IS NULL OR created_at < $3`, for a cursor in milliseconds. */
  predicate Older(r: StoredRow, before: Option<nat>) {
    before.Some? ==> r.createdAt < before.value * 1000
  }

  function Below(rows: seq<StoredRow>, before: Option<nat>): seq<StoredRow> {
    if rows == [] then []
    else
      var last := rows[|rows| - 1];
      Below(rows[..|rows| - 1], before) + if Older(last, before) then [last] else []
  }

  function Min(a: nat, b: nat): nat {
    if a < b then a else b
  }

  /** The page that the query returns when it finds the log in this order. */
  function List(order: seq<StoredRow>, f: Filters, before: Option<nat>, limit: nat): seq<StoredRow> {
    var rows := Below(Matching(order, f), before);
    rows[..Min(limit, |rows|)]
  }

  predicate Descending(rows: seq<StoredRow>) {
    forall i, j :: 0 <= i < j < |rows| ==> rows[i].createdAt >= rows[j].createdAt
  }

  predicate Distinct(rows: seq<StoredRow>) {
    forall i, j :: 0 <= i < j < |rows| ==> rows[i] != rows[j]
  }

  /** The rows of a log, newest first: ORDER BY leaves the order of equal timestamps open. */
  ghost predicate Arrangement(order: seq<StoredRow>, log: seq<StoredRow>) {
    Descending(order) && Distinct(order) && forall x :: x in order <==> x in log
  }

  lemma {:induction false} MatchingIs(log: seq<StoredRow>, f: Filters, r: StoredRow)
    ensures r in Matching(log, f) <==> r in log && Matches(f, r)
  {
    if log != [] {
      var n := |log| - 1;
      MatchingIs(log[..n], f, r);
      assert log == log[..n] + [log[n]];
    }
  }

  lemma {:induction false} MatchingDescends(log: seq<StoredRow>, f: Filters)
    requires Descending(log) && Distinct(log)
    ensures Descending(Matching(log, f)) && Distinct(Matching(log, f))
  {
    if log != [] {
      var n := |log| - 1;
      MatchingDescends(log[..n], f);
      var rows := Matching(log[..n], f);
      forall i | 0 <= i < |rows| ensures rows[i].createdAt >= log[n].createdAt && rows[i] != log[n] {
        MatchingIs(log[..n], f, rows[i]);
      }
    }
  }

  lemma {:induction false} MatchingArranged(order: seq<StoredRow>, log: seq<StoredRow>, f: Filters)
    requires Arrangement(order, log)
    ensures Arrangement(Matching(order, f), Matching(log, f))
  {
    MatchingDescends(order, f);
    forall x ensures x in Matching(order, f) <==> x in Matching(log, f) {
      MatchingIs(order, f, x);
      MatchingIs(log, f, x);
    }
  }

  // ---- two arrangements differ in equal timestamps only ----

  function Elements(rows: seq<StoredRow>): (e: set<StoredRow>)
    ensures |e| <= |rows|
    ensures forall x :: x in e <==> x in rows
  {
    if rows == [] then {} else Elements(rows[..|rows| - 1]) + {rows[|rows| - 1]}
  }

  /** Distinct rows do not fit into fewer places. */
  lemma {:induction false} NoMoreThan(a: seq<StoredRow>, b: seq<StoredRow>)
    requires Distinct(a) && forall i :: 0 <= i < |a| ==> a[i] in b
    ensures |a| <= |b|
  {
    DistinctSize(a, Elements(b));
  }

  lemma {:induction false} NotAbove(a: seq<StoredRow>, b: seq<StoredRow>, i: nat)
    requires Arrangement(a, b) && Arrangement(b, a) && i < |a| && i < |b|
    ensures a[i].createdAt <= b[i].createdAt
  {
    if a[i].createdAt > b[i].createdAt {
      var newer := a[..i + 1];
      forall k | 0 <= k < |newer| ensures newer[k] in b[..i] {
        assert newer[k] in a;
        var j :| 0 <= j < |b| && b[j] == newer[k];
        assert j < i && b[..i][j] == newer[k];
      }
      NoMoreThan(newer, b[..i]);
    }
  }

  lemma {:induction false} SameProfile(a: seq<StoredRow>, b: seq<StoredRow>)
    requires Arrangement(a, b) && Arrangement(b, a)
    ensures |a| == |b| && forall i :: 0 <= i < |a| ==> a[i].createdAt == b[i].createdAt
  {
    NoMoreThan(a, b);
    NoMoreThan(b, a);
    forall i | 0 <= i < |a| ensures a[i].createdAt == b[i].createdAt {
      NotAbove(a, b, i);
      NotAbove(b, a, i);
    }
  }

  // ---- pages ----

  /** In a descending list, the rows below a cursor are a suffix. */
  lemma {:induction false} BelowIsSuffix(rows: seq<StoredRow>, before: Option<nat>) returns (s: nat)
    requires Descending(rows)
    ensures s <= |rows| && Below(rows, before) == rows[s..]
    ensures forall i :: 0 <= i < s ==> !Older(rows[i], before)
    ensures forall i :: s <= i < |rows| ==> Older(rows[i], before)
  {
    s := Cut(rows, before, |rows|);
    BelowOfCut(rows, before, s);
  }

  /** Where the rows below the cursor begin, if those from n on are below it. */
  lemma {:induction false} Cut(rows: seq<StoredRow>, before: Option<nat>, n: nat) returns (s: nat)
    requires Descending(rows) && n <= |rows| && forall i :: n <= i < |rows| ==> Older(rows[i], before)
    ensures s <= n
    ensures forall i :: 0 <= i < s ==> !Older(rows[i], before)
    ensures forall i :: s <= i < |rows| ==> Older(rows[i], before)
  {
    if n > 0 && Older(rows[n - 1], before) {
      s := Cut(rows, before, n - 1);
    } else {
      s := n;
      forall i | 0 <= i < n ensures !Older(rows[i], before) {
        if i < n - 1 && Older(rows[i], before) { OlderStill(rows[i], rows[n - 1], before); }
      }
    }
  }

  lemma {:induction false} BelowOfCut(rows: seq<StoredRow>, before: Option<nat>, s: nat)
    requires s <= |rows|
    requires forall i :: 0 <= i < s ==> !Older(rows[i], before)
    requires forall i :: s <= i < |rows| ==> Older(rows[i], before)
    ensures Below(rows, before) == rows[s..]
  {
    if rows != [] {
      var init, last := rows[..|rows| - 1], rows[|rows| - 1];
      assert rows == init + [last];
      if s == |rows| {
        BelowOfCut(init, before, |init|);
      } else {
        BelowOfCut(init, before, s);
        SuffixSnoc(init, last, s);
      }
    }
  }

  lemma {:induction false} SuffixSnoc(init: seq<StoredRow>, last: StoredRow, s: nat)
    requires s <= |init|
    ensures (init + [last])[s..] == init[s..] + [last]
  {
  }

  lemma {:induction false} OlderStill(a: StoredRow, b: StoredRow, before: Option<nat>)
    requires Older(a, before) && a.createdAt >= b.createdAt
    ensures Older(b, before)
  {
  }

  /** A page is a stretch of the matching rows that begins at the first row below the cursor. */
  lemma {:induction false} PageIsSlice(
    order: seq<StoredRow>, f: Filters, before: Option<nat>, limit: nat) returns (s: nat)
    requires Descending(order) && Distinct(order)
    ensures Descending(Matching(order, f)) && Distinct(Matching(order, f)) && s <= |Matching(order, f)|
    ensures List(order, f, before, limit) == Matching(order, f)[s..Min(s + limit, |Matching(order, f)|)]
    ensures forall i :: 0 <= i < s ==> !Older(Matching(order, f)[i], before)
    ensures forall i :: s <= i < |Matching(order, f)| ==> Older(Matching(order, f)[i], before)
  {
    MatchingDescends(order, f);
    s := BelowIsSuffix(Matching(order, f), before);
  }

  /** The row has the action and the principal that the filters ask for, and lies before the cursor. */
  predicate Asked(f: Filters, before: Option<nat>, r: StoredRow) {
    && (f.action == None || f.action == Some(r.action))
    && (f.principalId == None || f.principalId == Some(r.principalId))
    && (before == None || r.createdAt < before.value * 1000)
  }

  lemma {:induction false} AskedMeans(f: Filters, before: Option<nat>, r: StoredRow)
    ensures Asked(f, before, r) <==> Matches(f, r) && Older(r, before)
  {
  }

  /** The page is the newest rows that are asked for, and a short page is the last one. */
  lemma {:induction false} PageIsNewestBelow(
    order: seq<StoredRow>, f: Filters, before: Option<nat>, limit: nat, r: StoredRow)
    requires Descending(order) && Distinct(order)
    ensures r in List(order, f, before, limit) ==> r in order && Asked(f, before, r)
    ensures r in order && Asked(f, before, r) && r !in List(order, f, before, limit) ==>
              |List(order, f, before, limit)| == limit
              && forall x :: x in List(order, f, before, limit) ==> x.createdAt >= r.createdAt
    ensures var rows := List(order, f, before, limit); |rows| <= limit && Descending(rows) && Distinct(rows)
  {
    MatchingIs(order, f, r);
    AskedMeans(f, before, r);
    var s := PageIsSlice(order, f, before, limit);
    SliceHoldsNewest(Matching(order, f), s, limit, r, before);
  }

  lemma {:induction false} SliceHoldsNewest(
    rows: seq<StoredRow>, s: nat, limit: nat, r: StoredRow, before: Option<nat>)
    requires Descending(rows) && s <= |rows|
    requires forall i :: 0 <= i < s ==> !Older(rows[i], before)
    requires forall i :: s <= i < |rows| ==> Older(rows[i], before)
    ensures r in rows[s..Min(s + limit, |rows|)] ==> r in rows && Older(r, before)
    ensures r in rows && Older(r, before) && r !in rows[s..Min(s + limit, |rows|)] ==>
              s + limit < |rows| && forall x :: x in rows[s..s + limit] ==> x.createdAt >= r.createdAt
  {
    var e := Min(s + limit, |rows|);
    assert forall i :: s <= i < e ==> rows[s..e][i - s] == rows[i];
    if r in rows && Older(r, before) && r !in rows[s..e] {
      var i :| 0 <= i < |rows| && rows[i] == r;
      assert i >= e;
    }
  }

  // ---- the route ----

  /** The signals of the route. `page` is the latest page that landed, empty before the first one;
      `pending` says that the resource waits for the page of `filters` and `before`. */
  datatype Ui = Ui(filters: Filters, before: Option<nat>, history: seq<StoredRow>, page: seq<StoredRow>, pending: bool)

  const START := Ui(Filters(None, None), None, [], [], true)

  /** `order` is the order in which the query finds the log; `again` counts how often the effect
      that mirrors the page into the history runs once more. */
  datatype Event =
    | Land(order: seq<StoredRow>, again: nat)
    | LoadMore(again: nat)
    | ChangeFilters(filters: Filters)

  /** A run over a log that does not change. */
  ghost predicate IsRun(log: seq<StoredRow>, events: seq<Event>) {
    forall k :: 0 <= k < |events| && events[k].Land? ==> Arrangement(events[k].order, log)
  }

  /** `handlePageLanded`. */
  function Landed(before: Option<nat>, history: seq<StoredRow>, rows: seq<StoredRow>): seq<StoredRow> {
    if before == None then rows else history + rows
  }

  function LandedTimes(before: Option<nat>, history: seq<StoredRow>, rows: seq<StoredRow>, n: nat): seq<StoredRow> {
    if n == 0 then history else Landed(before, LandedTimes(before, history, rows, n - 1), rows)
  }

  function Next(pageSize: nat, ui: Ui, e: Event): Ui {
    match e
    case Land(order, again) =>
      if !ui.pending then ui
      else
        var page := List(order, ui.filters, ui.before, pageSize);
        ui.(history := LandedTimes(ui.before, ui.history, page, again + 1), page := page, pending := false)
    case LoadMore(again) =>
      if ui.history == [] then ui
      else
        var cursor := Some(Millis(ui.history[|ui.history| - 1]));
        // A signal that keeps its value wakes nobody.
        if cursor == ui.before then ui
        else ui.(before := cursor, history := LandedTimes(cursor, ui.history, ui.page, again), pending := true)
    case ChangeFilters(f) =>
      ui.(filters := f, before := None, history := [], pending := true)
  }

  function Exec(pageSize: nat, events: seq<Event>): Ui {
    if events == [] then START
    else Next(pageSize, Exec(pageSize, events[..|events| - 1]), events[|events| - 1])
  }

  class Route {
    var filters: Filters
    var before: Option<nat>
    var history: seq<StoredRow>
    var page: seq<StoredRow>
    var pending: bool

    function View(): Ui
      reads this
    {
      Ui(filters, before, history, page, pending)
    }

    constructor ()
      ensures View() == START
    {
      filters, before, history, page, pending := Filters(None, None), None, [], [], true;
    }

    method HandlePageLanded(rows: seq<StoredRow>)
      modifies this`history
      ensures history == if before == None then rows else old(history) + rows
    {
      if before == None {
        history := rows;
      } else {
        history := history + rows;
      }
    }

    /** The effect that mirrors the page, as often as it runs. */
    method Mirror(times: nat)
      modifies this`history
      ensures history == LandedTimes(before, old(history), page, times)
    {
      for i := 0 to times
        invariant history == LandedTimes(before, old(history), page, i)
      {
        HandlePageLanded(page);
      }
    }

    /** The resource settles. */
    method PageArrives(order: seq<StoredRow>, pageSize: nat, again: nat)
      modifies this
      ensures !pending && before == old(before) && filters == old(filters)
      ensures !old(pending) ==> View() == old(View())
      ensures old(pending) ==> page == List(order, filters, before, pageSize)
      ensures old(pending) && again == 0 ==> history == if before == None then page else old(history) + page
      ensures View() == Next(pageSize, old(View()), Land(order, again))
    {
      if pending {
        page := List(order, filters, before, pageSize);
        pending := false;
        Mirror(again + 1);
      }
    }

    method HandleFiltersChange(next: Filters)
      modifies this
      ensures filters == next && before == None && history == [] && pending && page == old(page)
      ensures forall pageSize: nat :: View() == Next(pageSize, old(View()), ChangeFilters(next))
    {
      before := None;
      history := [];
      filters := next;
      pending := true;
    }

    method HandleLoadMore(again: nat)
      modifies this
      ensures old(history) == [] ==> View() == old(View())
      ensures old(history) != [] ==> before == Some(old(history)[|old(history)| - 1].createdAt / 1000)
      ensures before == old(before) ==> View() == old(View())
      ensures before != old(before) ==> pending && filters == old(filters) && page == old(page)
      ensures again == 0 ==> history == old(history)
      ensures forall pageSize: nat :: View() == Next(pageSize, old(View()), LoadMore(again))
    {
      if history == [] { return; }
      var cursor := Some(Millis(history[|history| - 1]));
      if cursor != before {
        before := cursor;
        pending := true;
        Mirror(again);
      }
    }
  }

  // ---- what every run keeps ----

  lemma {:induction false} LandedMeans(before: Option<nat>, history: seq<StoredRow>, rows: seq<StoredRow>, n: nat)
    requires n > 0 || before != None
    ensures forall x :: x in LandedTimes(before, history, rows, n) <==>
                        (before != None && x in history) || (n > 0 && x in rows)
    ensures rows != [] && n > 0 ==>
              LandedTimes(before, history, rows, n) != []
              && Last(LandedTimes(before, history, rows, n)) == Last(rows)
    ensures rows == [] || n == 0 ==>
              LandedTimes(before, history, rows, n) == if before == None then rows else history
  {
    if n > 1 || (n == 1 && before != None) { LandedMeans(before, history, rows, n - 1); }
  }

  function Last(rows: seq<StoredRow>): StoredRow
    requires rows != []
  {
    rows[|rows| - 1]
  }

  /** Cursors only move back in time, and the history holds matching rows. */
  ghost predicate Inv(log: seq<StoredRow>, ui: Ui) {
    && (ui.before == None && ui.pending ==> ui.history == [])
    && (ui.before != None ==> ui.history != [])
    && (ui.before != None ==> Millis(Last(ui.history)) <= ui.before.value)
    && (ui.before != None && ui.pending ==> Millis(Last(ui.history)) == ui.before.value)
    && (ui.history != [] && ui.page != [] ==> Last(ui.page) == Last(ui.history))
    && (ui.history != [] ==> forall x :: x in ui.page ==> x in ui.history)
    && (forall x :: x in ui.history ==> x in log && Matches(ui.filters, x))
  }

  lemma {:induction false} PageMatches(order: seq<StoredRow>, f: Filters, before: Option<nat>, pageSize: nat)
    requires Descending(order) && Distinct(order)
    ensures forall x :: x in List(order, f, before, pageSize) ==> x in order && Matches(f, x) && Older(x, before)
  {
    forall x | x in List(order, f, before, pageSize) ensures x in order && Matches(f, x) && Older(x, before) {
      PageIsNewestBelow(order, f, before, pageSize, x);
      AskedMeans(f, before, x);
    }
  }

  lemma {:induction false} StepKeepsInv(log: seq<StoredRow>, pageSize: nat, ui: Ui, e: Event)
    requires pageSize > 0 && Inv(log, ui) && (e.Land? ==> Arrangement(e.order, log))
    ensures Inv(log, Next(pageSize, ui, e))
  {
    match e
    case Land(order, again) =>
      if ui.pending {
        var page := List(order, ui.filters, ui.before, pageSize);
        PageMatches(order, ui.filters, ui.before, pageSize);
        LandedMeans(ui.before, ui.history, page, again + 1);
        if page != [] { assert Last(page) in page; }
      }
    case LoadMore(again) =>
      if ui.history != [] {
        var cursor := Some(Millis(Last(ui.history)));
        LandedMeans(cursor, ui.history, ui.page, again);
      }
    case ChangeFilters(f) =>
  }

  lemma {:induction false} RunKeepsInv(log: seq<StoredRow>, pageSize: nat, events: seq<Event>)
    requires IsRun(log, events) && pageSize > 0
    ensures Inv(log, Exec(pageSize, events))
  {
    if events != [] {
      RunKeepsInv(log, pageSize, events[..|events| - 1]);
      StepKeepsInv(log, pageSize, Exec(pageSize, events[..|events| - 1]), events[|events| - 1]);
    }
  }

  // ---- the filters are those that were chosen ----

  /** The page asks for what was chosen last. */
  lemma {:induction false} LastChoiceCounts(pageSize: nat, events: seq<Event>, i: nat)
    requires i < |events| && events[i].ChangeFilters?
    requires forall j :: i < j < |events| ==> !events[j].ChangeFilters?
    ensures Exec(pageSize, events).filters == events[i].filters
  {
    if i < |events| - 1 {
      LastChoiceCounts(pageSize, events[..|events| - 1], i);
      KeepsFilters(pageSize, Exec(pageSize, events[..|events| - 1]), events[|events| - 1]);
    }
  }

  /** Before a choice it asks for everything. */
  lemma {:induction false} NoChoiceAsksForAll(pageSize: nat, events: seq<Event>)
    requires forall j :: 0 <= j < |events| ==> !events[j].ChangeFilters?
    ensures Exec(pageSize, events).filters == Filters(None, None)
  {
    if events != [] {
      NoChoiceAsksForAll(pageSize, events[..|events| - 1]);
      KeepsFilters(pageSize, Exec(pageSize, events[..|events| - 1]), events[|events| - 1]);
    }
  }

  lemma {:induction false} KeepsFilters(pageSize: nat, ui: Ui, e: Event)
    requires !e.ChangeFilters?
    ensures Next(pageSize, ui, e).filters == ui.filters
  {
  }

  /** Whatever was chosen and loaded before, the history holds rows of the log with the action and the
      principal that were chosen last, and only those. */
  lemma {:induction false} HistoryIsAsChosen(
    log: seq<StoredRow>, pageSize: nat, events: seq<Event>, i: nat, r: StoredRow)
    requires IsRun(log, events) && pageSize > 0 && r in Exec(pageSize, events).history
    requires i < |events| && events[i].ChangeFilters?
    requires forall j :: i < j < |events| ==> !events[j].ChangeFilters?
    ensures r in log
    ensures events[i].filters.action == None || r.action == events[i].filters.action.value
    ensures events[i].filters.principalId == None || r.principalId == events[i].filters.principalId.value
  {
    RunKeepsInv(log, pageSize, events);
    LastChoiceCounts(pageSize, events, i);
  }

  // ---- the cursor moves back ----

  /** Load more either changes nothing or asks for strictly older rows. */
  lemma {:induction false} CursorDecreases(log: seq<StoredRow>, pageSize: nat, events: seq<Event>, again: nat)
    requires IsRun(log, events) && pageSize > 0
    ensures var ui := Exec(pageSize, events);
            var ui' := Next(pageSize, ui, LoadMore(again));
            ui' == ui
            || (ui'.before.Some? && ui'.pending && (ui.before.Some? ==> ui'.before.value < ui.before.value))
  {
    RunKeepsInv(log, pageSize, events);
  }

  /** The matching rows that the cursor has not passed. */
  function Left(log: seq<StoredRow>, ui: Ui): nat {
    |Below(Matching(log, ui.filters), ui.before)|
  }

  predicate Effective(ui: Ui, e: Event) {
    e.LoadMore? && ui.history != [] && ui.before != Some(Millis(Last(ui.history)))
  }

  lemma {:induction false} LoadMoreConsumes(log: seq<StoredRow>, pageSize: nat, ui: Ui, e: Event)
    requires pageSize > 0 && Inv(log, ui) && Effective(ui, e)
    ensures Left(log, Next(pageSize, ui, e)) < Left(log, ui)
  {
    var r := Last(ui.history);
    MatchingIs(log, ui.filters, r);
    CursorAfter(log, pageSize, ui, e);
    CursorConsumes(Matching(log, ui.filters), r, ui.before);
  }

  /** An effective request moves the cursor to the last row of the history. */
  lemma {:induction false} CursorAfter(log: seq<StoredRow>, pageSize: nat, ui: Ui, e: Event)
    requires Inv(log, ui) && Effective(ui, e)
    ensures var r, ui' := Last(ui.history), Next(pageSize, ui, e);
            && ui'.before == Some(Millis(r)) && ui'.filters == ui.filters
            && r in log && Matches(ui.filters, r)
            && (ui.before.Some? ==> Millis(r) < ui.before.value)
  {
    assert Last(ui.history) in ui.history;
  }

  lemma {:induction false} MillisBelow(createdAt: nat, v: nat)
    requires createdAt / 1000 < v
    ensures createdAt < v * 1000
  {
  }

  lemma {:induction false} MillisNotAbove(createdAt: nat)
    ensures createdAt / 1000 * 1000 <= createdAt
  {
  }

  lemma {:induction false} CursorConsumes(rows: seq<StoredRow>, r: StoredRow, before: Option<nat>)
    requires r in rows && (before.Some? ==> Millis(r) < before.value)
    ensures |Below(rows, Some(Millis(r)))| < |Below(rows, before)|
  {
    if before.Some? { MillisBelow(r.createdAt, before.value); }
    MillisNotAbove(r.createdAt);
    BelowShrinks(rows, r, before, Some(Millis(r)));
  }

  /** An earlier cursor leaves fewer rows, in whatever order they come. */
  lemma {:induction false} BelowShrinks(rows: seq<StoredRow>, r: StoredRow, before: Option<nat>, cursor: Option<nat>)
    requires cursor.Some? && (before.Some? ==> cursor.value <= before.value)
    ensures |Below(rows, cursor)| <= |Below(rows, before)|
    ensures r in rows && Older(r, before) && !Older(r, cursor) ==> |Below(rows, cursor)| < |Below(rows, before)|
  {
    if rows != [] {
      var n := |rows| - 1;
      BelowShrinks(rows[..n], r, before, cursor);
      assert rows == rows[..n] + [rows[n]];
    }
  }

  /** The effective load requests of a run since the filters last changed. */
  function Loads(pageSize: nat, events: seq<Event>): nat {
    if events == [] then 0
    else
      var init, e := events[..|events| - 1], events[|events| - 1];
      if e.ChangeFilters? then 0
      else Loads(pageSize, init) + if Effective(Exec(pageSize, init), e) then 1 else 0
  }

  /** However the events interleave, one set of filters is loaded with at most as many requests
      as it has rows. */
  lemma {:induction false} PagingTerminates(log: seq<StoredRow>, pageSize: nat, events: seq<Event>)
    requires IsRun(log, events) && pageSize > 0
    ensures var ui := Exec(pageSize, events);
            Loads(pageSize, events) + Left(log, ui) <= |Matching(log, ui.filters)|
  {
    if events == [] {
      BelowNothing(Matching(log, START.filters));
    } else {
      var init, e := events[..|events| - 1], events[|events| - 1];
      var ui := Exec(pageSize, init);
      PagingTerminates(log, pageSize, init);
      RunKeepsInv(log, pageSize, init);
      if e.ChangeFilters? {
        BelowNothing(Matching(log, e.filters));
      } else if Effective(ui, e) {
        LoadMoreConsumes(log, pageSize, ui, e);
      }
    }
  }

  lemma {:induction false} BelowNothing(rows: seq<StoredRow>)
    ensures Below(rows, None) == rows
  {
    if rows != [] {
      BelowNothing(rows[..|rows| - 1]);
      assert rows == rows[..|rows| - 1] + [Last(rows)];
    }
  }

  // ---- completeness ----

  /** A positive multiple of the page size. */
  predicate Boundary(b: nat, pageSize: nat)
    requires pageSize > 0
  {
    b >= pageSize && (b == pageSize || Boundary(b - pageSize, pageSize))
  }

  /** The millisecond changes where a run of full pages ends. */
  predicate Clean(rows: seq<StoredRow>, pageSize: nat, n: nat)
    requires pageSize > 0 && n <= |rows|
  {
    forall b :: 0 < b < n && Boundary(b, pageSize) ==> Millis(rows[b]) < Millis(rows[b - 1])
  }

  /** The history is exactly the first `read` rows, whole pages of them. */
  ghost predicate Aligned(rows: seq<StoredRow>, pageSize: nat, ui: Ui, read: nat)
    requires pageSize > 0
  {
    && read <= |rows|
    && (forall x :: x in ui.history <==> x in rows[..read])
    && (ui.history != [] ==> read > 0 && Last(ui.history).createdAt == rows[read - 1].createdAt)
    && (ui.history == [] ==> read == 0)
    && Clean(rows, pageSize, read)
    && (read == |rows| || read == 0 || Boundary(read, pageSize))
    && (!ui.pending && |ui.page| != pageSize ==> read == |rows|)
  }

  /** The cursor has passed a row that the history does not have. */
  ghost predicate Passed(rows: seq<StoredRow>, ui: Ui) {
    ui.before.Some? && exists x :: x in rows && x !in ui.history && !Older(x, ui.before)
  }

  /** Nothing is lost in some order of the rows, or something is, at an unclean boundary. */
  ghost predicate Sound(rows: seq<StoredRow>, pageSize: nat, ui: Ui)
    requires pageSize > 0
  {
    || (exists a, read: nat :: Arrangement(a, rows) && Aligned(a, pageSize, ui, read))
    || (Passed(rows, ui) && !Clean(rows, pageSize, |rows|))
  }

  lemma {:induction false} NextBoundary(a: nat, b: nat, pageSize: nat)
    requires pageSize > 0 && (a == 0 || Boundary(a, pageSize))
    ensures Boundary(a + pageSize, pageSize)
    ensures a < b < a + pageSize ==> !Boundary(b, pageSize)
  {
    if a > 0 && b > a { NextBoundary(a - pageSize, b - pageSize, pageSize); }
  }

  lemma {:induction false} CleanExtends(rows: seq<StoredRow>, pageSize: nat, read: nat, n: nat)
    requires pageSize > 0 && read < n <= |rows| && n <= read + pageSize && Clean(rows, pageSize, read)
    requires read == 0 || (Boundary(read, pageSize) && Millis(rows[read]) < Millis(rows[read - 1]))
    ensures Clean(rows, pageSize, n)
    ensures n == read + pageSize ==> Boundary(n, pageSize)
  {
    NextBoundary(read, read, pageSize);
    forall b | 0 < b < n && Boundary(b, pageSize) ensures Millis(rows[b]) < Millis(rows[b - 1]) {
      NextBoundary(read, b, pageSize);
    }
  }

  lemma {:induction false} SameClean(a: seq<StoredRow>, b: seq<StoredRow>, pageSize: nat, n: nat)
    requires pageSize > 0 && Arrangement(a, b) && Arrangement(b, a) && n <= |a| && n <= |b|
    ensures Clean(a, pageSize, n) <==> Clean(b, pageSize, n)
  {
    SameProfile(a, b);
  }

  lemma {:induction false} Spliced(rows: seq<StoredRow>, read: nat, n: nat)
    requires read <= n <= |rows|
    ensures forall x :: x in rows[..n] <==> x in rows[..read] || x in rows[read..n]
  {
    assert rows[..n] == rows[..read] + rows[read..n];
  }

  /** A clean boundary: the next page begins where the history ends. */
  lemma {:induction false} PageExtends(
    rows: seq<StoredRow>, pageSize: nat, ui: Ui, ui': Ui, read: nat, n: nat)
    requires pageSize > 0 && Aligned(rows, pageSize, ui, read) && (read == 0 || Boundary(read, pageSize))
    requires read < |rows| && (read > 0 ==> Millis(rows[read]) < Millis(rows[read - 1]))
    requires n == Min(read + pageSize, |rows|) && ui'.page == rows[read..n]
    requires ui'.history != [] && Last(ui'.history) == Last(ui'.page)
    requires forall x :: x in ui'.history <==> x in ui.history || x in ui'.page
    ensures Aligned(rows, pageSize, ui', n)
  {
    CleanExtends(rows, pageSize, read, n);
    Spliced(rows, read, n);
  }

  /** At a clean boundary, the order in which the rows have been found no longer matters. */
  lemma {:induction false} Rearranged(a: seq<StoredRow>, b: seq<StoredRow>, pageSize: nat, ui: Ui, read: nat)
    requires pageSize > 0 && Arrangement(a, b) && Arrangement(b, a) && Aligned(a, pageSize, ui, read)
    requires read < |a| && (read > 0 ==> a[read].createdAt < a[read - 1].createdAt)
    ensures Aligned(b, pageSize, ui, read)
  {
    SameProfile(a, b);
    SameClean(a, b, pageSize, read);
    SamePrefix(a, b, read);
    SamePrefix(b, a, read);
  }

  lemma {:induction false} SamePrefix(a: seq<StoredRow>, b: seq<StoredRow>, read: nat)
    requires Arrangement(a, b) && Arrangement(b, a)
    requires read < |a| && (read > 0 ==> a[read].createdAt < a[read - 1].createdAt)
    ensures read < |b| && forall x :: x in a[..read] ==> x in b[..read]
  {
    SameProfile(a, b);
    forall x | x in a[..read] ensures x in b[..read] {
      var i :| 0 <= i < read && a[..read][i] == x;
      assert a[i] in a && x.createdAt >= a[read - 1].createdAt;
      var j :| 0 <= j < |b| && b[j] == x;
      assert j < read && b[..read][j] == x;
    }
  }

  /** The state after a landing, in terms of the rows as the query finds them. */
  lemma {:induction false} LandIs(log: seq<StoredRow>, order: seq<StoredRow>, pageSize: nat, ui: Ui, again: nat)
    returns (s: nat)
    requires Arrangement(order, log) && pageSize > 0 && Inv(log, ui) && ui.pending
    ensures Landing(Matching(order, ui.filters), pageSize, ui, Next(pageSize, ui, Land(order, again)), s)
  {
    s := PageIsSlice(order, ui.filters, ui.before, pageSize);
    PageMatches(order, ui.filters, ui.before, pageSize);
    MirrorIs(log, ui, Next(pageSize, ui, Land(order, again)), List(order, ui.filters, ui.before, pageSize), again);
  }

  ghost predicate Landing(rows: seq<StoredRow>, pageSize: nat, ui: Ui, ui': Ui, s: nat) {
    && s <= |rows|
    && ui'.page == rows[s..Min(s + pageSize, |rows|)]
    && ui'.before == ui.before
    && (forall i :: 0 <= i < s ==> !Older(rows[i], ui.before))
    && (forall i :: s <= i < |rows| ==> Older(rows[i], ui.before))
    && (forall x :: x in ui'.history <==> x in ui.history || x in ui'.page)
    && (forall x :: x in ui'.page ==> Older(x, ui.before))
    && (ui'.page != [] ==> ui'.history != [] && Last(ui'.history) == Last(ui'.page))
    && (ui'.page == [] ==> ui'.history == ui.history)
  }

  lemma {:induction false} MirrorIs(log: seq<StoredRow>, ui: Ui, ui': Ui, page: seq<StoredRow>, again: nat)
    requires Inv(log, ui) && ui.pending
    requires ui' == ui.(history := LandedTimes(ui.before, ui.history, page, again + 1), page := page, pending := false)
    ensures ui'.before == ui.before
    ensures forall x :: x in ui'.history <==> x in ui.history || x in ui'.page
    ensures ui'.page != [] ==> ui'.history != [] && Last(ui'.history) == Last(ui'.page)
    ensures ui'.page == [] ==> ui'.history == ui.history
  {
    LandedMeans(ui.before, ui.history, page, again + 1);
  }

  /** The history has been read in the order `a`; the next query finds the order `b`. */
  ghost predicate Reached(a: seq<StoredRow>, b: seq<StoredRow>, pageSize: nat, ui: Ui, read: nat)
    requires pageSize > 0
  {
    && Arrangement(a, b) && Arrangement(b, a) && Aligned(a, pageSize, ui, read)
    && if read == 0 then ui.before.None? || a == [] else ui.before == Some(Millis(a[read - 1]))
  }

  lemma {:induction false} LandsAtEnd(
    a: seq<StoredRow>, b: seq<StoredRow>, pageSize: nat, ui: Ui, ui': Ui, read: nat, s: nat)
    requires pageSize > 0 && Reached(a, b, pageSize, ui, read) && Landing(b, pageSize, ui, ui', s)
    requires read == |a|
    ensures Aligned(a, pageSize, ui', read)
  {
    SameProfile(a, b);
    AllRead(a, b, ui, s);
  }

  lemma {:induction false} LandsUnclean(
    a: seq<StoredRow>, b: seq<StoredRow>, pageSize: nat, ui: Ui, ui': Ui, read: nat, s: nat)
    requires pageSize > 0 && Reached(a, b, pageSize, ui, read) && Landing(b, pageSize, ui, ui', s)
    requires 0 < read < |a| && Millis(a[read]) == Millis(a[read - 1])
    ensures Passed(b, ui') && !Clean(b, pageSize, |b|)
  {
    SameProfile(a, b);
    RowIsPassed(a, pageSize, ui, ui', read);
    SameClean(a, b, pageSize, |a|);
    StillPassed(a, b, ui');
  }

  /** A clean boundary: the page starts where the history ends. */
  lemma {:induction false} LandsClean(b: seq<StoredRow>, pageSize: nat, ui: Ui, ui': Ui, read: nat, s: nat)
    requires pageSize > 0 && Reached(b, b, pageSize, ui, read) && Landing(b, pageSize, ui, ui', s)
    requires read < |b| && (read > 0 ==> Millis(b[read]) < Millis(b[read - 1]))
    ensures Aligned(b, pageSize, ui', Min(read + pageSize, |b|))
  {
    PageStartsAt(b, ui, read, s);
    PageExtends(b, pageSize, ui, ui', read, Min(read + pageSize, |b|));
  }

  lemma {:induction false} LandExtends(
    a: seq<StoredRow>, b: seq<StoredRow>, pageSize: nat, ui: Ui, ui': Ui, read: nat, s: nat)
    requires pageSize > 0 && Reached(a, b, pageSize, ui, read) && Landing(b, pageSize, ui, ui', s)
    ensures Sound(b, pageSize, ui')
  {
    if read == |a| {
      LandsAtEnd(a, b, pageSize, ui, ui', read, s);
    } else if read > 0 && Millis(a[read]) == Millis(a[read - 1]) {
      LandsUnclean(a, b, pageSize, ui, ui', read, s);
    } else {
      SameProfile(a, b);
      Rearranged(a, b, pageSize, ui, read);
      LandsClean(b, pageSize, ui, ui', read, s);
    }
  }

  lemma {:induction false} StillPassed(a: seq<StoredRow>, b: seq<StoredRow>, ui: Ui)
    requires Passed(a, ui) && Arrangement(a, b)
    ensures Passed(b, ui)
  {
    var x :| x in a && x !in ui.history && !Older(x, ui.before);
    assert x in b;
  }

  lemma {:induction false} PageStartsAt(rows: seq<StoredRow>, ui: Ui, read: nat, s: nat)
    requires Descending(rows) && read < |rows| && s <= |rows|
    requires if read == 0 then ui.before.None? else ui.before == Some(Millis(rows[read - 1]))
    requires read > 0 ==> Millis(rows[read]) != Millis(rows[read - 1])
    requires forall i :: 0 <= i < s ==> !Older(rows[i], ui.before)
    requires forall i :: s <= i < |rows| ==> Older(rows[i], ui.before)
    ensures s == read
  {
    assert read > 0 ==> rows[read].createdAt < rows[read - 1].createdAt && !Older(rows[read - 1], ui.before);
    assert Older(rows[read], ui.before);
  }

  lemma {:induction false} LandStaysSound(
    log: seq<StoredRow>, order: seq<StoredRow>, pageSize: nat, ui: Ui, again: nat)
    requires Arrangement(log, log) && Arrangement(order, log) && pageSize > 0 && Inv(log, ui) && ui.pending
    requires Sound(Matching(log, ui.filters), pageSize, ui)
    ensures Sound(Matching(log, ui.filters), pageSize, Next(pageSize, ui, Land(order, again)))
  {
    var rows, ui' := Matching(log, ui.filters), Next(pageSize, ui, Land(order, again));
    var b := Matching(order, ui.filters);
    var s := LandIs(log, order, pageSize, ui, again);
    MatchingArranged(order, log, ui.filters);
    MatchingArranged(log, log, ui.filters);
    if Passed(rows, ui) && !Clean(rows, pageSize, |rows|) {
      StaysPassed(rows, ui, ui');
    } else {
      var a, read: nat :| Arrangement(a, rows) && Aligned(a, pageSize, ui, read);
      assert Arrangement(a, b) && Arrangement(b, a);
      LandExtends(a, b, pageSize, ui, ui', read, s);
      SoundIn(b, rows, pageSize, ui');
    }
  }

  lemma {:induction false} SoundIn(b: seq<StoredRow>, rows: seq<StoredRow>, pageSize: nat, ui: Ui)
    requires pageSize > 0 && Arrangement(b, rows) && Arrangement(rows, b)
    requires Sound(b, pageSize, ui)
    ensures Sound(rows, pageSize, ui)
  {
    if c, n: nat :| Arrangement(c, b) && Aligned(c, pageSize, ui, n) {
      assert Arrangement(c, rows);
    } else {
      SameProfile(b, rows);
      SameClean(b, rows, pageSize, |b|);
      StillPassed(b, rows, ui);
    }
  }

  lemma {:induction false} StaysPassed(rows: seq<StoredRow>, ui: Ui, ui': Ui)
    requires Passed(rows, ui) && ui'.before.Some? && ui'.before.value <= ui.before.value
    requires forall x :: x in ui'.history ==> x in ui.history || Older(x, ui.before)
    ensures Passed(rows, ui')
  {
    var x :| x in rows && x !in ui.history && !Older(x, ui.before);
    assert x !in ui'.history && !Older(x, ui'.before);
  }

  lemma {:induction false} AllRead(a: seq<StoredRow>, b: seq<StoredRow>, ui: Ui, s: nat)
    requires Arrangement(b, a) && s <= |b| == |a|
    requires ui.before.Some? && a != [] ==> Millis(a[|a| - 1]) >= ui.before.value
    requires ui.before.None? ==> a == []
    requires Descending(a) && forall i :: s <= i < |b| ==> Older(b[i], ui.before)
    ensures s == |b|
  {
    if s < |b| {
      assert b[s] in b;
      var i :| 0 <= i < |a| && a[i] == b[s];
    }
  }

  lemma {:induction false} RowIsPassed(rows: seq<StoredRow>, pageSize: nat, ui: Ui, ui': Ui, read: nat)
    requires Distinct(rows) && pageSize > 0 && Aligned(rows, pageSize, ui, read)
    requires 0 < read < |rows| && Boundary(read, pageSize) && Millis(rows[read]) == Millis(rows[read - 1])
    requires ui'.before == ui.before == Some(Millis(rows[read - 1]))
    requires forall x :: x in ui'.history ==> x in ui.history || Older(x, ui.before)
    ensures Passed(rows, ui') && !Clean(rows, pageSize, |rows|)
  {
    assert rows[read] !in rows[..read];
    assert rows[read] in rows && rows[read] !in ui'.history && !Older(rows[read], ui.before);
  }

  lemma {:induction false} LoadMoreStaysSound(log: seq<StoredRow>, pageSize: nat, ui: Ui, again: nat)
    requires pageSize > 0 && Inv(log, ui) && ui.history != []
    requires Sound(Matching(log, ui.filters), pageSize, ui)
    ensures Sound(Matching(log, ui.filters), pageSize, Next(pageSize, ui, LoadMore(again)))
  {
    var rows, cursor := Matching(log, ui.filters), Some(Millis(Last(ui.history)));
    var ui' := Next(pageSize, ui, LoadMore(again));
    LandedMeans(cursor, ui.history, ui.page, again);
    if Passed(rows, ui) && !Clean(rows, pageSize, |rows|) {
      StaysPassed(rows, ui, ui');
    } else {
      var a, read: nat :| Arrangement(a, rows) && Aligned(a, pageSize, ui, read);
      SameSetAligned(a, pageSize, ui, ui', read);
    }
  }

  lemma {:induction false} SameSetAligned(rows: seq<StoredRow>, pageSize: nat, ui: Ui, ui': Ui, read: nat)
    requires pageSize > 0 && Aligned(rows, pageSize, ui, read) && ui.history != [] && ui'.history != []
    requires forall x :: x in ui'.history <==> x in ui.history
    requires Last(ui'.history) == Last(ui.history) && ui'.page == ui.page && (ui'.pending || ui' == ui)
    ensures Aligned(rows, pageSize, ui', read)
  {
  }

  lemma {:induction false} RunStaysSound(log: seq<StoredRow>, pageSize: nat, events: seq<Event>)
    requires Arrangement(log, log) && IsRun(log, events) && pageSize > 0
    ensures var ui := Exec(pageSize, events); Sound(Matching(log, ui.filters), pageSize, ui)
  {
    var ui' := Exec(pageSize, events);
    if events == [] || events[|events| - 1].ChangeFilters? {
      var rows := Matching(log, ui'.filters);
      MatchingArranged(log, log, ui'.filters);
      assert Arrangement(rows, rows) && Aligned(rows, pageSize, ui', 0);
    } else {
      var init, e := events[..|events| - 1], events[|events| - 1];
      var ui := Exec(pageSize, init);
      RunKeepsInv(log, pageSize, init);
      RunStaysSound(log, pageSize, init);
      if e.Land? && ui.pending {
        LandStaysSound(log, e.order, pageSize, ui, e.again);
      } else if e.LoadMore? && ui.history != [] {
        LoadMoreStaysSound(log, pageSize, ui, e.again);
      }
    }
  }

  /** When there is no more to load, the history holds every matching row if and only if
      the millisecond changes at every page boundary. */
  lemma {:induction false} CompleteIffClean(log: seq<StoredRow>, pageSize: nat, events: seq<Event>)
    requires Arrangement(log, log) && IsRun(log, events) && pageSize > 0
    requires !Exec(pageSize, events).pending && |Exec(pageSize, events).page| != pageSize
    ensures var ui := Exec(pageSize, events);
            var rows := Matching(log, ui.filters);
            (forall x :: x in rows ==> x in ui.history) <==> Clean(rows, pageSize, |rows|)
  {
    RunStaysSound(log, pageSize, events);
    MatchingArranged(log, log, Exec(pageSize, events).filters);
    SettledCompleteness(Matching(log, Exec(pageSize, events).filters), pageSize, Exec(pageSize, events));
  }

  lemma {:induction false} SettledCompleteness(rows: seq<StoredRow>, pageSize: nat, ui: Ui)
    requires pageSize > 0 && Arrangement(rows, rows) && Sound(rows, pageSize, ui)
    requires !ui.pending && |ui.page| != pageSize
    ensures (forall x :: x in rows ==> x in ui.history) <==> Clean(rows, pageSize, |rows|)
  {
    if a, read: nat :| Arrangement(a, rows) && Aligned(a, pageSize, ui, read) {
      assert Arrangement(rows, a);
      SameProfile(a, rows);
      SameClean(a, rows, pageSize, |a|);
      forall x | x in rows ensures x in ui.history {
        assert x in a && a[..|a|] == a;
      }
    }
  }
}
