/** `deriveTimeline` and `progressPercent` of frontend/src/components/WorkflowTimeline.tsx. */
module Timeline {
  import opened Options
  import opened OrderedMap

  datatype Phase = Started | Succeeded | Failed | Cancelled

  datatype Scope = WorkflowScope | StepScope(step: string)

  datatype Event = Event(scope: Scope, workflowType: string, phase: Phase, timestamp: string, error: Option<string>)

  datatype StepRow = StepRow(
    name: string,
    phase: Phase,
    startedAt: Option<string>,
    endedAt: Option<string>,
    error: Option<string>)

  /** `workflowPhase` is None while the workflow is pending. */
  datatype Derived = Derived(
    workflowPhase: Option<Phase>,
    workflowType: Option<string>,
    workflowError: Option<string>,
    steps: seq<StepRow>,
    succeededStepCount: nat)

  predicate Of(e: Event, name: string) {
    e.scope == StepScope(name)
  }

  /** A JavaScript string is truthy if it is not empty. */
  predicate Truthy(e: Option<string>) {
    e.Some? && e.value != ""
  }

  // ---- the declarative form ----

  function LastPhase(events: seq<Event>, n: string): Option<Phase> {
    if events == [] then None
    else if Of(events[|events| - 1], n) then Some(events[|events| - 1].phase)
    else LastPhase(events[..|events| - 1], n)
  }

  /** The time of the last `started` event of a step, or of its last other event. */
  function LastTime(events: seq<Event>, n: string, started: bool): Option<string> {
    if events == [] then None
    else
      var e := events[|events| - 1];
      if Of(e, n) && e.phase.Started? == started then Some(e.timestamp)
      else LastTime(events[..|events| - 1], n, started)
  }

  function LastError(events: seq<Event>, n: string): Option<string> {
    if events == [] then None
    else if Of(events[|events| - 1], n) && Truthy(events[|events| - 1].error) then events[|events| - 1].error
    else LastError(events[..|events| - 1], n)
  }

  function FirstError(events: seq<Event>, n: string): Option<string> {
    if events == [] then None
    else if Of(events[0], n) then events[0].error
    else FirstError(events[1..], n)
  }

  function Row(events: seq<Event>, n: string): StepRow
    requires LastPhase(events, n).Some?
  {
    StepRow(n, LastPhase(events, n).value, LastTime(events, n, true), LastTime(events, n, false),
            if LastError(events, n).Some? then LastError(events, n) else FirstError(events, n))
  }

  /** The step names, each where it occurs first. */
  function Names(events: seq<Event>): seq<string> {
    if events == [] then []
    else
      var before := Names(events[..|events| - 1]);
      match events[|events| - 1].scope
      case WorkflowScope => before
      case StepScope(n) => if n in before then before else before + [n]
  }

  lemma {:induction false} NamesOccur(events: seq<Event>, n: string)
    ensures n in Names(events) <==> LastPhase(events, n).Some?
  {
    if events != [] { NamesOccur(events[..|events| - 1], n); }
  }

  function RowsFor(events: seq<Event>, names: seq<string>, n: nat): (rows: seq<StepRow>)
    requires n <= |names| && forall i :: 0 <= i < n ==> LastPhase(events, names[i]).Some?
    ensures |rows| == n && forall i :: 0 <= i < n ==> rows[i] == Row(events, names[i])
  {
    if n == 0 then [] else RowsFor(events, names, n - 1) + [Row(events, names[n - 1])]
  }

  function Rows(events: seq<Event>): (rows: seq<StepRow>)
    ensures |rows| == |Names(events)|
    ensures forall i :: 0 <= i < |rows| ==> LastPhase(events, Names(events)[i]).Some?
    ensures forall i :: 0 <= i < |rows| ==> rows[i] == Row(events, Names(events)[i])
  {
    assert forall i :: 0 <= i < |Names(events)| ==> LastPhase(events, Names(events)[i]).Some? by {
      forall i | 0 <= i < |Names(events)| ensures LastPhase(events, Names(events)[i]).Some? {
        NamesOccur(events, Names(events)[i]);
      }
    }
    RowsFor(events, Names(events), |Names(events)|)
  }

  function LastWorkflow(events: seq<Event>): Option<Event> {
    if events == [] then None
    else if events[|events| - 1].scope.WorkflowScope? then Some(events[|events| - 1])
    else LastWorkflow(events[..|events| - 1])
  }

  function Succeeding(rows: seq<StepRow>): nat {
    if rows == [] then 0
    else Succeeding(rows[..|rows| - 1]) + if rows[|rows| - 1].phase.Succeeded? then 1 else 0
  }

  function Summary(events: seq<Event>): Derived {
    var w := LastWorkflow(events);
    Derived(if w.None? then None else Some(w.value.phase),
            if events == [] then None else Some(events[0].workflowType),
            if w.None? then None else w.value.error,
            Rows(events),
            Succeeding(Rows(events)))
  }

  // ---- the loop ----

  type StepMap = OMap<string, StepRow>

  /** What the loop does to the step map for one step event. */
  function Absorb(m: StepMap, e: Event): StepMap {
    match e.scope
    case WorkflowScope => m
    case StepScope(n) =>
      if n !in m.at then
        Set(m, n, StepRow(n, e.phase, if e.phase.Started? then Some(e.timestamp) else None,
                          if e.phase.Started? then None else Some(e.timestamp), e.error))
      else
        var was := m.at[n];
        Set(m, n, StepRow(was.name, e.phase,
                          if e.phase.Started? then Some(e.timestamp) else was.startedAt,
                          if e.phase.Started? then was.endedAt else Some(e.timestamp),
                          if Truthy(e.error) then e.error else was.error))
  }

  /** The step map describes the events read so far. */
  ghost predicate Describes(m: StepMap, events: seq<Event>) {
    && m.order == Names(events)
    && (forall n :: n in m.at <==> LastPhase(events, n).Some?)
    && (forall n :: n in m.at ==> m.at[n] == Row(events, n))
  }

  lemma {:induction false} FirstErrorSnoc(events: seq<Event>, e: Event, n: string)
    ensures FirstError(events + [e], n)
            == if LastPhase(events, n).Some? then FirstError(events, n)
               else if Of(e, n) then e.error else None
    decreases |events|
  {
    if events == [] {
      assert (events + [e])[1..] == [];
    } else {
      assert (events + [e])[1..] == events[1..] + [e];
      FirstErrorSnoc(events[1..], e, n);
      LastPhaseHead(events, n);
    }
  }

  lemma {:induction false} LastPhaseHead(events: seq<Event>, n: string)
    requires events != []
    ensures LastPhase(events, n).Some? <==> Of(events[0], n) || LastPhase(events[1..], n).Some?
    decreases |events|
  {
    if |events| > 1 {
      LastPhaseHead(events[..|events| - 1], n);
      assert events[..|events| - 1][1..] == events[1..][..|events| - 2];
    }
  }

  lemma {:induction false} NoPhaseNoError(events: seq<Event>, n: string)
    requires LastPhase(events, n).None?
    ensures LastError(events, n).None? && LastTime(events, n, true).None? && LastTime(events, n, false).None?
  {
    if events != [] { NoPhaseNoError(events[..|events| - 1], n); }
  }

  /** One more event changes the row of its own step only. */
  lemma {:induction false} RowSnoc(events: seq<Event>, e: Event, n: string)
    ensures !Of(e, n) && LastPhase(events, n).Some? ==>
              LastPhase(events + [e], n).Some? && Row(events + [e], n) == Row(events, n)
    ensures !Of(e, n) && LastPhase(events, n).None? ==> LastPhase(events + [e], n).None?
    ensures Of(e, n) ==> LastPhase(events + [e], n).Some?
  {
    assert (events + [e])[..|events|] == events;
    FirstErrorSnoc(events, e, n);
  }

  lemma {:induction false} AbsorbDescribes(m: StepMap, events: seq<Event>, e: Event)
    requires Describes(m, events)
    ensures Describes(Absorb(m, e), events + [e])
  {
    var m', events' := Absorb(m, e), events + [e];
    assert events'[..|events|] == events;
    forall n ensures n in m'.at <==> LastPhase(events', n).Some? {
      RowSnoc(events, e, n);
    }
    forall n | n in m'.at ensures m'.at[n] == Row(events', n) {
      RowSnoc(events, e, n);
      if Of(e, n) {
        FirstErrorSnoc(events, e, n);
        if LastPhase(events, n).None? { NoPhaseNoError(events, n); }
      }
    }
    if e.scope.StepScope? { NamesOccur(events, e.scope.step); }
  }

  /** `deriveTimeline`. */
  method DeriveTimeline(events: seq<Event>) returns (d: Derived)
    ensures d == Summary(events)
  {
    var workflowPhase: Option<Phase> := None;
    var workflowType: Option<string> := None;
    var workflowError: Option<string> := None;
    var stepMap: StepMap := OMap([], map[]);
    for i := 0 to |events|
      invariant workflowType == if i == 0 then None else Some(events[0].workflowType)
      invariant var w := LastWorkflow(events[..i]);
                && workflowPhase == (if w.None? then None else Some(w.value.phase))
                && workflowError == (if w.None? then None else w.value.error)
      invariant Describes(stepMap, events[..i])
    {
      var e := events[i];
      assert events[..i + 1] == events[..i] + [e];
      if workflowType.None? { workflowType := Some(e.workflowType); }
      AbsorbDescribes(stepMap, events[..i], e);
      if e.scope.WorkflowScope? {
        workflowPhase, workflowError := Some(e.phase), e.error;
      } else if e.scope.step !in stepMap.at {
        stepMap := Set(stepMap, e.scope.step,
                       StepRow(e.scope.step, e.phase, if e.phase.Started? then Some(e.timestamp) else None,
                               if e.phase.Started? then None else Some(e.timestamp), e.error));
      } else {
        var row := stepMap.at[e.scope.step];
        row := row.(phase := e.phase);
        if e.phase.Started? {
          row := row.(startedAt := Some(e.timestamp));
        } else {
          row := row.(endedAt := Some(e.timestamp));
        }
        if Truthy(e.error) { row := row.(error := e.error); }
        stepMap := Set(stepMap, e.scope.step, row);
      }
    }
    assert events[..|events|] == events;
    NamesInMap(stepMap, events);
    var steps := seq(|stepMap.order|, i requires 0 <= i < |stepMap.order| && stepMap.order[i] in stepMap.at =>
                       stepMap.at[stepMap.order[i]]);
    assert steps == Rows(events);
    var count := CountSucceeded(steps);
    d := Derived(workflowPhase, workflowType, workflowError, steps, count);
  }

  lemma {:induction false} NamesInMap(m: StepMap, events: seq<Event>)
    requires Describes(m, events)
    ensures forall i :: 0 <= i < |m.order| ==> m.order[i] in m.at
  {
    forall i | 0 <= i < |m.order| ensures m.order[i] in m.at { NamesOccur(events, m.order[i]); }
  }

  method CountSucceeded(rows: seq<StepRow>) returns (count: nat)
    ensures count == Succeeding(rows)
  {
    count := 0;
    for i := 0 to |rows|
      invariant count == Succeeding(rows[..i])
    {
      assert rows[..i + 1][..i] == rows[..i];
      if rows[i].phase.Succeeded? { count := count + 1; }
    }
    assert rows[..|rows|] == rows;
  }

  // ---- properties of the declarative form ----

  /** The position of the first of the first m events that is about the step, or m. */
  function FirstIn(events: seq<Event>, n: string, m: nat): (k: nat)
    requires m <= |events|
    ensures k <= m
    ensures k < m ==> Of(events[k], n)
    ensures forall j :: 0 <= j < k ==> !Of(events[j], n)
  {
    if m == 0 then 0
    else
      var k := FirstIn(events, n, m - 1);
      if k < m - 1 || Of(events[m - 1], n) then k else m
  }

  function FirstAt(events: seq<Event>, n: string): (k: nat)
    ensures k <= |events|
    ensures k < |events| ==> Of(events[k], n)
    ensures forall j :: 0 <= j < k ==> !Of(events[j], n)
  {
    FirstIn(events, n, |events|)
  }

  /** The rows are the steps that occur, each once, in the order of their first events. */
  lemma {:induction false} NamesByFirstOccurrence(events: seq<Event>)
    ensures forall i :: 0 <= i < |Names(events)| ==> FirstAt(events, Names(events)[i]) < |events|
    ensures forall i, j :: 0 <= i < j < |Names(events)| ==>
              FirstAt(events, Names(events)[i]) < FirstAt(events, Names(events)[j])
    ensures forall k :: 0 <= k < |events| && events[k].scope.StepScope? ==> events[k].scope.step in Names(events)
  {
    if events != [] {
      var before, e := events[..|events| - 1], events[|events| - 1];
      NamesByFirstOccurrence(before);
      assert events == before + [e];
      var was := Names(before);
      forall i | 0 <= i < |was| ensures FirstAt(events, was[i]) == FirstAt(before, was[i]) < |before| {
        FirstAtSnoc(before, e, was[i]);
      }
      if e.scope.StepScope? && e.scope.step !in was {
        assert forall k :: 0 <= k < |before| ==> !Of(before[k], e.scope.step);
        FirstAtSnoc(before, e, e.scope.step);
      }
    }
  }

  lemma {:induction false} FirstAtSnoc(before: seq<Event>, e: Event, n: string)
    ensures FirstAt(before + [e], n) == if FirstAt(before, n) < |before| then FirstAt(before, n)
                                        else if Of(e, n) then |before| else |before| + 1
  {
    var now := before + [e];
    assert forall j :: 0 <= j < |before| ==> now[j] == before[j];
    var k, k' := FirstAt(before, n), FirstAt(now, n);
    assert k' < |before| ==> Of(before[k'], n);
    assert k < |before| ==> Of(now[k], n);
    assert now[|before|] == e;
  }

  // ---- what a row shows, event by event ----

  /** Event i is about the step, of the kind asked for, and no later one is both. */
  predicate LastOfKind(events: seq<Event>, n: string, i: nat, started: bool) {
    && i < |events| && events[i].scope == StepScope(n) && (events[i].phase == Started <==> started)
    && forall j :: i < j < |events| && events[j].scope == StepScope(n) ==> (events[j].phase == Started <==> !started)
  }

  predicate LastAbout(events: seq<Event>, n: string, i: nat) {
    && i < |events| && events[i].scope == StepScope(n)
    && forall j :: i < j < |events| ==> events[j].scope != StepScope(n)
  }

  /** Event i has an error text, and no later event of the step has one. */
  predicate LastFailing(events: seq<Event>, n: string, i: nat) {
    && i < |events| && events[i].scope == StepScope(n) && events[i].error != None && events[i].error != Some("")
    && forall j :: i < j < |events| && events[j].scope == StepScope(n)
                   ==> events[j].error == None || events[j].error == Some("")
  }

  lemma {:induction false} PhaseIsOfLast(events: seq<Event>, n: string, i: nat)
    requires LastAbout(events, n, i)
    ensures LastPhase(events, n) == Some(events[i].phase)
  {
    if i < |events| - 1 { PhaseIsOfLast(events[..|events| - 1], n, i); }
  }

  lemma {:induction false} TimeIsOfLast(events: seq<Event>, n: string, i: nat, started: bool)
    requires LastOfKind(events, n, i, started)
    ensures LastTime(events, n, started) == Some(events[i].timestamp)
  {
    if i < |events| - 1 { TimeIsOfLast(events[..|events| - 1], n, i, started); }
  }

  lemma {:induction false} NoTime(events: seq<Event>, n: string, started: bool)
    requires forall j :: 0 <= j < |events| && events[j].scope == StepScope(n)
                         ==> (events[j].phase == Started <==> !started)
    ensures LastTime(events, n, started) == None
  {
    if events != [] { NoTime(events[..|events| - 1], n, started); }
  }

  lemma {:induction false} ErrorIsOfLast(events: seq<Event>, n: string, i: nat)
    requires LastFailing(events, n, i)
    ensures LastError(events, n) == events[i].error
  {
    if i < |events| - 1 { ErrorIsOfLast(events[..|events| - 1], n, i); }
  }

  /** The row of a step shows the phase of its last event, the times of its last start and of its
      last other event, and the last error text that any of its events had. */
  lemma {:induction false} RowTells(events: seq<Event>, r: nat, i: nat)
    requires r < |Summary(events).steps| && i < |events|
    ensures var row := Summary(events).steps[r];
            && (LastAbout(events, row.name, i) ==> row.phase == events[i].phase)
            && (LastOfKind(events, row.name, i, true) ==> row.startedAt == Some(events[i].timestamp))
            && (LastOfKind(events, row.name, i, false) ==> row.endedAt == Some(events[i].timestamp))
            && (LastFailing(events, row.name, i) ==> row.error == events[i].error)
  {
    var n := Summary(events).steps[r].name;
    if LastAbout(events, n, i) { PhaseIsOfLast(events, n, i); }
    if LastOfKind(events, n, i, true) { TimeIsOfLast(events, n, i, true); }
    if LastOfKind(events, n, i, false) { TimeIsOfLast(events, n, i, false); }
    if LastFailing(events, n, i) { ErrorIsOfLast(events, n, i); }
  }

  /** Event i is the first of the step. */
  predicate FirstAbout(events: seq<Event>, n: string, i: nat) {
    && i < |events| && events[i].scope == StepScope(n)
    && forall j :: 0 <= j < i ==> events[j].scope != StepScope(n)
  }

  predicate NeverFails(events: seq<Event>, n: string) {
    forall j :: 0 <= j < |events| && events[j].scope == StepScope(n)
                ==> events[j].error == None || events[j].error == Some("")
  }

  lemma {:induction false} NoError(events: seq<Event>, n: string)
    requires NeverFails(events, n)
    ensures LastError(events, n) == None
  {
    if events != [] { NoError(events[..|events| - 1], n); }
  }

  lemma {:induction false} ErrorIsOfFirst(events: seq<Event>, n: string, i: nat)
    requires FirstAbout(events, n, i)
    ensures FirstError(events, n) == events[i].error
    decreases |events|
  {
    if i > 0 { ErrorIsOfFirst(events[1..], n, i - 1); }
  }

  /** A step without a start has no start time, one without an end no end time, and one without an
      error text the error field of its first event. */
  lemma {:induction false} RowOmits(events: seq<Event>, r: nat, i: nat)
    requires r < |Summary(events).steps|
    ensures var row := Summary(events).steps[r];
            && ((forall j :: 0 <= j < |events| && events[j].scope == StepScope(row.name) ==> events[j].phase != Started)
                ==> row.startedAt == None)
            && ((forall j :: 0 <= j < |events| && events[j].scope == StepScope(row.name) ==> events[j].phase == Started)
                ==> row.endedAt == None)
            && (NeverFails(events, row.name) && FirstAbout(events, row.name, i) ==> row.error == events[i].error)
  {
    var n := Summary(events).steps[r].name;
    if forall j :: 0 <= j < |events| && events[j].scope == StepScope(n) ==> events[j].phase != Started {
      NoTime(events, n, true);
    }
    if forall j :: 0 <= j < |events| && events[j].scope == StepScope(n) ==> events[j].phase == Started {
      NoTime(events, n, false);
    }
    if NeverFails(events, n) && FirstAbout(events, n, i) {
      NoError(events, n);
      ErrorIsOfFirst(events, n, i);
    }
  }

  /** The workflow shows the phase and error of its last event and the type of the first event. */
  lemma {:induction false} WorkflowTells(events: seq<Event>, i: nat)
    requires i < |events| && events[i].scope == WorkflowScope
    requires forall j :: i < j < |events| ==> events[j].scope != WorkflowScope
    ensures var d := Summary(events);
            && d.workflowPhase == Some(events[i].phase) && d.workflowError == events[i].error
            && d.workflowType == Some(events[0].workflowType)
  {
    WorkflowIsOfLast(events, i);
  }

  lemma {:induction false} WorkflowIsOfLast(events: seq<Event>, i: nat)
    requires i < |events| && events[i].scope == WorkflowScope
    requires forall j :: i < j < |events| ==> events[j].scope != WorkflowScope
    ensures LastWorkflow(events) == Some(events[i])
  {
    if i < |events| - 1 { WorkflowIsOfLast(events[..|events| - 1], i); }
  }

  lemma {:induction false} PendingShown(events: seq<Event>)
    requires forall j :: 0 <= j < |events| ==> events[j].scope != WorkflowScope
    ensures Summary(events).workflowPhase == None && Summary(events).workflowError == None
  {
    NoWorkflow(events);
  }

  lemma {:induction false} NoWorkflow(events: seq<Event>)
    requires forall j :: 0 <= j < |events| ==> events[j].scope != WorkflowScope
    ensures LastWorkflow(events) == None
  {
    if events != [] { NoWorkflow(events[..|events| - 1]); }
  }

  /** The places of the rows that succeeded, below n. */
  function SucceededBelow(rows: seq<StepRow>, n: nat): set<nat>
    requires n <= |rows|
  {
    set i: nat | i < n && rows[i].phase == Succeeded
  }

  /** The count is that of the rows shown as succeeded. */
  lemma {:induction false} CountsSucceeded(rows: seq<StepRow>)
    ensures Succeeding(rows) == |SucceededBelow(rows, |rows|)|
  {
    if rows == [] {
      assert SucceededBelow(rows, 0) == {};
    } else {
      var init, n := rows[..|rows| - 1], |rows| - 1;
      CountsSucceeded(init);
      assert SucceededBelow(init, n) == SucceededBelow(rows, n);
      assert SucceededBelow(rows, n + 1) == SucceededBelow(rows, n) + if rows[n].phase == Succeeded then {n} else {};
    }
  }

  /** Delivering an event twice in a row shows the same timeline as delivering it once. */
  lemma {:induction false} RepeatsAreInvisible(a: seq<Event>, e: Event, b: seq<Event>)
    ensures Summary(a + [e, e] + b) == Summary(a + [e] + b)
    decreases |b|
  {
    var twice, once := a + [e, e] + b, a + [e] + b;
    RepeatKeepsWorkflow(a, e, b);
    RepeatKeepsNames(a, e, b);
    forall n ensures SameStep(twice, once, n) { RepeatKeepsStep(a, e, b, n); }
    assert |Rows(twice)| == |Rows(once)|;
    forall i | 0 <= i < |Rows(once)| ensures Rows(twice)[i] == Rows(once)[i] {
      assert SameStep(twice, once, Names(once)[i]);
    }
    assert Rows(twice) == Rows(once);
    assert twice[0] == once[0];
  }

  ghost predicate SameStep(a: seq<Event>, b: seq<Event>, n: string) {
    && LastPhase(a, n) == LastPhase(b, n)
    && LastTime(a, n, true) == LastTime(b, n, true)
    && LastTime(a, n, false) == LastTime(b, n, false)
    && LastError(a, n) == LastError(b, n)
    && FirstError(a, n) == FirstError(b, n)
  }

  lemma {:induction false} RepeatKeepsStep(a: seq<Event>, e: Event, b: seq<Event>, n: string)
    ensures SameStep(a + [e, e] + b, a + [e] + b, n)
    decreases |b|
  {
    var twice, once := a + [e, e] + b, a + [e] + b;
    if b == [] {
      assert once == a + [e] && twice == a + [e] + [e];
      assert once[..|a|] == a && twice[..|a| + 1] == once;
      FirstErrorSnoc(a, e, n);
      FirstErrorSnoc(once, e, n);
    } else {
      var b', x := b[..|b| - 1], b[|b| - 1];
      RepeatKeepsStep(a, e, b', n);
      var once', twice' := a + [e] + b', a + [e, e] + b';
      assert once == once' + [x] && twice == twice' + [x];
      assert once[..|once'|] == once' && twice[..|twice'|] == twice';
      FirstErrorSnoc(once', x, n);
      FirstErrorSnoc(twice', x, n);
    }
  }

  lemma {:induction false} RepeatKeepsWorkflow(a: seq<Event>, e: Event, b: seq<Event>)
    ensures LastWorkflow(a + [e, e] + b) == LastWorkflow(a + [e] + b)
    decreases |b|
  {
    var twice, once := a + [e, e] + b, a + [e] + b;
    if b == [] {
      assert twice[..|twice| - 1] == once;
    } else {
      RepeatKeepsWorkflow(a, e, b[..|b| - 1]);
      assert twice[..|twice| - 1] == a + [e, e] + b[..|b| - 1];
      assert once[..|once| - 1] == a + [e] + b[..|b| - 1];
    }
  }

  lemma {:induction false} RepeatKeepsNames(a: seq<Event>, e: Event, b: seq<Event>)
    ensures Names(a + [e, e] + b) == Names(a + [e] + b)
    decreases |b|
  {
    var twice, once := a + [e, e] + b, a + [e] + b;
    if b == [] {
      assert twice[..|twice| - 1] == once;
    } else {
      RepeatKeepsNames(a, e, b[..|b| - 1]);
      assert twice[..|twice| - 1] == a + [e, e] + b[..|b| - 1];
      assert once[..|once| - 1] == a + [e] + b[..|b| - 1];
    }
  }

  // ---- progress ----

  /** Math.round of 100 * succeeded / total: the nearest integer, halves upwards. */
  function ProgressPercent(d: Derived): int {
    if |d.steps| == 0 then 0 else (200 * d.succeededStepCount + |d.steps|) / (2 * |d.steps|)
  }

  lemma {:induction false} SucceedingBound(rows: seq<StepRow>)
    ensures Succeeding(rows) <= |rows|
    ensures Succeeding(rows) == |rows| <==> forall i :: 0 <= i < |rows| ==> rows[i].phase.Succeeded?
  {
    if rows != [] {
      SucceedingBound(rows[..|rows| - 1]);
      assert forall i :: 0 <= i < |rows| - 1 ==> rows[..|rows| - 1][i] == rows[i];
    }
  }

  lemma {:induction false} RoundedShare(part: nat, whole: nat)
    requires 0 < whole && part <= whole
    ensures 0 <= (200 * part + whole) / (2 * whole) <= 100
    ensures (200 * part + whole) / (2 * whole) == 100 <==> 200 * (whole - part) <= whole
  {
    var a, d := 200 * part + whole, 2 * whole;
    QuotientBelow(a, d, 101);
    QuotientBelow(a, d, 100);
    assert 0 <= a / d;
  }

  lemma {:induction false} QuotientBelow(a: nat, d: nat, k: nat)
    requires d > 0
    ensures a / d < k <==> a < k * d
  {
    var q, r := a / d, a % d;
    assert a == q * d + r;
    if q < k { Product(q + 1, k, d); } else { Product(k, q, d); }
  }

  lemma {:induction false} Product(a: nat, b: nat, c: nat)
    requires a <= b
    ensures a * c <= b * c
  {
  }

  /** The percentage is the nearest integer to 100 * succeeded / total, halves upwards. */
  lemma {:induction false} ProgressIsNearest(events: seq<Event>)
    requires Summary(events).steps != []
    ensures var d := Summary(events);
            var total := |d.steps|;
            -total <= 200 * |SucceededBelow(d.steps, total)| - (2 * total) * ProgressPercent(d) < total
  {
    var d := Summary(events);
    CountsSucceeded(d.steps);
    Quotient(200 * d.succeededStepCount + |d.steps|, 2 * |d.steps|);
  }

  lemma {:induction false} Quotient(a: nat, d: nat)
    requires d > 0
    ensures d * (a / d) <= a < d * (a / d) + d
  {
    var q, r := a / d, a % d;
    assert a == d * q + r && 0 <= r < d;
  }

  /** The bar stays within 0..100 and shows 100 exactly when there is a step and at most
      one step in two hundred has not succeeded: below 200 steps, when all have. */
  lemma {:induction false} ProgressMeaning(events: seq<Event>)
    ensures var d := Summary(events);
            && 0 <= ProgressPercent(d) <= 100
            && (ProgressPercent(d) == 100 <==>
                  |d.steps| > 0 && 200 * (|d.steps| - d.succeededStepCount) <= |d.steps|)
            && (ProgressPercent(d) == 100 && |d.steps| < 200 ==>
                  forall i :: 0 <= i < |d.steps| ==> d.steps[i].phase.Succeeded?)
  {
    var rows := Rows(events);
    SucceedingBound(rows);
    if |rows| > 0 { RoundedShare(Succeeding(rows), |rows|); }
  }
}
