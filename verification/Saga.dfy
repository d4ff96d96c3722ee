/** `OnboardTenantWorkflow` of apps/workers/onboarding/workflow.go: forward steps bracketed
    by status events, and compensation in reverse order when one fails. The five steps of
    the workflow are the instance ONBOARDING of a saga of any length. */
module Saga {
  import opened Options
  import opened OrderedMap
  import opened Timeline

  const WORKFLOW_TYPE := "monok8s.onboarding"

  /** `cleanup` is the activity that undoes the step; None if there is nothing to call. */
  datatype Step = Step(name: string, cleanup: Option<string>)

  const ONBOARDING: seq<Step> :=
    [Step("provision_namespace", Some("DeleteTenantNamespaceActivity")),
     Step("provision_database", Some("DeleteTenantDatabaseActivity")),
     Step("mint_vault_key", Some("DeleteTenantVaultKeyActivity")),
     Step("run_migrations", None),
     Step("emit_tenant_created", None)]

  datatype Call = Emit(event: Event) | Forward(step: string) | Cleanup(activity: string) | AnnounceFailure

  /** The world: the error, if any, of each activity call, and the time of each event. */
  datatype World = World(error: Call -> Option<string>, time: (Scope, Phase) -> string)

  function EventOf(w: World, scope: Scope, phase: Phase, err: string): Call {
    Emit(Event(scope, WORKFLOW_TYPE, phase, w.time(scope, phase), if err == "" then None else Some(err)))
  }

  // ---- the specification ----

  /** The first of the first n steps whose forward activity fails, or n. */
  function FirstFailureIn(w: World, steps: seq<Step>, n: nat): (k: nat)
    requires n <= |steps|
    ensures k <= n
    ensures forall i :: 0 <= i < k ==> w.error(Forward(steps[i].name)).None?
    ensures k < n ==> w.error(Forward(steps[k].name)).Some?
  {
    if n == 0 then 0
    else
      var k := FirstFailureIn(w, steps, n - 1);
      if k < n - 1 || w.error(Forward(steps[n - 1].name)).Some? then k else n
  }

  function FirstFailure(w: World, steps: seq<Step>): (k: nat)
    ensures k <= |steps|
    ensures forall i :: 0 <= i < k ==> w.error(Forward(steps[i].name)).None?
    ensures k < |steps| ==> w.error(Forward(steps[k].name)).Some?
  {
    FirstFailureIn(w, steps, |steps|)
  }

  function Done(w: World, s: Step): seq<Call> {
    [EventOf(w, StepScope(s.name), Started, ""), Forward(s.name), EventOf(w, StepScope(s.name), Succeeded, "")]
  }

  /** The calls of the first n steps when they succeed. */
  function Ran(w: World, steps: seq<Step>, n: nat): seq<Call>
    requires n <= |steps|
  {
    if n == 0 then [] else Ran(w, steps, n - 1) + Done(w, steps[n - 1])
  }

  /** The cleanups of the first n steps, last step first. */
  function Compensation(steps: seq<Step>, n: nat): seq<Call>
    requires n <= |steps|
  {
    if n == 0 then [] else Undo(steps[n - 1]) + Compensation(steps, n - 1)
  }

  function Undo(s: Step): seq<Call> {
    match s.cleanup case None => [] case Some(a) => [Cleanup(a)]
  }

  /** The calls of step k when it fails after the steps before it succeeded. */
  function FailedAt(w: World, steps: seq<Step>, k: nat, err: string): seq<Call>
    requires k < |steps|
  {
    [EventOf(w, StepScope(steps[k].name), Started, ""), Forward(steps[k].name),
     EventOf(w, StepScope(steps[k].name), Failed, err)]
    + CleanupPhase(steps, k)
    + [EventOf(w, WorkflowScope, Failed, err)]
  }

  function CleanupPhase(steps: seq<Step>, k: nat): seq<Call>
    requires k <= |steps|
  {
    if k == 0 then [] else Compensation(steps, k) + [AnnounceFailure]
  }

  function Trace(w: World, steps: seq<Step>): seq<Call> {
    var k := FirstFailure(w, steps);
    [EventOf(w, WorkflowScope, Started, "")] + Ran(w, steps, k)
    + if k == |steps| then [EventOf(w, WorkflowScope, Succeeded, "")]
      else FailedAt(w, steps, k, w.error(Forward(steps[k].name)).value)
  }

  function Outcome(w: World, steps: seq<Step>): Option<string> {
    var k := FirstFailure(w, steps);
    if k == |steps| then None else w.error(Forward(steps[k].name))
  }

  // ---- the workflow ----

  class Workflow {
    const world: World
    var log: seq<Call>

    constructor (world: World)
      ensures this.world == world && log == []
    {
      this.world := world;
      log := [];
    }

    method ExecuteActivity(c: Call) returns (err: Option<string>)
      modifies this
      ensures log == old(log) + [c] && err == world.error(c)
    {
      log := log + [c];
      err := world.error(c);
    }

    /** Best effort: the activity's own error is ignored. */
    method EmitStatus(scope: Scope, phase: Phase, err: string)
      modifies this
      ensures log == old(log) + [EventOf(world, scope, phase, err)]
    {
      var ignored := ExecuteActivity(EventOf(world, scope, phase, err));
    }

    /** The `cleanup` closure: walk the completed steps backwards, then announce. */
    method CleanUp(completed: seq<Step>)
      modifies this
      ensures log == old(log) + Compensation(completed, |completed|) + [AnnounceFailure]
    {
      var i := |completed|;
      while i > 0
        invariant 0 <= i <= |completed|
        invariant log + Compensation(completed, i) == old(log) + Compensation(completed, |completed|)
      {
        i := i - 1;
        ghost var before := log;
        match completed[i].cleanup {
          case Some(activity) =>
            var ignored := ExecuteActivity(Cleanup(activity));
          case None =>
        }
        assert log == before + Undo(completed[i]);
        Associate(before, Undo(completed[i]), Compensation(completed, i));
      }
      var ignored := ExecuteActivity(AnnounceFailure);
    }

    method RunStep(s: Step) returns (e: Option<string>)
      modifies this
      ensures e == world.error(Forward(s.name))
      ensures log == old(log) + if e.None? then Done(world, s)
                                else [EventOf(world, StepScope(s.name), Started, ""), Forward(s.name)]
    {
      EmitStatus(StepScope(s.name), Started, "");
      e := ExecuteActivity(Forward(s.name));
      if e.None? { EmitStatus(StepScope(s.name), Succeeded, ""); }
    }

    /** The failure branch of a step, after its forward activity. */
    method Fail(completed: seq<Step>, s: Step, err: string)
      modifies this
      ensures log == old(log) + [EventOf(world, StepScope(s.name), Failed, err)]
                     + (if completed == [] then [] else Compensation(completed, |completed|) + [AnnounceFailure])
                     + [EventOf(world, WorkflowScope, Failed, err)]
    {
      EmitStatus(StepScope(s.name), Failed, err);
      if completed != [] { CleanUp(completed); }
      EmitStatus(WorkflowScope, Failed, err);
    }

    /** All activity calls happen in the specified order, and the error returned is that of
        the first failing forward step. */
    method Run(steps: seq<Step>) returns (err: Option<string>)
      modifies this
      ensures log == old(log) + Trace(world, steps)
      ensures err == Outcome(world, steps)
    {
      ghost var first := [EventOf(world, WorkflowScope, Started, "")];
      EmitStatus(WorkflowScope, Started, "");
      var completed: seq<Step> := [];
      for i := 0 to |steps|
        invariant completed == steps[..i] && i <= FirstFailure(world, steps)
        invariant log == old(log) + (first + Ran(world, steps, i))
      {
        ghost var before := log;
        var e := RunStep(steps[i]);
        if e.Some? {
          Fail(completed, steps[i], e.value);
          SameCompensation(completed, steps, i);
          FailedAtSplit(world, steps, i, e.value, before);
          Associate(old(log), first + Ran(world, steps, i), FailedAt(world, steps, i, e.value));
          return e;
        }
        Associate(old(log), first + Ran(world, steps, i), Done(world, steps[i]));
        Associate(first, Ran(world, steps, i), Done(world, steps[i]));
        completed := completed + [steps[i]];
      }
      EmitStatus(WorkflowScope, Succeeded, "");
      Associate(old(log), first + Ran(world, steps, |steps|), [EventOf(world, WorkflowScope, Succeeded, "")]);
      err := None;
    }
  }

  lemma {:induction false} Associate(a: seq<Call>, b: seq<Call>, c: seq<Call>)
    ensures a + b + c == a + (b + c)
  {
  }

  lemma {:induction false} SameCompensation(a: seq<Step>, b: seq<Step>, n: nat)
    requires n <= |a| && n <= |b| && forall i :: 0 <= i < n ==> a[i] == b[i]
    ensures Compensation(a, n) == Compensation(b, n)
  {
    if n > 0 { SameCompensation(a, b, n - 1); }
  }

  lemma {:induction false} FailedAtSplit(w: World, steps: seq<Step>, k: nat, err: string, before: seq<Call>)
    requires k < |steps|
    ensures before + [EventOf(w, StepScope(steps[k].name), Started, ""), Forward(steps[k].name)]
                   + [EventOf(w, StepScope(steps[k].name), Failed, err)]
                   + (if k == 0 then [] else Compensation(steps, k) + [AnnounceFailure])
                   + [EventOf(w, WorkflowScope, Failed, err)]
            == before + FailedAt(w, steps, k, err)
  {
  }

  // ---- compensation ----

  function Cleanups(calls: seq<Call>): seq<string> {
    if calls == [] then []
    else Cleanups(calls[..|calls| - 1]) + if calls[|calls| - 1].Cleanup? then [calls[|calls| - 1].activity] else []
  }

  /** The cleanup activities of the first n steps. */
  function Undoable(steps: seq<Step>, n: nat): seq<string>
    requires n <= |steps|
  {
    if n == 0 then []
    else Undoable(steps, n - 1) + if steps[n - 1].cleanup.Some? then [steps[n - 1].cleanup.value] else []
  }

  function Reverse(q: seq<string>): (r: seq<string>)
    ensures |r| == |q|
    ensures forall i :: 0 <= i < |q| ==> r[i] == q[|q| - 1 - i]
  {
    if q == [] then [] else [q[|q| - 1]] + Reverse(q[..|q| - 1])
  }

  lemma {:induction false} CleanupsConcat(a: seq<Call>, b: seq<Call>)
    ensures Cleanups(a + b) == Cleanups(a) + Cleanups(b)
    decreases |b|
  {
    if b == [] {
      assert a + b == a;
    } else {
      assert (a + b)[..|a + b| - 1] == a + b[..|b| - 1];
      CleanupsConcat(a, b[..|b| - 1]);
    }
  }

  lemma {:induction false} NoCleanups(calls: seq<Call>)
    requires forall i :: 0 <= i < |calls| ==> !calls[i].Cleanup?
    ensures Cleanups(calls) == []
  {
    if calls != [] { NoCleanups(calls[..|calls| - 1]); }
  }

  lemma {:induction false} RanHasNoCleanups(w: World, steps: seq<Step>, n: nat)
    requires n <= |steps|
    ensures Cleanups(Ran(w, steps, n)) == []
  {
    if n > 0 {
      RanHasNoCleanups(w, steps, n - 1);
      CleanupsConcat(Ran(w, steps, n - 1), Done(w, steps[n - 1]));
      NoCleanups(Done(w, steps[n - 1]));
    }
  }

  lemma {:induction false} ReverseSnoc(q: seq<string>, a: string)
    ensures Reverse(q + [a]) == [a] + Reverse(q)
  {
    assert (q + [a])[..|q|] == q;
  }

  lemma {:induction false} CompensationReverses(steps: seq<Step>, n: nat)
    requires n <= |steps|
    ensures Cleanups(Compensation(steps, n)) == Reverse(Undoable(steps, n))
  {
    if n > 0 {
      CompensationReverses(steps, n - 1);
      CleanupsConcat(Undo(steps[n - 1]), Compensation(steps, n - 1));
      match steps[n - 1].cleanup {
        case Some(a) =>
          CleanupsOfOne(Cleanup(a));
          ReverseSnoc(Undoable(steps, n - 1), a);
        case None =>
          NoCleanups([]);
          assert Undoable(steps, n - 1) + [] == Undoable(steps, n - 1);
      }
    }
  }

  lemma {:induction false} CleanupsOfOne(c: Call)
    requires c.Cleanup?
    ensures Cleanups([c]) == [c.activity]
  {
    assert [c][..0] == [] && Cleanups([]) == [];
  }

  /** A failure undoes exactly the completed steps, in reverse order, after all forward
      work, and nothing is undone when the first step fails or when none does. */
  lemma {:induction false} FailureUndoesCompletedSteps(w: World, steps: seq<Step>)
    ensures var k := FirstFailure(w, steps);
            Cleanups(Trace(w, steps)) == if k == |steps| then [] else Reverse(Undoable(steps, k))
  {
    var k := FirstFailure(w, steps);
    var first := [EventOf(w, WorkflowScope, Started, "")];
    RanHasNoCleanups(w, steps, k);
    NoCleanups(first);
    CleanupsConcat(first, Ran(w, steps, k));
    if k == |steps| {
      var last := [EventOf(w, WorkflowScope, Succeeded, "")];
      NoCleanups(last);
      CleanupsConcat(first + Ran(w, steps, k), last);
    } else {
      var err := w.error(Forward(steps[k].name)).value;
      CleanupsConcat(first + Ran(w, steps, k), FailedAt(w, steps, k, err));
      FailedStepCleanups(w, steps, k, err);
    }
  }

  lemma {:induction false} FailedStepCleanups(w: World, steps: seq<Step>, k: nat, err: string)
    requires k < |steps|
    ensures Cleanups(FailedAt(w, steps, k, err)) == Reverse(Undoable(steps, k))
  {
    var s := steps[k];
    var bracket := [EventOf(w, StepScope(s.name), Started, ""), Forward(s.name),
                    EventOf(w, StepScope(s.name), Failed, err)];
    var last := [EventOf(w, WorkflowScope, Failed, err)];
    NoCleanups(bracket);
    NoCleanups(last);
    CleanupsConcat(bracket + CleanupPhase(steps, k), last);
    CleanupsConcat(bracket, CleanupPhase(steps, k));
    CleanupPhaseReverses(steps, k);
  }

  lemma {:induction false} CleanupPhaseReverses(steps: seq<Step>, k: nat)
    requires k <= |steps|
    ensures Cleanups(CleanupPhase(steps, k)) == Reverse(Undoable(steps, k))
  {
    CompensationReverses(steps, k);
    NoCleanups([AnnounceFailure]);
    CleanupsConcat(Compensation(steps, k), [AnnounceFailure]);
  }

  // ---- the forward calls ----

  function Forwards(calls: seq<Call>): seq<string> {
    if calls == [] then []
    else Forwards(calls[..|calls| - 1]) + if calls[|calls| - 1].Forward? then [calls[|calls| - 1].step] else []
  }

  lemma {:induction false} ForwardsConcat(a: seq<Call>, b: seq<Call>)
    ensures Forwards(a + b) == Forwards(a) + Forwards(b)
    decreases |b|
  {
    if b == [] {
      assert a + b == a;
    } else {
      assert (a + b)[..|a + b| - 1] == a + b[..|b| - 1];
      ForwardsConcat(a, b[..|b| - 1]);
    }
  }

  lemma {:induction false} NoForwards(calls: seq<Call>)
    requires forall i :: 0 <= i < |calls| ==> !calls[i].Forward?
    ensures Forwards(calls) == []
  {
    if calls != [] { NoForwards(calls[..|calls| - 1]); }
  }

  lemma {:induction false} ForwardsOfBracket(a: Call, f: string, b: Call)
    requires a.Emit? && b.Emit?
    ensures Forwards([a, Forward(f), b]) == [f]
  {
    var calls := [a, Forward(f), b];
    assert calls[..2] == [a, Forward(f)] && calls[..2][..1] == [a] && [a][..0] == [];
    assert Forwards([a]) == [];
  }

  /** The names of the first n steps. */
  function FirstNames(steps: seq<Step>, n: nat): (names: seq<string>)
    requires n <= |steps|
    ensures |names| == n && forall i :: 0 <= i < n ==> names[i] == steps[i].name
  {
    if n == 0 then [] else FirstNames(steps, n - 1) + [steps[n - 1].name]
  }

  lemma {:induction false} ForwardsOfRan(w: World, steps: seq<Step>, n: nat)
    requires n <= |steps|
    ensures Forwards(Ran(w, steps, n)) == FirstNames(steps, n)
  {
    if n > 0 {
      ForwardsOfRan(w, steps, n - 1);
      ForwardsConcat(Ran(w, steps, n - 1), Done(w, steps[n - 1]));
      ForwardsOfDone(w, steps[n - 1]);
    }
  }

  lemma {:induction false} ForwardsOfDone(w: World, s: Step)
    ensures Forwards(Done(w, s)) == [s.name]
  {
    ForwardsOfBracket(EventOf(w, StepScope(s.name), Started, ""), s.name, EventOf(w, StepScope(s.name), Succeeded, ""));
  }

  lemma {:induction false} ForwardsOfFailed(w: World, steps: seq<Step>, k: nat, err: string)
    requires k < |steps|
    ensures Forwards(FailedAt(w, steps, k, err)) == [steps[k].name]
  {
    var name := steps[k].name;
    var a, b := EventOf(w, StepScope(name), Started, ""), EventOf(w, StepScope(name), Failed, err);
    var rest := CleanupPhase(steps, k) + [EventOf(w, WorkflowScope, Failed, err)];
    CompensationIsCleanups(steps, k);
    NoForwards(rest);
    ForwardsOfBracket(a, name, b);
    ForwardsConcat([a, Forward(name), b], rest);
    assert FailedAt(w, steps, k, err) == [a, Forward(name), b] + rest;
  }

  lemma {:induction false} CompensationIsCleanups(steps: seq<Step>, n: nat)
    requires n <= |steps|
    ensures forall i :: 0 <= i < |Compensation(steps, n)| ==> Compensation(steps, n)[i].Cleanup?
  {
    if n > 0 { CompensationIsCleanups(steps, n - 1); }
  }

  /** Every run calls the forward activities of the steps up to and including the first that
      fails, each once and in order, and no other. */
  lemma {:induction false} EachStepRunsOnce(w: World, steps: seq<Step>)
    ensures var k := FirstFailure(w, steps);
            Forwards(Trace(w, steps)) == FirstNames(steps, if k == |steps| then k else k + 1)
  {
    var k := FirstFailure(w, steps);
    ForwardsOfHead(w, steps, k);
    if k == |steps| {
      ForwardsSnoc(Head(w, steps, k), EventOf(w, WorkflowScope, Succeeded, ""));
    } else {
      var err := w.error(Forward(steps[k].name)).value;
      ForwardsConcat(Head(w, steps, k), FailedAt(w, steps, k, err));
      ForwardsOfFailed(w, steps, k, err);
    }
  }

  /** The start of the workflow and the first k steps. */
  function Head(w: World, steps: seq<Step>, k: nat): seq<Call>
    requires k <= |steps|
  {
    [EventOf(w, WorkflowScope, Started, "")] + Ran(w, steps, k)
  }

  lemma {:induction false} ForwardsOfHead(w: World, steps: seq<Step>, k: nat)
    requires k <= |steps|
    ensures Forwards(Head(w, steps, k)) == FirstNames(steps, k)
  {
    var first := [EventOf(w, WorkflowScope, Started, "")];
    NoForwards(first);
    ForwardsOfRan(w, steps, k);
    ForwardsConcat(first, Ran(w, steps, k));
  }

  lemma {:induction false} ForwardsSnoc(calls: seq<Call>, last: Call)
    requires !last.Forward?
    ensures Forwards(calls + [last]) == Forwards(calls)
  {
    assert (calls + [last])[..|calls|] == calls;
  }

  // ---- every call in its place ----

  /** A status event; an empty error text is sent as none. */
  function Status(w: World, scope: Scope, phase: Phase, err: string): Call {
    Emit(Event(scope, "monok8s.onboarding", phase, w.time(scope, phase), if err == "" then None else Some(err)))
  }

  /** From place p on: the start of a step, its forward activity, and how it ended. */
  predicate BracketAt(w: World, calls: seq<Call>, p: nat, name: string, phase: Phase, err: string) {
    && p + 2 < |calls|
    && calls[p] == Status(w, StepScope(name), Started, "")
    && calls[p + 1] == Forward(name)
    && calls[p + 2] == Status(w, StepScope(name), phase, err)
  }

  lemma {:induction false} RanInPlace(w: World, steps: seq<Step>, n: nat, i: nat)
    requires i < n <= |steps|
    ensures |Ran(w, steps, n)| == 3 * n
    ensures BracketAt(w, Ran(w, steps, n), 3 * i, steps[i].name, Succeeded, "")
  {
    RanSize(w, steps, n - 1);
    if i < n - 1 { RanInPlace(w, steps, n - 1, i); }
  }

  lemma {:induction false} RanSize(w: World, steps: seq<Step>, n: nat)
    requires n <= |steps|
    ensures |Ran(w, steps, n)| == 3 * n
  {
    if n > 0 { RanSize(w, steps, n - 1); }
  }

  /** The calls of a run that succeeds, place by place. */
  lemma {:induction false} SuccessInPlace(w: World, steps: seq<Step>)
    requires forall i :: 0 <= i < |steps| ==> w.error(Forward(steps[i].name)).None?
    ensures var calls, n := Trace(w, steps), |steps|;
            && |calls| == 3 * n + 2
            && calls[0] == Status(w, WorkflowScope, Started, "")
            && (forall i :: 0 <= i < n ==> BracketAt(w, calls, 3 * i + 1, steps[i].name, Succeeded, ""))
            && calls[3 * n + 1] == Status(w, WorkflowScope, Succeeded, "")
    ensures Outcome(w, steps) == None
  {
    var n := |steps|;
    assert FirstFailure(w, steps) == n;
    RanSize(w, steps, n);
    Appended(Head(w, steps, n), [EventOf(w, WorkflowScope, Succeeded, "")]);
    forall i | 0 <= i < n ensures BracketAt(w, Trace(w, steps), 3 * i + 1, steps[i].name, Succeeded, "") {
      HeadInPlace(w, steps, n, i);
    }
  }

  /** The calls of a run whose step k is the first to fail, up to its failure, place by place. What
      follows are cleanups, the announcement unless no step was completed, and the failed workflow. */
  lemma {:induction false} FailureInPlace(w: World, steps: seq<Step>, k: nat)
    requires k < |steps| && w.error(Forward(steps[k].name)).Some?
    requires forall i :: 0 <= i < k ==> w.error(Forward(steps[i].name)).None?
    ensures var calls, err := Trace(w, steps), w.error(Forward(steps[k].name)).value;
            var end := |calls| - 1;
            && calls[0] == Status(w, WorkflowScope, Started, "")
            && (forall i :: 0 <= i < k ==> BracketAt(w, calls, 3 * i + 1, steps[i].name, Succeeded, ""))
            && BracketAt(w, calls, 3 * k + 1, steps[k].name, Failed, err)
            && calls[end] == Status(w, WorkflowScope, Failed, err)
            && (k == 0 ==> end == 4)
            && (k > 0 ==> end > 3 * k + 4 && calls[end - 1] == AnnounceFailure)
            && (k > 0 ==> forall p :: 3 * k + 4 <= p < end - 1 ==> calls[p].Cleanup?)
    ensures Outcome(w, steps) == w.error(Forward(steps[k].name))
  {
    FailureAt(w, steps, k);
    var err := w.error(Forward(steps[k].name)).value;
    var head, tail := Head(w, steps, k), FailedAt(w, steps, k, err);
    RanSize(w, steps, k);
    FailedInPlace(w, steps, k, err);
    Appended(head, tail);
    forall i | 0 <= i < k ensures BracketAt(w, Trace(w, steps), 3 * i + 1, steps[i].name, Succeeded, "") {
      HeadInPlace(w, steps, k, i);
    }
  }

  lemma {:induction false} HeadInPlace(w: World, steps: seq<Step>, k: nat, i: nat)
    requires i < k <= |steps|
    ensures BracketAt(w, Head(w, steps, k), 3 * i + 1, steps[i].name, Succeeded, "")
  {
    RanInPlace(w, steps, k, i);
  }

  lemma {:induction false} Appended(a: seq<Call>, b: seq<Call>)
    ensures forall p :: 0 <= p < |a| ==> (a + b)[p] == a[p]
    ensures forall p :: 0 <= p < |b| ==> (a + b)[|a| + p] == b[p]
    ensures forall p :: |a| <= p < |a| + |b| ==> (a + b)[p] == b[p - |a|]
  {
  }

  lemma {:induction false} FailureAt(w: World, steps: seq<Step>, k: nat)
    requires k < |steps| && w.error(Forward(steps[k].name)).Some?
    requires forall i :: 0 <= i < k ==> w.error(Forward(steps[i].name)).None?
    ensures FirstFailure(w, steps) == k
  {
  }

  lemma {:induction false} FailedInPlace(w: World, steps: seq<Step>, k: nat, err: string)
    requires k < |steps|
    ensures var calls := FailedAt(w, steps, k, err);
            var end := |calls| - 1;
            && BracketAt(w, calls, 0, steps[k].name, Failed, err)
            && calls[end] == Status(w, WorkflowScope, Failed, err)
            && (k == 0 ==> end == 3)
            && (k > 0 ==> end > 3 && calls[end - 1] == AnnounceFailure)
            && (k > 0 ==> forall p :: 3 <= p < end - 1 ==> calls[p].Cleanup?)
  {
    var bracket := [EventOf(w, StepScope(steps[k].name), Started, ""), Forward(steps[k].name),
                    EventOf(w, StepScope(steps[k].name), Failed, err)];
    var last := EventOf(w, WorkflowScope, Failed, err);
    CleanupsInPlace(steps, k);
    Enclosed(bracket, CleanupPhase(steps, k), last);
  }

  lemma {:induction false} CleanupsInPlace(steps: seq<Step>, k: nat)
    requires 0 <= k <= |steps|
    ensures var c := CleanupPhase(steps, k);
            && (k == 0 ==> c == [])
            && (k > 0 ==> |c| > 0 && c[|c| - 1] == AnnounceFailure)
            && (k > 0 ==> forall p :: 0 <= p < |c| - 1 ==> c[p].Cleanup?)
  {
    CompensationIsCleanups(steps, k);
  }

  lemma {:induction false} Enclosed(a: seq<Call>, b: seq<Call>, c: Call)
    ensures var all := a + b + [c];
            && |all| == |a| + |b| + 1 && all[|a| + |b|] == c
            && (forall p :: 0 <= p < |a| ==> all[p] == a[p])
            && (forall p :: |a| <= p < |a| + |b| ==> all[p] == b[p - |a|])
  {
  }

  /** Errors of cleanups and of status events change neither what is called nor what is
      returned. */
  lemma {:induction false} OnlyForwardErrorsMatter(w: World, w': World, steps: seq<Step>)
    requires w'.time == w.time && forall n :: w'.error(Forward(n)) == w.error(Forward(n))
    ensures Trace(w', steps) == Trace(w, steps) && Outcome(w', steps) == Outcome(w, steps)
  {
    SameFirstFailure(w, w', steps);
    var k := FirstFailure(w, steps);
    SameRan(w, w', steps, k);
  }

  lemma {:induction false} SameFirstFailure(w: World, w': World, steps: seq<Step>)
    requires forall n :: w'.error(Forward(n)) == w.error(Forward(n))
    ensures FirstFailure(w', steps) == FirstFailure(w, steps)
  {
    var k, k' := FirstFailure(w, steps), FirstFailure(w', steps);
    assert k < |steps| ==> w'.error(Forward(steps[k].name)).Some?;
    assert k' < |steps| ==> w.error(Forward(steps[k'].name)).Some?;
  }

  lemma {:induction false} SameRan(w: World, w': World, steps: seq<Step>, n: nat)
    requires n <= |steps| && w'.time == w.time
    ensures Ran(w', steps, n) == Ran(w, steps, n)
  {
    if n > 0 { SameRan(w, w', steps, n - 1); }
  }

  // ---- the emitted stream and what the interface shows of it ----

  function Events(calls: seq<Call>): seq<Event> {
    if calls == [] then []
    else Events(calls[..|calls| - 1]) + if calls[|calls| - 1].Emit? then [calls[|calls| - 1].event] else []
  }

  /** The stream reaches the interface with events dropped, or repeated in place. */
  ghost predicate Delivered(emitted: seq<Event>, d: seq<Event>)
    decreases |emitted| + |d|
  {
    if emitted == [] then d == []
    else
      || Delivered(emitted[..|emitted| - 1], d)
      || (d != [] && d[|d| - 1] == emitted[|emitted| - 1] && Delivered(emitted, d[..|d| - 1]))
  }

  ghost predicate DistinctNames(names: seq<string>) {
    forall i, j :: 0 <= i < j < |names| ==> names[i] != names[j]
  }

  /** An event of a run whose step number `k` fails (or of one that succeeds, if there is no
      step `k`). */
  ghost predicate Fits(names: seq<string>, k: nat, e: Event) {
    && (e.scope.StepScope? ==>
          && e.scope.step in names && IndexOf(names, e.scope.step) <= k
          && (e.phase.Failed? ==> IndexOf(names, e.scope.step) == k))
    && (e.scope.WorkflowScope? && e.phase.Succeeded? ==> k == |names|)
  }

  ghost predicate Before(names: seq<string>, e: Event, f: Event) {
    e.scope.StepScope? && f.scope.StepScope? && e.scope.step in names && f.scope.step in names
    ==> IndexOf(names, e.scope.step) <= IndexOf(names, f.scope.step)
  }

  ghost predicate Orderly(names: seq<string>, k: nat, d: seq<Event>) {
    && (forall i :: 0 <= i < |d| ==> Fits(names, k, d[i]))
    && (forall i, j :: 0 <= i < j < |d| ==> Before(names, d[i], d[j]))
  }

  lemma {:induction false} DeliveredIsOrderly(names: seq<string>, k: nat, emitted: seq<Event>, d: seq<Event>)
    requires Orderly(names, k, emitted) && Delivered(emitted, d)
    ensures Orderly(names, k, d) && forall i :: 0 <= i < |d| ==> d[i] in emitted
    decreases |emitted| + |d|
  {
    if emitted != [] {
      var init, e := emitted[..|emitted| - 1], emitted[|emitted| - 1];
      if Delivered(init, d) {
        DeliveredIsOrderly(names, k, init, d);
        assert emitted == init + [e];
      } else {
        var d' := d[..|d| - 1];
        DeliveredIsOrderly(names, k, emitted, d');
        forall i | 0 <= i < |d'| ensures Before(names, d'[i], e) {
          var n :| 0 <= n < |emitted| && emitted[n] == d'[i];
        }
        assert d == d' + [e];
      }
    }
  }

  lemma {:induction false} LastPhaseOccurs(d: seq<Event>, n: string) returns (i: nat)
    requires LastPhase(d, n).Some?
    ensures i < |d| && Of(d[i], n) && d[i].phase == LastPhase(d, n).value
  {
    if Of(d[|d| - 1], n) { i := |d| - 1; } else { i := LastPhaseOccurs(d[..|d| - 1], n); }
  }

  lemma {:induction false} LastWorkflowOccurs(d: seq<Event>) returns (i: nat)
    requires LastWorkflow(d).Some?
    ensures i < |d| && d[i] == LastWorkflow(d).value && d[i].scope.WorkflowScope?
  {
    if d[|d| - 1].scope.WorkflowScope? { i := |d| - 1; } else { i := LastWorkflowOccurs(d[..|d| - 1]); }
  }

  /** A failed row can only be the step that failed. */
  lemma {:induction false} FailedRowIsFailedStep(names: seq<string>, k: nat, d: seq<Event>, r: nat)
    requires Orderly(names, k, d) && r < |Rows(d)| && Rows(d)[r].phase.Failed?
    ensures k < |names| && Names(d)[r] == names[k]
  {
    var i := LastPhaseOccurs(d, Names(d)[r]);
    assert Fits(names, k, d[i]);
  }

  /** Every row from the failed one on is the failed one. */
  lemma {:induction false} NothingAfterFailedStep(names: seq<string>, k: nat, d: seq<Event>, r: nat, l: nat)
    requires DistinctNames(names) && Orderly(names, k, d) && k < |names|
    requires r <= l < |Names(d)| && Names(d)[r] == names[k]
    ensures Names(d)[l] == names[k]
  {
    NamesByFirstOccurrence(d);
    PlaceOf(names, k);
    var i, j := FirstAt(d, Names(d)[r]), FirstAt(d, Names(d)[l]);
    assert i <= j && Fits(names, k, d[i]) && Fits(names, k, d[j]) && Before(names, d[i], d[j]);
  }

  lemma {:induction false} FailedStepIsLast(names: seq<string>, k: nat, d: seq<Event>, r: nat)
    requires DistinctNames(names) && Orderly(names, k, d) && k < |names|
    requires r < |Names(d)| && Names(d)[r] == names[k]
    ensures r == |Names(d)| - 1
  {
    NothingAfterFailedStep(names, k, d, r, |Names(d)| - 1);
    NamesByFirstOccurrence(d);
  }

  lemma {:induction false} OrderlyTimeline(names: seq<string>, k: nat, d: seq<Event>)
    requires DistinctNames(names) && Orderly(names, k, d)
    ensures forall r :: 0 <= r < |Rows(d)| && Rows(d)[r].phase.Failed? ==> r == |Rows(d)| - 1
    ensures Summary(d).workflowPhase == Some(Succeeded) ==> forall r :: 0 <= r < |Rows(d)| ==> !Rows(d)[r].phase.Failed?
  {
    forall r | 0 <= r < |Rows(d)| && Rows(d)[r].phase.Failed?
      ensures r == |Rows(d)| - 1 && k < |names|
    {
      FailedRowIsFailedStep(names, k, d, r);
      FailedStepIsLast(names, k, d, r);
    }
    if Summary(d).workflowPhase == Some(Succeeded) {
      var i := LastWorkflowOccurs(d);
      assert Fits(names, k, d[i]);
    }
  }

  ghost predicate Named(steps: seq<Step>, names: seq<string>) {
    |names| == |steps| && forall i :: 0 <= i < |steps| ==> names[i] == steps[i].name
  }

  function NamesOf(steps: seq<Step>): (n: seq<string>)
    ensures |n| == |steps|
    ensures forall i :: 0 <= i < |steps| ==> n[i] == steps[i].name
  {
    if steps == [] then [] else NamesOf(steps[..|steps| - 1]) + [steps[|steps| - 1].name]
  }

  lemma {:induction false} EventsConcat(a: seq<Call>, b: seq<Call>)
    ensures Events(a + b) == Events(a) + Events(b)
    decreases |b|
  {
    if b == [] {
      assert a + b == a;
    } else {
      assert (a + b)[..|a + b| - 1] == a + b[..|b| - 1];
      EventsConcat(a, b[..|b| - 1]);
    }
  }

  lemma {:induction false} EventsOfOne(c: Call)
    ensures Events([c]) == if c.Emit? then [c.event] else []
  {
    assert [c][..0] == [] && Events([]) == [];
  }

  lemma {:induction false} EventsOfBracket(a: Call, f: string, b: Call)
    requires a.Emit? && b.Emit?
    ensures Events([a, Forward(f), b]) == [a.event, b.event]
  {
    assert [a, Forward(f), b] == [a] + [Forward(f)] + [b];
    EventsConcat([a] + [Forward(f)], [b]);
    EventsConcat([a], [Forward(f)]);
    EventsOfOne(a);
    EventsOfOne(b);
    EventsOfOne(Forward(f));
  }

  predicate Quiet(calls: seq<Call>) {
    forall i :: 0 <= i < |calls| ==> !calls[i].Emit?
  }

  lemma {:induction false} QuietMeansSilent(calls: seq<Call>)
    requires Quiet(calls)
    ensures Events(calls) == []
  {
    if calls != [] { QuietMeansSilent(calls[..|calls| - 1]); }
  }

  lemma {:induction false} CompensationIsQuiet(steps: seq<Step>, n: nat)
    requires n <= |steps|
    ensures Quiet(Compensation(steps, n))
  {
    if n > 0 { CompensationIsQuiet(steps, n - 1); }
  }

  lemma {:induction false} CleanupPhaseIsSilent(steps: seq<Step>, k: nat)
    requires k <= |steps|
    ensures Events(CleanupPhase(steps, k)) == []
  {
    CompensationIsQuiet(steps, k);
    QuietMeansSilent(CleanupPhase(steps, k));
  }

  /** The status events of a run: the completed steps, then the failing one if any. */
  function Stream(w: World, steps: seq<Step>): seq<Event> {
    Events(Trace(w, steps))
  }

  function Ev(w: World, scope: Scope, phase: Phase, err: string): Event {
    EventOf(w, scope, phase, err).event
  }

  function StepEvents(w: World, steps: seq<Step>, n: nat): seq<Event>
    requires n <= |steps|
  {
    if n == 0 then []
    else
      var scope := StepScope(steps[n - 1].name);
      StepEvents(w, steps, n - 1) + [Ev(w, scope, Started, ""), Ev(w, scope, Succeeded, "")]
  }

  lemma {:induction false} EventsOfRan(w: World, steps: seq<Step>, n: nat)
    requires n <= |steps|
    ensures Events(Ran(w, steps, n)) == StepEvents(w, steps, n)
  {
    if n > 0 {
      var last := steps[n - 1];
      EventsOfRan(w, steps, n - 1);
      EventsConcat(Ran(w, steps, n - 1), Done(w, last));
      EventsOfBracket(EventOf(w, StepScope(last.name), Started, ""), last.name,
                      EventOf(w, StepScope(last.name), Succeeded, ""));
    }
  }

  /** The events of the first n steps after the start of the workflow. */
  function Opening(w: World, steps: seq<Step>, n: nat): seq<Event>
    requires n <= |steps|
  {
    [Ev(w, WorkflowScope, Started, "")] + StepEvents(w, steps, n)
  }

  lemma {:induction false} OpeningSnoc(w: World, steps: seq<Step>, n: nat)
    requires n < |steps|
    ensures Opening(w, steps, n + 1)
            == Opening(w, steps, n) + [Ev(w, StepScope(steps[n].name), Started, "")]
               + [Ev(w, StepScope(steps[n].name), Succeeded, "")]
  {
  }

  function LastEvents(w: World, steps: seq<Step>): seq<Event> {
    var k := FirstFailure(w, steps);
    if k == |steps| then [Ev(w, WorkflowScope, Succeeded, "")]
    else
      var err := w.error(Forward(steps[k].name)).value;
      [Ev(w, StepScope(steps[k].name), Started, ""), Ev(w, StepScope(steps[k].name), Failed, err),
       Ev(w, WorkflowScope, Failed, err)]
  }

  lemma {:induction false} StreamShape(w: World, steps: seq<Step>)
    ensures Stream(w, steps)
            == Opening(w, steps, FirstFailure(w, steps)) + LastEvents(w, steps)
  {
    var k := FirstFailure(w, steps);
    var first := EventOf(w, WorkflowScope, Started, "");
    EventsOfRan(w, steps, k);
    EventsOfOne(first);
    EventsConcat([first], Ran(w, steps, k));
    if k == |steps| {
      EventsOfOne(EventOf(w, WorkflowScope, Succeeded, ""));
      EventsConcat([first] + Ran(w, steps, k), [EventOf(w, WorkflowScope, Succeeded, "")]);
    } else {
      var err := w.error(Forward(steps[k].name)).value;
      EventsConcat([first] + Ran(w, steps, k), FailedAt(w, steps, k, err));
      EventsOfFailure(w, steps, k, err);
    }
  }

  lemma {:induction false} EventsOfFailure(w: World, steps: seq<Step>, k: nat, err: string)
    requires k < |steps|
    ensures Events(FailedAt(w, steps, k, err))
            == [Ev(w, StepScope(steps[k].name), Started, ""), Ev(w, StepScope(steps[k].name), Failed, err),
                Ev(w, WorkflowScope, Failed, err)]
  {
    var s := steps[k];
    var bracket := [EventOf(w, StepScope(s.name), Started, ""), Forward(s.name),
                    EventOf(w, StepScope(s.name), Failed, err)];
    var last := EventOf(w, WorkflowScope, Failed, err);
    EventsAround(bracket, CleanupPhase(steps, k), last);
    EventsOfBracket(bracket[0], s.name, bracket[2]);
    CleanupPhaseIsSilent(steps, k);
  }

  lemma {:induction false} EventsAround(a: seq<Call>, b: seq<Call>, last: Call)
    requires last.Emit?
    ensures Events(a + b + [last]) == Events(a) + Events(b) + [last.event]
  {
    EventsConcat(a + b, [last]);
    EventsConcat(a, b);
    EventsOfOne(last);
  }

  /** Appending events of step `j` keeps a stream of steps up to `j` orderly. */
  lemma {:induction false} OrderlySnoc(names: seq<string>, k: nat, d: seq<Event>, e: Event)
    requires Orderly(names, k, d) && Fits(names, k, e)
    requires forall i :: 0 <= i < |d| ==> Before(names, d[i], e)
    ensures Orderly(names, k, d + [e])
  {
  }

  lemma {:induction false} PlaceOf(names: seq<string>, i: nat)
    requires DistinctNames(names) && i < |names|
    ensures names[i] in names && IndexOf(names, names[i]) == i
  {
  }

  ghost predicate BelowStep(names: seq<string>, d: seq<Event>, j: nat) {
    forall i :: 0 <= i < |d| && d[i].scope.StepScope?
      ==> d[i].scope.step in names && IndexOf(names, d[i].scope.step) < j
  }

  ghost predicate OrderlyOpening(w: World, steps: seq<Step>, k: nat, j: nat, names: seq<string>)
    requires j <= |steps|
  {
    Orderly(names, k, Opening(w, steps, j)) && BelowStep(names, Opening(w, steps, j), j)
  }

  lemma {:induction false} OneMoreOrderly(w: World, steps: seq<Step>, k: nat, j: nat, names: seq<string>)
    requires Named(steps, names) && DistinctNames(names) && j < k <= |steps| && OrderlyOpening(w, steps, k, j, names)
    ensures OrderlyOpening(w, steps, k, j + 1, names)
  {
    var d, scope := Opening(w, steps, j), StepScope(steps[j].name);
    OpeningSnoc(w, steps, j);
    OneStepOrderly(names, k, j, d, Ev(w, scope, Started, ""), Ev(w, scope, Succeeded, ""));
  }

  lemma {:induction false} StepEventsOrderly(w: World, steps: seq<Step>, k: nat, j: nat, names: seq<string>)
    requires Named(steps, names) && DistinctNames(names) && j <= k <= |steps|
    ensures OrderlyOpening(w, steps, k, j, names)
  {
    if j > 0 {
      StepEventsOrderly(w, steps, k, j - 1, names);
      OneMoreOrderly(w, steps, k, j - 1, names);
    }
  }

  lemma {:induction false} OneStepOrderly(names: seq<string>, k: nat, j: nat, d: seq<Event>, a: Event, b: Event)
    requires DistinctNames(names) && j < k <= |names| && Orderly(names, k, d) && BelowStep(names, d, j)
    requires Of(a, names[j]) && Of(b, names[j]) && !a.phase.Failed? && !b.phase.Failed?
    ensures Orderly(names, k, d + [a] + [b]) && BelowStep(names, d + [a] + [b], j + 1)
  {
    PlaceOf(names, j);
    OrderlySnoc(names, k, d, a);
    OrderlySnoc(names, k, d + [a], b);
  }

  lemma {:induction false} StreamIsOrderly(w: World, steps: seq<Step>)
    requires DistinctNames(NamesOf(steps))
    ensures Orderly(NamesOf(steps), FirstFailure(w, steps), Stream(w, steps))
  {
    var names, k := NamesOf(steps), FirstFailure(w, steps);
    var d := Opening(w, steps, k);
    StreamShape(w, steps);
    StepEventsOrderly(w, steps, k, k, names);
    if k == |steps| {
      OrderlySnoc(names, k, d, Ev(w, WorkflowScope, Succeeded, ""));
    } else {
      FailureOrderly(names, k, d, LastEvents(w, steps));
    }
  }

  lemma {:induction false} FailureOrderly(names: seq<string>, k: nat, d: seq<Event>, last: seq<Event>)
    requires DistinctNames(names) && k < |names| && Orderly(names, k, d) && BelowStep(names, d, k)
    requires |last| == 3 && Of(last[0], names[k]) && Of(last[1], names[k])
    requires last[2].scope.WorkflowScope? && last[2].phase.Failed?
    ensures Orderly(names, k, d + last)
  {
    PlaceOf(names, k);
    OrderlySnoc(names, k, d, last[0]);
    OrderlySnoc(names, k, d + [last[0]], last[1]);
    OrderlySnoc(names, k, d + [last[0]] + [last[1]], last[2]);
    assert d + last == d + [last[0]] + [last[1]] + [last[2]];
  }

  /** However the status events of a run are dropped or repeated on their way, the timeline
      shows at most one failed row, it is the last row, and a workflow shown as succeeded
      has none. */
  lemma {:induction false} DeliveredTimelineIsSound(w: World, steps: seq<Step>, d: seq<Event>)
    requires DistinctNames(NamesOf(steps)) && Delivered(Stream(w, steps), d)
    ensures forall r :: 0 <= r < |Summary(d).steps| && Summary(d).steps[r].phase.Failed? ==> r == |Summary(d).steps| - 1
    ensures Summary(d).workflowPhase == Some(Succeeded)
            ==> forall r :: 0 <= r < |Summary(d).steps| ==> !Summary(d).steps[r].phase.Failed?
  {
    var names, k := NamesOf(steps), FirstFailure(w, steps);
    StreamIsOrderly(w, steps);
    DeliveredIsOrderly(names, k, Stream(w, steps), d);
    OrderlyTimeline(names, k, d);
  }

  // ---- a stream that arrives whole ----

  lemma {:induction false} SnocRead(d: seq<Event>, e: Event, n: string)
    ensures LastPhase(d + [e], n) == if Of(e, n) then Some(e.phase) else LastPhase(d, n)
    ensures Names(d + [e]) == Names(d) + if e.scope.StepScope? && e.scope.step !in Names(d) then [e.scope.step] else []
    ensures LastWorkflow(d + [e]) == if e.scope.WorkflowScope? then Some(e) else LastWorkflow(d)
  {
    assert (d + [e])[..|d|] == d;
  }

  /** The first `j` steps are shown in order, all succeeded. */
  ghost predicate ShowsDone(d: seq<Event>, names: seq<string>, j: nat)
    requires j <= |names|
  {
    && Names(d) == names[..j]
    && forall i :: 0 <= i < j ==> LastPhase(d, names[i]) == Some(Succeeded)
  }

  lemma {:induction false} NewStepShown(w: World, names: seq<string>, j: nat, d: seq<Event>, phase: Phase, err: string)
    requires DistinctNames(names) && j < |names| && ShowsDone(d, names, j)
    ensures var scope := StepScope(names[j]);
            var d' := d + [Ev(w, scope, Started, "")] + [Ev(w, scope, phase, err)];
            && Names(d') == names[..j + 1] && LastPhase(d', names[j]) == Some(phase)
            && (forall i :: 0 <= i < j ==> LastPhase(d', names[i]) == Some(Succeeded))
  {
    var a, b := Ev(w, StepScope(names[j]), Started, ""), Ev(w, StepScope(names[j]), phase, err);
    assert names[j] !in names[..j];
    forall i | 0 <= i <= j
      ensures LastPhase(d + [a] + [b], names[i]) == if i == j then Some(phase) else LastPhase(d, names[i])
    {
      SnocRead(d, a, names[i]);
      SnocRead(d + [a], b, names[i]);
    }
    SnocRead(d, a, names[j]);
    SnocRead(d + [a], b, names[j]);
    assert names[..j + 1] == names[..j] + [names[j]];
  }

  lemma {:induction false} NoneShown(w: World, steps: seq<Step>, names: seq<string>)
    ensures ShowsDone(Opening(w, steps, 0), names, 0)
  {
    var e := Ev(w, WorkflowScope, Started, "");
    SnocRead([], e, "");
    assert [] + [e] == Opening(w, steps, 0);
  }

  lemma {:induction false} OneMoreShown(w: World, steps: seq<Step>, j: nat, names: seq<string>)
    requires Named(steps, names) && DistinctNames(names) && j < |steps|
    requires ShowsDone(Opening(w, steps, j), names, j)
    ensures ShowsDone(Opening(w, steps, j + 1), names, j + 1)
  {
    NewStepShown(w, names, j, Opening(w, steps, j), Succeeded, "");
    OpeningSnoc(w, steps, j);
  }

  lemma {:induction false} StepEventsShown(w: World, steps: seq<Step>, j: nat, names: seq<string>)
    requires Named(steps, names) && DistinctNames(names) && j <= |steps|
    ensures ShowsDone(Opening(w, steps, j), names, j)
  {
    if j == 0 {
      NoneShown(w, steps, names);
    } else {
      StepEventsShown(w, steps, j - 1, names);
      OneMoreShown(w, steps, j - 1, names);
    }
  }

  lemma {:induction false} LifecycleShown(d: seq<Event>, e: Event)
    requires e.scope.WorkflowScope?
    ensures Names(d + [e]) == Names(d) && Summary(d + [e]).workflowPhase == Some(e.phase)
    ensures forall n :: LastPhase(d + [e], n) == LastPhase(d, n)
  {
    forall n ensures LastPhase(d + [e], n) == LastPhase(d, n) { SnocRead(d, e, n); }
    SnocRead(d, e, "");
  }

  /** When every event of a successful run arrives once, every step is shown as succeeded,
      in order, and so is the workflow. */
  lemma {:induction false} SuccessIsShown(w: World, steps: seq<Step>)
    requires DistinctNames(NamesOf(steps)) && FirstFailure(w, steps) == |steps|
    ensures var d := Stream(w, steps);
            ShowsDone(d, NamesOf(steps), |steps|) && Summary(d).workflowPhase == Some(Succeeded)
  {
    StreamShape(w, steps);
    StepEventsShown(w, steps, |steps|, NamesOf(steps));
    LifecycleShown(Opening(w, steps, |steps|), Ev(w, WorkflowScope, Succeeded, ""));
  }

  /** When every event of a failed run arrives once, the steps before the failing one are
      shown as succeeded, that step as failed, no later step at all, and the workflow as
      failed. */
  lemma {:induction false} FailureIsShown(w: World, steps: seq<Step>)
    requires DistinctNames(NamesOf(steps)) && FirstFailure(w, steps) < |steps|
    ensures var k, names := FirstFailure(w, steps), NamesOf(steps);
            var d := Stream(w, steps);
            && Names(d) == names[..k + 1]
            && (forall i :: 0 <= i < k ==> LastPhase(d, names[i]) == Some(Succeeded))
            && LastPhase(d, names[k]) == Some(Failed)
            && Summary(d).workflowPhase == Some(Failed)
  {
    StreamShape(w, steps);
    FailedOpeningShown(w, steps, FirstFailure(w, steps), NamesOf(steps), LastEvents(w, steps));
  }

  lemma {:induction false} FailedOpeningShown(w: World, steps: seq<Step>, k: nat, names: seq<string>, last: seq<Event>)
    requires Named(steps, names) && DistinctNames(names) && k < |steps|
    requires exists err ::
               last == [Ev(w, StepScope(names[k]), Started, ""), Ev(w, StepScope(names[k]), Failed, err),
                        Ev(w, WorkflowScope, Failed, err)]
    ensures var d := Opening(w, steps, k) + last;
            && Names(d) == names[..k + 1]
            && (forall i :: 0 <= i < k ==> LastPhase(d, names[i]) == Some(Succeeded))
            && LastPhase(d, names[k]) == Some(Failed)
            && Summary(d).workflowPhase == Some(Failed)
  {
    var d := Opening(w, steps, k);
    StepEventsShown(w, steps, k, names);
    var err :| last == [Ev(w, StepScope(names[k]), Started, ""), Ev(w, StepScope(names[k]), Failed, err),
                        Ev(w, WorkflowScope, Failed, err)];
    NewStepShown(w, names, k, d, Failed, err);
    var d' := d + [last[0]] + [last[1]];
    LifecycleShown(d', last[2]);
    assert d + last == d' + [last[2]];
  }

  /** The theorems above apply to the onboarding workflow: its steps have different names. */
  lemma {:induction false} OnboardingNamesAreDistinct()
    ensures DistinctNames(NamesOf(ONBOARDING))
  {
    var n := NamesOf(ONBOARDING);
    assert |n| == 5 && n[0][0] == 'p' && n[1][0] == 'p' && n[0][10] == 'n' && n[1][10] == 'd';
    assert n[2][0] == 'm' && n[3][0] == 'r' && n[4][0] == 'e';
  }

  /** A saga of five steps of which the first three can be undone. */
  lemma {:induction false} ThreeUndoable(steps: seq<Step>, a: string, b: string, c: string, k: nat)
    requires k <= |steps| == 5
    requires steps[0].cleanup == Some(a) && steps[1].cleanup == Some(b) && steps[2].cleanup == Some(c)
    requires steps[3].cleanup.None? && steps[4].cleanup.None?
    ensures Undoable(steps, k) == if k == 0 then [] else if k == 1 then [a] else if k == 2 then [a, b] else [a, b, c]
  {
    if k > 0 { ThreeUndoable(steps, a, b, c, k - 1); }
  }

  lemma {:induction false} ReverseOfThree(a: string, b: string, c: string)
    ensures Reverse([]) == [] && Reverse([a]) == [a] && Reverse([a, b]) == [b, a] && Reverse([a, b, c]) == [c, b, a]
  {
  }

  /** What the onboarding of a tenant undoes, by the number of steps that it has completed. */
  lemma {:induction false} OnboardingUndoes(w: World)
    ensures var k, undone := FirstFailure(w, ONBOARDING), Cleanups(Trace(w, ONBOARDING));
            var namespace, database, vaultKey :=
              "DeleteTenantNamespaceActivity", "DeleteTenantDatabaseActivity", "DeleteTenantVaultKeyActivity";
            && (k == 0 || k == 5 ==> undone == [])
            && (k == 1 ==> undone == [namespace])
            && (k == 2 ==> undone == [database, namespace])
            && (k == 3 || k == 4 ==> undone == [vaultKey, database, namespace])
  {
    var k := FirstFailure(w, ONBOARDING);
    var namespace, database := ONBOARDING[0].cleanup.value, ONBOARDING[1].cleanup.value;
    var vaultKey := ONBOARDING[2].cleanup.value;
    FailureUndoesCompletedSteps(w, ONBOARDING);
    ThreeUndoable(ONBOARDING, namespace, database, vaultKey, k);
    ReverseOfThree(namespace, database, vaultKey);
  }
}
