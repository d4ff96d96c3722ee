/** `AccessReviewTenantWorkflow` of apps/workers/access-review/workflow.go: the loop that
    waits for decisions, and the effects applied when it ends. */
module AccessReview {
  datatype Assignment = Assignment(assignmentId: string, userId: string, role: string)

  /** What wakes the select loop: a signal for some review, the reminder, the deadline. */
  datatype Event = Signal(reviewId: string, assignmentId: string, decision: string) | Reminder | Deadline

  type Decisions = map<string, string>

  datatype Effect =
    | Remind(pending: seq<Assignment>)
    | Revoke(assignment: Assignment)
    | Audit(assignment: Assignment, decision: string)

  function Ids(batch: seq<Assignment>): set<string> {
    set a | a in batch :: a.assignmentId
  }

  function PendingOf(batch: seq<Assignment>, d: Decisions): seq<Assignment> {
    if batch == [] then []
    else
      var before, a := PendingOf(batch[..|batch| - 1], d), batch[|batch| - 1];
      if a.assignmentId in d then before else before + [a]
  }

  /** `pendingAssignments`. */
  method PendingAssignments(batch: seq<Assignment>, d: Decisions) returns (pending: seq<Assignment>)
    ensures pending == PendingOf(batch, d)
    ensures Ids(pending) == Ids(batch) - d.Keys
  {
    pending := [];
    for i := 0 to |batch|
      invariant pending == PendingOf(batch[..i], d)
    {
      assert batch[..i + 1][..i] == batch[..i];
      if batch[i].assignmentId !in d { pending := pending + [batch[i]]; }
    }
    assert batch[..|batch|] == batch;
    PendingPartitions(batch, d);
  }

  lemma {:induction false} PendingHolds(batch: seq<Assignment>, d: Decisions)
    ensures forall a :: a in PendingOf(batch, d) <==> a in batch && a.assignmentId !in d
  {
    if batch != [] {
      PendingHolds(batch[..|batch| - 1], d);
      assert batch == batch[..|batch| - 1] + [batch[|batch| - 1]];
    }
  }

  /** Pending and decided partition the batch. */
  lemma {:induction false} PendingPartitions(batch: seq<Assignment>, d: Decisions)
    ensures Ids(PendingOf(batch, d)) == Ids(batch) - d.Keys
    ensures Ids(PendingOf(batch, d)) !! d.Keys
  {
    PendingHolds(batch, d);
    forall id ensures id in Ids(PendingOf(batch, d)) <==> id in Ids(batch) - d.Keys {
      if id in Ids(batch) && id !in d {
        var a :| a in batch && a.assignmentId == id;
        assert a in PendingOf(batch, d);
      }
    }
  }

  // ---- the loop, as a specification ----

  /** Silence at the deadline becomes a revocation. */
  function DenyByDefault(batch: seq<Assignment>, d: Decisions): Decisions {
    map id | id in Ids(batch) + d.Keys :: if id in d then d[id] else "revoked"
  }

  function Handle(reviewId: string, batch: seq<Assignment>, d: Decisions, e: Event): Decisions {
    match e
    case Signal(r, id, decision) => if r == reviewId then d[id := decision] else d
    case Reminder => d
    case Deadline => DenyByDefault(batch, d)
  }

  predicate Over(batch: seq<Assignment>, d: Decisions) {
    |d| >= |batch|
  }

  /** The decisions after the loop has read the events, and how many it has read: it stops
      at the first moment that it counts as many decisions as assignments. */
  function After(reviewId: string, batch: seq<Assignment>, events: seq<Event>): Decisions {
    if events == [] then map[]
    else
      var d := After(reviewId, batch, events[..|events| - 1]);
      if Over(batch, d) then d else Handle(reviewId, batch, d, events[|events| - 1])
  }

  /** The last response for an assignment, or `revoked` if the deadline came without one. */
  function Verdict(reviewId: string, events: seq<Event>, id: string): (v: string)
  {
    if events == [] then ""
    else
      var before := Verdict(reviewId, events[..|events| - 1], id);
      match events[|events| - 1]
      case Signal(r, a, decision) => if r == reviewId && a == id then decision else before
      case Reminder => before
      case Deadline => if Answered(reviewId, events[..|events| - 1], id) then before else "revoked"
  }

  predicate Answered(reviewId: string, events: seq<Event>, id: string) {
    events != [] &&
    (Answered(reviewId, events[..|events| - 1], id)
     || match events[|events| - 1]
        case Signal(r, a, _) => r == reviewId && a == id
        case Reminder => false
        case Deadline => true)
  }

  function Effects(batch: seq<Assignment>, d: Decisions): seq<Effect> {
    if batch == [] then []
    else
      var a := batch[|batch| - 1];
      var decision := if a.assignmentId in d then d[a.assignmentId] else "";
      Effects(batch[..|batch| - 1], d)
      + (if decision == "revoked" then [Revoke(a)] else [])
      + [Audit(a, decision)]
  }

  /** A reminder goes out for what is pending when the reminder timer fires. */
  function ReminderFor(batch: seq<Assignment>, d: Decisions, e: Event): seq<Effect> {
    if e.Reminder? && PendingOf(batch, d) != [] then [Remind(PendingOf(batch, d))] else []
  }

  function Reminders(reviewId: string, batch: seq<Assignment>, events: seq<Event>): seq<Effect> {
    if events == [] then []
    else
      var before := events[..|events| - 1];
      var d := After(reviewId, batch, before);
      Reminders(reviewId, batch, before) + if Over(batch, d) then [] else ReminderFor(batch, d, events[|events| - 1])
  }

  class Review {
    var effects: seq<Effect>

    constructor ()
      ensures effects == []
    {
      effects := [];
    }

    /** The review of one tenant over the events that arrive, in order. `done` tells whether
        the loop ended; otherwise it is still waiting for the next event. Revocations and
        audit writes are attempted once each; their errors are ignored. */
    method Run(reviewId: string, batch: seq<Assignment>, events: seq<Event>) returns (done: bool, decisions: Decisions)
      modifies this
      ensures decisions == After(reviewId, batch, events)
      ensures done == Over(batch, decisions)
      ensures effects == old(effects) + Reminders(reviewId, batch, events)
                         + if done then Effects(batch, decisions) else []
    {
      decisions := map[];
      var n := 0;
      while |decisions| < |batch| && n < |events|
        invariant n <= |events| && decisions == After(reviewId, batch, events[..n])
        invariant effects == old(effects) + Reminders(reviewId, batch, events[..n])
        decreases |events| - n
      {
        ReadOne(reviewId, batch, events, n);
        decisions := OnEvent(reviewId, batch, decisions, events[n]);
        n := n + 1;
      }
      StopsForGood(reviewId, batch, events, n);
      done := |decisions| >= |batch|;
      if done { Apply(batch, decisions); }
    }

    method OnEvent(reviewId: string, batch: seq<Assignment>, d: Decisions, e: Event) returns (decisions: Decisions)
      modifies this
      ensures decisions == Handle(reviewId, batch, d, e)
      ensures effects == old(effects) + ReminderFor(batch, d, e)
    {
      decisions := d;
      match e {
        case Signal(r, id, decision) =>
          if r == reviewId { decisions := decisions[id := decision]; }
        case Reminder =>
          var pending := PendingAssignments(batch, decisions);
          if |pending| == 0 { return; }
          effects := effects + [Remind(pending)];
        case Deadline =>
          decisions := RevokeSilent(batch, decisions);
      }
    }

    /** The callback of the deadline: a loop over all assignments. */
    method RevokeSilent(batch: seq<Assignment>, was: Decisions) returns (decisions: Decisions)
      ensures decisions == DenyByDefault(batch, was)
    {
      decisions := was;
      for i := 0 to |batch|
        invariant decisions == DenyByDefault(batch[..i], was)
      {
        var id := batch[i].assignmentId;
        DenySnoc(batch, i, was);
        if id !in decisions { decisions := decisions[id := "revoked"]; }
      }
      assert batch[..|batch|] == batch;
    }

    method Apply(batch: seq<Assignment>, decisions: Decisions)
      modifies this
      ensures effects == old(effects) + Effects(batch, decisions)
    {
      for i := 0 to |batch|
        invariant effects == old(effects) + Effects(batch[..i], decisions)
      {
        var a := batch[i];
        assert batch[..i + 1][..i] == batch[..i];
        var decision := if a.assignmentId in decisions then decisions[a.assignmentId] else "";
        if decision == "revoked" { effects := effects + [Revoke(a)]; }
        effects := effects + [Audit(a, decision)];
      }
      assert batch[..|batch|] == batch;
    }
  }

  lemma {:induction false} ReadOne(reviewId: string, batch: seq<Assignment>, events: seq<Event>, n: nat)
    requires n < |events| && !Over(batch, After(reviewId, batch, events[..n]))
    ensures var d := After(reviewId, batch, events[..n]);
            && After(reviewId, batch, events[..n + 1]) == Handle(reviewId, batch, d, events[n])
            && Reminders(reviewId, batch, events[..n + 1])
               == Reminders(reviewId, batch, events[..n]) + ReminderFor(batch, d, events[n])
  {
    assert events[..n + 1][..n] == events[..n];
  }

  lemma {:induction false} IdsSnoc(batch: seq<Assignment>, i: nat)
    requires i < |batch|
    ensures Ids(batch[..i + 1]) == Ids(batch[..i]) + {batch[i].assignmentId}
  {
    assert batch[..i + 1] == batch[..i] + [batch[i]];
  }

  lemma {:induction false} DenySnoc(batch: seq<Assignment>, i: nat, was: Decisions)
    requires i < |batch|
    ensures var d, id := DenyByDefault(batch[..i], was), batch[i].assignmentId;
            DenyByDefault(batch[..i + 1], was) == if id in d then d else d[id := "revoked"]
  {
    IdsSnoc(batch, i);
  }

  lemma {:induction false} StopsForGood(reviewId: string, batch: seq<Assignment>, events: seq<Event>, n: nat)
    requires n <= |events| && (n == |events| || Over(batch, After(reviewId, batch, events[..n])))
    ensures After(reviewId, batch, events) == After(reviewId, batch, events[..n])
    ensures Reminders(reviewId, batch, events) == Reminders(reviewId, batch, events[..n])
    decreases |events| - n
  {
    if n == |events| {
      assert events[..n] == events;
    } else {
      assert events[..n + 1][..n] == events[..n];
      StopsForGood(reviewId, batch, events, n + 1);
    }
  }

  // ---- what the loop guarantees ----

  ghost predicate DistinctIds(batch: seq<Assignment>) {
    forall i, j :: 0 <= i < j < |batch| ==> batch[i].assignmentId != batch[j].assignmentId
  }

  /** Every response that counts for the review names an assignment of the batch. */
  ghost predicate OnTopic(reviewId: string, batch: seq<Assignment>, events: seq<Event>) {
    forall i :: 0 <= i < |events| && events[i].Signal? && events[i].reviewId == reviewId
                ==> events[i].assignmentId in Ids(batch)
  }

  lemma {:induction false} IdsSize(batch: seq<Assignment>)
    ensures |Ids(batch)| <= |batch|
    ensures |Ids(batch)| == |batch| <==> DistinctIds(batch)
  {
    if batch != [] {
      var init, last := batch[..|batch| - 1], batch[|batch| - 1];
      assert batch == init + [last];
      IdsSize(init);
      IdsSizeSnoc(init, last);
      DistinctSnoc(init, last);
    }
  }

  lemma {:induction false} IdsSizeSnoc(init: seq<Assignment>, last: Assignment)
    ensures |Ids(init + [last])| == |Ids(init)| + if last.assignmentId in Ids(init) then 0 else 1
  {
    assert (init + [last])[..|init|] == init && (init + [last])[..|init| + 1] == init + [last];
    IdsSnoc(init + [last], |init|);
  }

  lemma {:induction false} DistinctSnoc(init: seq<Assignment>, last: Assignment)
    ensures DistinctIds(init + [last]) <==> DistinctIds(init) && last.assignmentId !in Ids(init)
  {
    var batch := init + [last];
    assert forall i :: 0 <= i < |init| ==> batch[i] == init[i];
    if last.assignmentId in Ids(init) {
      var i :| 0 <= i < |init| && init[i].assignmentId == last.assignmentId;
      assert batch[i].assignmentId == batch[|init|].assignmentId;
    } else {
      forall i | 0 <= i < |init| ensures init[i].assignmentId != last.assignmentId {
        assert init[i] in init && init[i].assignmentId in Ids(init);
      }
    }
  }

  lemma {:induction false} DecidedInBatch(reviewId: string, batch: seq<Assignment>, events: seq<Event>)
    requires OnTopic(reviewId, batch, events)
    ensures After(reviewId, batch, events).Keys <= Ids(batch)
  {
    if events != [] { DecidedInBatch(reviewId, batch, events[..|events| - 1]); }
  }

  lemma {:induction false} CountedAll(batch: seq<Assignment>, d: Decisions)
    requires d.Keys <= Ids(batch)
    ensures Over(batch, d) <==> DistinctIds(batch) && d.Keys == Ids(batch)
  {
    IdsSize(batch);
    assert |d| == |d.Keys|;
    SubsetSize(d.Keys, Ids(batch));
  }

  lemma {:induction false} SubsetSize(a: set<string>, b: set<string>)
    requires a <= b
    ensures |a| <= |b| && (|a| == |b| ==> a == b)
  {
    assert b == a + (b - a);
    assert |b| == |a| + |b - a|;
  }

  /** The number of events that the loop reads. */
  function ReadBy(reviewId: string, batch: seq<Assignment>, events: seq<Event>): (n: nat)
    ensures n <= |events|
    ensures After(reviewId, batch, events[..n]) == After(reviewId, batch, events)
    ensures forall k :: 0 <= k < n ==> !Over(batch, After(reviewId, batch, events[..k]))
  {
    if events == [] then 0
    else
      var before := events[..|events| - 1];
      var n := ReadBy(reviewId, batch, before);
      assert forall k :: 0 <= k <= |before| ==> before[..k] == events[..k];
      assert events[..|events|] == events;
      if Over(batch, After(reviewId, batch, before)) then n
      else
        assert n == |before| || n < |before|;
        StillReading(reviewId, batch, before);
        |events|
  }

  lemma {:induction false} StillReading(reviewId: string, batch: seq<Assignment>, events: seq<Event>)
    requires !Over(batch, After(reviewId, batch, events))
    ensures forall k :: 0 <= k <= |events| ==> !Over(batch, After(reviewId, batch, events[..k]))
  {
    forall k | 0 <= k <= |events| ensures !Over(batch, After(reviewId, batch, events[..k])) {
      if Over(batch, After(reviewId, batch, events[..k])) { StopsForGood(reviewId, batch, events, k); }
    }
  }

  /** The events that the loop reads. */
  function Heard(reviewId: string, batch: seq<Assignment>, events: seq<Event>): (heard: seq<Event>)
    ensures After(reviewId, batch, heard) == After(reviewId, batch, events)
    ensures Reading(reviewId, batch, heard)
  {
    var n := ReadBy(reviewId, batch, events);
    assert forall k :: 0 <= k < n ==> events[..n][..k] == events[..k];
    events[..n]
  }

  /** The loop is still running before each of the events. */
  ghost predicate Reading(reviewId: string, batch: seq<Assignment>, events: seq<Event>) {
    forall k :: 0 <= k < |events| ==> !Over(batch, After(reviewId, batch, events[..k]))
  }

  lemma {:induction false} ReadingInit(reviewId: string, batch: seq<Assignment>, events: seq<Event>)
    requires Reading(reviewId, batch, events) && events != []
    ensures var before := events[..|events| - 1];
            Reading(reviewId, batch, before) && !Over(batch, After(reviewId, batch, before))
  {
    var before := events[..|events| - 1];
    assert forall k :: 0 <= k <= |before| ==> before[..k] == events[..k];
  }

  /** When the responses that the loop reads stay on topic, it is over exactly if the ids are
      distinct and every assignment has a decision. In particular it never ends before that, and
      with a repeated id it never ends at all. */
  lemma {:induction false} EndsWhenAllDecided(reviewId: string, batch: seq<Assignment>, events: seq<Event>)
    requires OnTopic(reviewId, batch, Heard(reviewId, batch, events))
    ensures var d := After(reviewId, batch, events);
            Over(batch, d) <==> DistinctIds(batch) && forall a :: a in batch ==> a.assignmentId in d
  {
    var d := After(reviewId, batch, events);
    DecidedInBatch(reviewId, batch, Heard(reviewId, batch, events));
    CountedAll(batch, d);
    if forall a :: a in batch ==> a.assignmentId in d {
      assert d.Keys == Ids(batch);
    }
  }

  /** What the loop has read is decided: the responses, and after the deadline the batch. */
  lemma {:induction false} ReadMeansDecided(reviewId: string, batch: seq<Assignment>, events: seq<Event>)
    requires Reading(reviewId, batch, events)
    ensures Deadline in events ==> Ids(batch) <= After(reviewId, batch, events).Keys
    ensures forall i :: 0 <= i < |events| && events[i].Signal? && events[i].reviewId == reviewId ==>
              events[i].assignmentId in After(reviewId, batch, events)
  {
    if events != [] {
      var before, last := events[..|events| - 1], events[|events| - 1];
      ReadingInit(reviewId, batch, events);
      ReadMeansDecided(reviewId, batch, before);
      assert events == before + [last];
    }
  }

  /** Before the deadline the loop never counts more decisions than assignments. */
  lemma {:induction false} NeverTooMany(reviewId: string, batch: seq<Assignment>, events: seq<Event>)
    requires Reading(reviewId, batch, events) && Deadline !in events
    ensures |After(reviewId, batch, events)| <= |batch|
  {
    if events != [] {
      var before, last := events[..|events| - 1], events[|events| - 1];
      ReadingInit(reviewId, batch, events);
      assert events == before + [last];
      assert last != Deadline;
    }
  }

  /** A finished review of distinct ids has a decision for every assignment if and only if the
      loop read the deadline or read no response for a foreign assignment. */
  lemma {:induction false} EndsCompleteIff(reviewId: string, batch: seq<Assignment>, events: seq<Event>)
    requires DistinctIds(batch) && Over(batch, After(reviewId, batch, events))
    ensures var heard := Heard(reviewId, batch, events);
            (forall a :: a in batch ==> a.assignmentId in After(reviewId, batch, events))
            <==> Deadline in heard || OnTopic(reviewId, batch, heard)
  {
    var heard, d := Heard(reviewId, batch, events), After(reviewId, batch, events);
    ReadMeansDecided(reviewId, batch, heard);
    if OnTopic(reviewId, batch, heard) {
      EndsWhenAllDecided(reviewId, batch, events);
    } else if Deadline !in heard {
      var i :| 0 <= i < |heard| && heard[i].Signal? && heard[i].reviewId == reviewId
               && heard[i].assignmentId !in Ids(batch);
      NeverTooMany(reviewId, batch, heard);
      ForeignLeavesOneOut(batch, d, heard[i].assignmentId);
    }
  }

  lemma {:induction false} ForeignLeavesOneOut(batch: seq<Assignment>, d: Decisions, foreign: string)
    requires DistinctIds(batch) && |d| <= |batch| && foreign in d && foreign !in Ids(batch)
    ensures exists a :: a in batch && a.assignmentId !in d
  {
    assert |d| == |d.Keys|;
    IdsSize(batch);
    if forall a :: a in batch ==> a.assignmentId in d {
      SubsetSize(Ids(batch) + {foreign}, d.Keys);
    }
  }

  /** The deadline ends the loop, if nothing has before. */
  lemma {:induction false} DeadlineEnds(reviewId: string, batch: seq<Assignment>, events: seq<Event>)
    requires DistinctIds(batch) && Deadline in events
    ensures Over(batch, After(reviewId, batch, events))
  {
    var d := After(reviewId, batch, events);
    assert |d| == |d.Keys|;
    IdsSize(batch);
    if !Over(batch, d) {
      StillReading(reviewId, batch, events);
      ReadMeansDecided(reviewId, batch, events);
      SubsetSize(Ids(batch), d.Keys);
    }
  }

  /** While the loop runs, what is decided is what has been answered, and the decision is
      the last response, or a revocation if the deadline came first. */
  lemma {:induction false} DecisionsAreVerdicts(
    reviewId: string, batch: seq<Assignment>, events: seq<Event>, id: string)
    requires Reading(reviewId, batch, events) && id in Ids(batch)
    ensures var d := After(reviewId, batch, events);
            && (id in d <==> Answered(reviewId, events, id))
            && (id in d ==> d[id] == Verdict(reviewId, events, id))
  {
    if events != [] {
      ReadingInit(reviewId, batch, events);
      DecisionsAreVerdicts(reviewId, batch, events[..|events| - 1], id);
    }
  }

  function Revocations(effects: seq<Effect>, a: Assignment): nat {
    if effects == [] then 0
    else Revocations(effects[..|effects| - 1], a) + if effects[|effects| - 1] == Revoke(a) then 1 else 0
  }

  function Audits(effects: seq<Effect>, a: Assignment): nat {
    if effects == [] then 0
    else Audits(effects[..|effects| - 1], a)
         + if effects[|effects| - 1].Audit? && effects[|effects| - 1].assignment == a then 1 else 0
  }

  lemma {:induction false} CountsSnoc(effects: seq<Effect>, e: Effect, a: Assignment)
    ensures Revocations(effects + [e], a) == Revocations(effects, a) + if e == Revoke(a) then 1 else 0
    ensures Audits(effects + [e], a) == Audits(effects, a) + if e.Audit? && e.assignment == a then 1 else 0
  {
    assert (effects + [e])[..|effects|] == effects;
  }

  lemma {:induction false} EffectsPerAssignment(batch: seq<Assignment>, d: Decisions, a: Assignment)
    requires DistinctIds(batch)
    ensures var present := if a in batch then 1 else 0;
            && Audits(Effects(batch, d), a) == present
            && Revocations(Effects(batch, d), a)
               == if a.assignmentId in d && d[a.assignmentId] == "revoked" then present else 0
  {
    if batch != [] {
      var init, b := batch[..|batch| - 1], batch[|batch| - 1];
      var decision := if b.assignmentId in d then d[b.assignmentId] else "";
      var before := Effects(init, d);
      EffectsPerAssignment(init, d, a);
      assert batch == init + [b];
      assert b !in init;
      EffectsOfOne(before, b, decision, decision == "revoked", a);
    }
  }

  lemma {:induction false} EffectsOfOne(
    before: seq<Effect>, b: Assignment, decision: string, revoked: bool, a: Assignment)
    ensures var after := before + (if revoked then [Revoke(b)] else []) + [Audit(b, decision)];
            && Audits(after, a) == Audits(before, a) + (if a == b then 1 else 0)
            && Revocations(after, a) == Revocations(before, a) + (if a == b && revoked then 1 else 0)
  {
    if revoked {
      CountsSnoc(before, Revoke(b), a);
      CountsSnoc(before + [Revoke(b)], Audit(b, decision), a);
    } else {
      assert before + [] == before;
      CountsSnoc(before, Audit(b, decision), a);
    }
  }

  // ---- the effects one by one ----

  predicate IsRevoked(d: Decisions, a: Assignment) {
    a.assignmentId in d && d[a.assignmentId] == "revoked"
  }

  /** How many of the first n assignments are revoked. */
  function RevokedAmong(batch: seq<Assignment>, d: Decisions, n: nat): nat
    requires n <= |batch|
  {
    if n == 0 then 0 else RevokedAmong(batch, d, n - 1) + if IsRevoked(d, batch[n - 1]) then 1 else 0
  }

  lemma {:induction false} EffectsSize(batch: seq<Assignment>, d: Decisions, n: nat)
    requires n <= |batch|
    ensures |Effects(batch[..n], d)| == n + RevokedAmong(batch, d, n)
  {
    if n > 0 {
      EffectsSize(batch, d, n - 1);
      assert batch[..n][..n - 1] == batch[..n - 1];
    }
  }

  lemma {:induction false} EffectsInPlaceUpTo(batch: seq<Assignment>, d: Decisions, n: nat, i: nat)
    requires i < n <= |batch|
    ensures EffectAt(batch, d, Effects(batch[..n], d), i)
  {
    assert batch[..n][..n - 1] == batch[..n - 1];
    EffectsSize(batch, d, n - 1);
    EffectsSize(batch, d, n);
    if i < n - 1 { EffectsInPlaceUpTo(batch, d, n - 1, i); }
  }

  /** The audit write of assignment i, directly after its revocation if it is revoked. */
  predicate EffectAt(batch: seq<Assignment>, d: Decisions, effects: seq<Effect>, i: nat)
    requires i < |batch|
  {
    var a, place := batch[i], i + RevokedAmong(batch, d, i + 1);
    && place < |effects|
    && effects[place] == Audit(a, if a.assignmentId in d then d[a.assignmentId] else "")
    && (IsRevoked(d, a) ==> place > 0 && effects[place - 1] == Revoke(a))
  }

  /** The effects of a finished review, assignment by assignment in the order of the batch: each is
      audited with its own decision, each revoked one is revoked first, and nothing else is done. */
  lemma {:induction false} EffectsInPlace(batch: seq<Assignment>, d: Decisions)
    ensures |Effects(batch, d)| == |batch| + RevokedAmong(batch, d, |batch|)
    ensures forall i :: 0 <= i < |batch| ==> EffectAt(batch, d, Effects(batch, d), i)
  {
    assert batch[..|batch|] == batch;
    EffectsSize(batch, d, |batch|);
    forall i | 0 <= i < |batch| ensures EffectAt(batch, d, Effects(batch, d), i) {
      EffectsInPlaceUpTo(batch, d, |batch|, i);
    }
  }

  // ---- the decisions, response by response ----

  /** Response i decides about the assignment and no later event responds for it. */
  predicate LastResponse(reviewId: string, events: seq<Event>, id: string, i: nat) {
    && i < |events| && events[i].Signal? && events[i].reviewId == reviewId && events[i].assignmentId == id
    && forall j :: i < j < |events| ==> !RespondsFor(reviewId, events[j], id)
  }

  predicate RespondsFor(reviewId: string, e: Event, id: string) {
    e.Signal? && e.reviewId == reviewId && e.assignmentId == id
  }

  /** While the loop reads, the last response for an assignment is its decision. */
  lemma {:induction false} LastResponseWins(
    reviewId: string, batch: seq<Assignment>, events: seq<Event>, id: string, i: nat)
    requires Reading(reviewId, batch, events) && LastResponse(reviewId, events, id, i)
    ensures id in After(reviewId, batch, events) && After(reviewId, batch, events)[id] == events[i].decision
  {
    ReadingInit(reviewId, batch, events);
    var before := events[..|events| - 1];
    if i < |before| {
      assert forall j :: i < j < |before| ==> before[j] == events[j];
      LastResponseWins(reviewId, batch, before, id, i);
    }
  }

  lemma {:induction false} HandleSilence(reviewId: string, batch: seq<Assignment>, d: Decisions, e: Event, id: string)
    requires !RespondsFor(reviewId, e, id)
    ensures var d' := Handle(reviewId, batch, d, e);
            && (id in d' <==> id in d || (id in Ids(batch) && e.Deadline?))
            && (id in d' ==> d'[id] == if id in d then d[id] else "revoked")
  {
  }

  lemma {:induction false} DeadlineSnoc(before: seq<Event>, e: Event)
    ensures Deadline in before + [e] <==> Deadline in before || e.Deadline?
  {
  }

  /** An assignment that nobody has responded for is revoked at the deadline and undecided before. */
  lemma {:induction false} SilenceIsRevoked(reviewId: string, batch: seq<Assignment>, events: seq<Event>, id: string)
    requires Reading(reviewId, batch, events)
    requires forall j :: 0 <= j < |events| ==> !RespondsFor(reviewId, events[j], id)
    ensures var d := After(reviewId, batch, events);
            && (id in d <==> id in Ids(batch) && Deadline in events)
            && (id in d ==> d[id] == "revoked")
  {
    if events != [] {
      var before, e := events[..|events| - 1], events[|events| - 1];
      ReadingInit(reviewId, batch, events);
      assert forall j :: 0 <= j < |before| ==> before[j] == events[j];
      SilenceIsRevoked(reviewId, batch, before, id);
      HandleSilence(reviewId, batch, After(reviewId, batch, before), e, id);
      DeadlineSnoc(before, e);
      assert events == before + [e];
    }
  }

  // ---- reminders ----

  /** The next event of a run: a reminder that the loop reads goes out once to those still undecided,
      unless there are none; no other event and no event after the end sends one. */
  lemma {:induction false} ReminderMeans(reviewId: string, batch: seq<Assignment>, before: seq<Event>, e: Event)
    ensures var d := After(reviewId, batch, before);
            var sent, sent' := Reminders(reviewId, batch, before), Reminders(reviewId, batch, before + [e]);
            if e == Reminder && |d| < |batch| && exists a :: a in batch && a.assignmentId !in d
            then |sent'| == |sent| + 1 && sent'[..|sent|] == sent && IsReminderFor(sent'[|sent|], batch, d)
            else sent' == sent
  {
    var d := After(reviewId, batch, before);
    assert (before + [e])[..|before|] == before;
    PendingHolds(batch, d);
    PendingInPlace(batch, d);
    if PendingOf(batch, d) != [] { assert PendingOf(batch, d)[0] in PendingOf(batch, d); }
  }

  /** The reminder names exactly the undecided assignments, in the order of the batch. */
  ghost predicate IsReminderFor(e: Effect, batch: seq<Assignment>, d: Decisions) {
    && e.Remind? && |e.pending| == UndecidedAmong(batch, d, |batch|)
    && forall i :: 0 <= i < |batch| && batch[i].assignmentId !in d ==>
         0 <= UndecidedAmong(batch, d, i) < |e.pending| && e.pending[UndecidedAmong(batch, d, i)] == batch[i]
  }

  /** How many of the first n assignments have no decision. */
  function UndecidedAmong(batch: seq<Assignment>, d: Decisions, n: nat): nat
    requires n <= |batch|
  {
    if n == 0 then 0 else UndecidedAmong(batch, d, n - 1) + if batch[n - 1].assignmentId !in d then 1 else 0
  }

  lemma {:induction false} PendingSize(batch: seq<Assignment>, d: Decisions, n: nat)
    requires n <= |batch|
    ensures |PendingOf(batch[..n], d)| == UndecidedAmong(batch, d, n)
  {
    if n > 0 {
      PendingSize(batch, d, n - 1);
      assert batch[..n][..n - 1] == batch[..n - 1];
    }
  }

  lemma {:induction false} PendingInPlaceUpTo(batch: seq<Assignment>, d: Decisions, n: nat, i: nat)
    requires i < n <= |batch| && batch[i].assignmentId !in d
    ensures UndecidedAmong(batch, d, i) < |PendingOf(batch[..n], d)|
    ensures PendingOf(batch[..n], d)[UndecidedAmong(batch, d, i)] == batch[i]
  {
    assert batch[..n][..n - 1] == batch[..n - 1];
    PendingSize(batch, d, n - 1);
    if i < n - 1 { PendingInPlaceUpTo(batch, d, n - 1, i); }
  }

  /** The pending assignments are the undecided ones, in the order of the batch. */
  lemma {:induction false} PendingInPlace(batch: seq<Assignment>, d: Decisions)
    ensures IsReminderFor(Remind(PendingOf(batch, d)), batch, d)
  {
    assert batch[..|batch|] == batch;
    PendingSize(batch, d, |batch|);
    forall i | 0 <= i < |batch| && batch[i].assignmentId !in d
      ensures UndecidedAmong(batch, d, i) < |PendingOf(batch, d)|
      ensures PendingOf(batch, d)[UndecidedAmong(batch, d, i)] == batch[i]
    {
      PendingInPlaceUpTo(batch, d, |batch|, i);
    }
  }

  /** A finished review that is complete decides every assignment by its last response, or
      revokes it if the deadline found it silent; it attempts one audit write per assignment,
      and one revocation for exactly those decided as revoked. */
  lemma {:induction false} ReviewOutcome(reviewId: string, batch: seq<Assignment>, events: seq<Event>, a: Assignment)
    requires DistinctIds(batch) && a in batch && Over(batch, After(reviewId, batch, events))
    requires var heard := Heard(reviewId, batch, events); Deadline in heard || OnTopic(reviewId, batch, heard)
    ensures var d := After(reviewId, batch, events);
            var heard := Heard(reviewId, batch, events);
            && a.assignmentId in d && d[a.assignmentId] == Verdict(reviewId, heard, a.assignmentId)
            && Answered(reviewId, heard, a.assignmentId)
            && Audits(Effects(batch, d), a) == 1
            && Revocations(Effects(batch, d), a) == if d[a.assignmentId] == "revoked" then 1 else 0
  {
    EndsCompleteIff(reviewId, batch, events);
    DecisionsAreVerdicts(reviewId, batch, Heard(reviewId, batch, events), a.assignmentId);
    EffectsPerAssignment(batch, After(reviewId, batch, events), a);
  }

  /** The smallest such case: one response for a foreign assignment ends a review of one
      assignment with that assignment undecided. */
  lemma {:induction false} ForeignResponseEndsEarly(reviewId: string)
    ensures var batch := [Assignment("a", "u", "admin")];
            var d := After(reviewId, batch, [Signal(reviewId, "b", "confirmed")]);
            Over(batch, d) && "a" !in d
  {
    var batch := [Assignment("a", "u", "admin")];
    var events := [Signal(reviewId, "b", "confirmed")];
    assert events[..0] == [];
    assert "a"[0] != "b"[0];
    assert After(reviewId, batch, []) == map[];
    assert After(reviewId, batch, events) == map["b" := "confirmed"];
  }
}
