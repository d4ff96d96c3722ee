/** Suspensions of one tenant whose last-owner guards and writes interleave. */
module OwnerRace {
  import opened OwnerGuard
  import opened Relations

  /** Request k suspends targets[k]: its guard reads the store, its write lands later. */
  datatype Move = Check(k: nat) | Land(k: nat)

  /** `passed` are the requests whose guard has allowed them. */
  datatype Desk = Desk(store: Store, passed: set<nat>)

  function Advance(tenantId: string, targets: seq<string>, d: Desk, m: Move): Desk {
    if m.k >= |targets| then d
    else
      match m
      case Check(k) =>
        if AssertNotLastOwner(d.store, tenantId, targets[k]).Allowed? then d.(passed := d.passed + {k}) else d
      case Land(k) =>
        if k in d.passed then d.(store := Apply(d.store, MemberSuspended(tenantId, targets[k]))) else d
  }

  function Play(tenantId: string, targets: seq<string>, s: Store, schedule: seq<Move>, n: nat): Desk
    requires n <= |schedule|
  {
    if n == 0 then Desk(s, {})
    else Advance(tenantId, targets, Play(tenantId, targets, s, schedule, n - 1), schedule[n - 1])
  }

  /** One of the first n moves. */
  predicate Occurs(schedule: seq<Move>, m: Move, n: nat)
    requires n <= |schedule|
  {
    n > 0 && (schedule[n - 1] == m || Occurs(schedule, m, n - 1))
  }

  /** A request is checked once and writes, perhaps repeatedly, after that. Several requests may
      be about the same user. */
  predicate Requests(targets: seq<string>, schedule: seq<Move>) {
    forall n :: 0 <= n < |schedule| ==> InTurn(targets, schedule, n)
  }

  predicate InTurn(targets: seq<string>, schedule: seq<Move>, n: nat)
    requires n < |schedule|
  {
    && schedule[n].k < |targets|
    && (schedule[n].Check? ==> !Occurs(schedule, schedule[n], n))
    && (schedule[n].Land? ==> Occurs(schedule, Check(schedule[n].k), n))
  }

  predicate LandsOn(targets: seq<string>, m: Move, user: string) {
    m.Land? && m.k < |targets| && targets[m.k] == user
  }

  /** None of the first n moves writes about the user. */
  predicate Untouched(targets: seq<string>, schedule: seq<Move>, user: string, n: nat)
    requires n <= |schedule|
  {
    n > 0 ==> !LandsOn(targets, schedule[n - 1], user) && Untouched(targets, schedule, user, n - 1)
  }

  /** Request j is the first to write, at l, about its user; request k has been checked before
      and writes later, at n, about another user nobody has written about until l. */
  predicate Overtakes(targets: seq<string>, schedule: seq<Move>, j: nat, k: nat, l: nat, n: nat) {
    && j < |targets| && k < |targets| && targets[j] != targets[k]
    && l < n < |schedule| && schedule[l] == Land(j) && schedule[n] == Land(k)
    && Untouched(targets, schedule, targets[j], l) && Untouched(targets, schedule, targets[k], l)
    && Occurs(schedule, Check(k), l)
  }

  ghost predicate Serial(targets: seq<string>, schedule: seq<Move>) {
    forall j: nat, k: nat, l: nat, n: nat :: !Overtakes(targets, schedule, j, k, l, n)
  }

  /** Whatever the store, a tenant that has an active owner keeps one. */
  ghost predicate Harmless(tenantId: string, targets: seq<string>, schedule: seq<Move>) {
    forall s :: HasActiveOwner(s, tenantId) ==>
      HasActiveOwner(Play(tenantId, targets, s, schedule, |schedule|).store, tenantId)
  }

  // ---- the same play on the set of active owners ----

  /** `active` are the active owners of the tenant. */
  datatype Roll = Roll(active: set<string>, passed: set<nat>)

  function Act(targets: seq<string>, t: Roll, m: Move): Roll {
    if m.k >= |targets| then t
    else
      match m
      case Check(k) => if t.active - {targets[k]} != {} then t.(passed := t.passed + {k}) else t
      case Land(k) => if k in t.passed then t.(active := t.active - {targets[k]}) else t
  }

  function Moves(targets: seq<string>, active: set<string>, schedule: seq<Move>, n: nat): Roll
    requires n <= |schedule|
  {
    if n == 0 then Roll(active, {}) else Act(targets, Moves(targets, active, schedule, n - 1), schedule[n - 1])
  }

  function Active(s: Store, tenantId: string): set<string> {
    Unsuspended(s, tenantId, Owners(s, tenantId))
  }

  lemma {:induction false} ActiveAre(s: Store, tenantId: string, id: string)
    ensures id in Active(s, tenantId) <==> IsActiveOwner(s, tenantId, id)
  {
    OwnersAreOwners(s, tenantId, id);
  }

  lemma {:induction false} GuardReadsActive(s: Store, tenantId: string, target: string)
    ensures AssertNotLastOwner(s, tenantId, target).Allowed? <==> Active(s, tenantId) - {target} != {}
  {
    GuardMeansAnotherOwner(s, tenantId, target);
    forall id ensures id in Active(s, tenantId) <==> IsActiveOwner(s, tenantId, id) { ActiveAre(s, tenantId, id); }
    if id :| id in Active(s, tenantId) - {target} { assert IsActiveOwner(s, tenantId, id); }
    if id :| id != target && IsActiveOwner(s, tenantId, id) { assert id in Active(s, tenantId) - {target}; }
  }

  lemma {:induction false} WriteRemoves(s: Store, tenantId: string, target: string)
    ensures Active(Apply(s, MemberSuspended(tenantId, target)), tenantId) == Active(s, tenantId) - {target}
  {
    var s' := Apply(s, MemberSuspended(tenantId, target));
    forall id ensures id in Active(s', tenantId) <==> id in Active(s, tenantId) - {target} {
      ActiveAre(s, tenantId, id);
      ActiveAre(s', tenantId, id);
      SuspendKeepsOthers(s, tenantId, target, tenantId, id);
    }
  }

  lemma {:induction false} PlayIsMoves(
    tenantId: string, targets: seq<string>, s: Store, schedule: seq<Move>, n: nat)
    requires n <= |schedule|
    ensures var d, t := Play(tenantId, targets, s, schedule, n), Moves(targets, Active(s, tenantId), schedule, n);
            Active(d.store, tenantId) == t.active && d.passed == t.passed
  {
    if n > 0 {
      PlayIsMoves(tenantId, targets, s, schedule, n - 1);
      AdvanceIsAct(tenantId, targets, Play(tenantId, targets, s, schedule, n - 1),
                   Moves(targets, Active(s, tenantId), schedule, n - 1), schedule[n - 1]);
    }
  }

  lemma {:induction false} AdvanceIsAct(tenantId: string, targets: seq<string>, d: Desk, t: Roll, m: Move)
    requires Active(d.store, tenantId) == t.active && d.passed == t.passed
    ensures Active(Advance(tenantId, targets, d, m).store, tenantId) == Act(targets, t, m).active
    ensures Advance(tenantId, targets, d, m).passed == Act(targets, t, m).passed
  {
    match m
    case Check(k) => if k < |targets| { GuardReadsActive(d.store, tenantId, targets[k]); }
    case Land(k) => if k < |targets| { WriteRemoves(d.store, tenantId, targets[k]); }
  }

  // ---- occurrences ----

  lemma {:induction false} OccursLater(schedule: seq<Move>, m: Move, p: nat, q: nat)
    requires p <= q <= |schedule| && Occurs(schedule, m, p)
    ensures Occurs(schedule, m, q)
  {
    if p < q { OccursLater(schedule, m, p, q - 1); }
  }

  lemma {:induction false} PlaceOf(schedule: seq<Move>, m: Move, n: nat) returns (i: nat)
    requires n <= |schedule| && Occurs(schedule, m, n)
    ensures i < n && schedule[i] == m
  {
    if schedule[n - 1] == m { i := n - 1; } else { i := PlaceOf(schedule, m, n - 1); }
  }

  /** A check is the first move of its request. */
  lemma {:induction false} CheckComesFirst(targets: seq<string>, schedule: seq<Move>, k: nat, n: nat)
    requires Requests(targets, schedule) && n < |schedule| && schedule[n] == Check(k)
    ensures !Occurs(schedule, Check(k), n) && !Occurs(schedule, Land(k), n)
  {
    assert InTurn(targets, schedule, n);
    if Occurs(schedule, Land(k), n) {
      var i := PlaceOf(schedule, Land(k), n);
      assert InTurn(targets, schedule, i);
      OccursLater(schedule, Check(k), i, n);
    }
  }

  lemma {:induction false} UntouchedEarlier(targets: seq<string>, schedule: seq<Move>, user: string, p: nat, q: nat)
    requires p <= q <= |schedule| && Untouched(targets, schedule, user, q)
    ensures Untouched(targets, schedule, user, p)
  {
    if p < q { UntouchedEarlier(targets, schedule, user, p, q - 1); }
  }

  // ---- serial schedules ----

  /** A request that has passed its guard and will write about a user who is still active. */
  ghost predicate Pending(targets: seq<string>, schedule: seq<Move>, t: Roll, k: nat, n: nat) {
    k in t.passed && k < |targets| && targets[k] in t.active && exists m: nat :: n <= m && WritesAt(schedule, k, m)
  }

  predicate WritesAt(schedule: seq<Move>, k: nat, m: nat) {
    m < |schedule| && schedule[m] == Land(k)
  }

  ghost predicate SerialInv(targets: seq<string>, schedule: seq<Move>, t: Roll, n: nat)
    requires n <= |schedule|
  {
    && t.active != {}
    && (forall k :: k in t.passed ==> k < |targets| && Occurs(schedule, Check(k), n))
    && (forall k :: k in t.passed && Occurs(schedule, Land(k), n) ==> targets[k] !in t.active)
    && (forall k: nat :: k < |targets| && Occurs(schedule, Check(k), n) && k !in t.passed
          ==> t.active <= {targets[k]})
    && (forall k: nat :: Pending(targets, schedule, t, k, n) ==> t.active - {targets[k]} != {})
  }

  lemma {:induction false} SerialKeeps(targets: seq<string>, active: set<string>, schedule: seq<Move>, n: nat)
    requires Requests(targets, schedule) && Serial(targets, schedule) && active != {} && n <= |schedule|
    ensures SerialInv(targets, schedule, Moves(targets, active, schedule, n), n)
  {
    if n > 0 {
      var t := Moves(targets, active, schedule, n - 1);
      SerialKeeps(targets, active, schedule, n - 1);
      assert InTurn(targets, schedule, n - 1);
      match schedule[n - 1]
      case Check(k) => CheckKeepsSerial(targets, schedule, t, k, n - 1, n);
      case Land(k) => LandKeepsSerial(targets, schedule, t, k, n - 1, n);
    }
  }

  lemma {:induction false} PendingBefore(
    targets: seq<string>, schedule: seq<Move>, t: Roll, k: nat, n: nat, n': nat)
    requires Pending(targets, schedule, t, k, n') && n <= n'
    ensures Pending(targets, schedule, t, k, n)
  {
    var m: nat :| n' <= m && WritesAt(schedule, k, m);
  }

  lemma {:induction false} CheckKeepsSerial(
    targets: seq<string>, schedule: seq<Move>, t: Roll, k: nat, n: nat, n': nat)
    requires n < |schedule| && n' == n + 1 && schedule[n] == Check(k)
    requires Requests(targets, schedule) && k < |targets| && SerialInv(targets, schedule, t, n)
    ensures SerialInv(targets, schedule, Act(targets, t, schedule[n]), n')
  {
    var t' := Act(targets, t, schedule[n]);
    CheckComesFirst(targets, schedule, k, n);
    forall j: nat | Pending(targets, schedule, t', j, n') ensures t'.active - {targets[j]} != {} {
      if j in t.passed { PendingBefore(targets, schedule, t, j, n, n'); }
    }
  }

  lemma {:induction false} LandKeepsSerial(
    targets: seq<string>, schedule: seq<Move>, t: Roll, k: nat, n: nat, n': nat)
    requires n < |schedule| && n' == n + 1 && schedule[n] == Land(k) && k < |targets|
    requires Requests(targets, schedule) && Serial(targets, schedule) && SerialInv(targets, schedule, t, n)
    ensures SerialInv(targets, schedule, Act(targets, t, schedule[n]), n')
  {
    var t' := Act(targets, t, schedule[n]);
    if k in t.passed && targets[k] in t.active {
      assert WritesAt(schedule, k, n) && Pending(targets, schedule, t, k, n);
      forall j: nat ensures !Pending(targets, schedule, t', j, n') {
        NothingPends(targets, schedule, t, t', j, k, n, n');
      }
    } else {
      assert t'.active == t.active;
      forall j: nat | Pending(targets, schedule, t', j, n') ensures t'.active - {targets[j]} != {} {
        PendingBefore(targets, schedule, t, j, n, n');
      }
    }
  }

  /** While two users are active, nobody has written about either of them. */
  lemma {:induction false} ActiveIsUntouched(
    targets: seq<string>, schedule: seq<Move>, t: Roll, user: string, other: string, n: nat, p: nat)
    requires Requests(targets, schedule) && n <= |schedule| && SerialInv(targets, schedule, t, n)
    requires user in t.active && other in t.active && user != other && p <= n
    ensures Untouched(targets, schedule, user, p)
  {
    if p > 0 {
      ActiveIsUntouched(targets, schedule, t, user, other, n, p - 1);
      var m := schedule[p - 1];
      if LandsOn(targets, m, user) {
        assert InTurn(targets, schedule, p - 1);
        OccursLater(schedule, Check(m.k), p - 1, n);
        OccursLater(schedule, m, p, n);
      }
    }
  }

  /** When a write takes effect, no other request waits to write about an active user. */
  lemma {:induction false} NothingPends(
    targets: seq<string>, schedule: seq<Move>, t: Roll, t': Roll, j: nat, k: nat, n: nat, n': nat)
    requires n < |schedule| && n' == n + 1 && schedule[n] == Land(k)
    requires Requests(targets, schedule) && Serial(targets, schedule) && SerialInv(targets, schedule, t, n)
    requires k in t.passed && targets[k] in t.active && t' == Act(targets, t, schedule[n])
    ensures !Pending(targets, schedule, t', j, n')
  {
    if Pending(targets, schedule, t', j, n') {
      var m: nat :| n' <= m && WritesAt(schedule, j, m);
      ActiveIsUntouched(targets, schedule, t, targets[k], targets[j], n, n);
      ActiveIsUntouched(targets, schedule, t, targets[j], targets[k], n, n);
      var overtaken := Overtakes(targets, schedule, k, j, n, m);
    }
  }

  // ---- an overtaking schedule loses the owners of a tenant with two ----

  lemma {:induction false} PassedStays(targets: seq<string>, active: set<string>, schedule: seq<Move>, p: nat, q: nat)
    requires p <= q <= |schedule|
    ensures Moves(targets, active, schedule, p).passed <= Moves(targets, active, schedule, q).passed
    ensures Moves(targets, active, schedule, q).active <= Moves(targets, active, schedule, p).active
  {
    if p < q { PassedStays(targets, active, schedule, p, q - 1); }
  }

  /** A user whom nobody has written about is still active. */
  lemma {:induction false} UntouchedIsActive(
    targets: seq<string>, active: set<string>, schedule: seq<Move>, user: string, n: nat)
    requires n <= |schedule| && Untouched(targets, schedule, user, n) && user in active
    ensures user in Moves(targets, active, schedule, n).active
  {
    if n > 0 { UntouchedIsActive(targets, active, schedule, user, n - 1); }
  }

  /** A request that is checked while another owner is active writes with effect. */
  lemma {:induction false} WriteTakesEffect(
    targets: seq<string>, active: set<string>, schedule: seq<Move>, k: nat, c: nat, n: nat, other: string)
    requires k < |targets| && other != targets[k] && c < n < |schedule|
    requires schedule[c] == Check(k) && schedule[n] == Land(k)
    requires other in active && Untouched(targets, schedule, other, c)
    ensures targets[k] !in Moves(targets, active, schedule, |schedule|).active
  {
    UntouchedIsActive(targets, active, schedule, other, c);
    assert other in Moves(targets, active, schedule, c).active - {targets[k]};
    PassedStays(targets, active, schedule, c + 1, n);
    PassedStays(targets, active, schedule, n + 1, |schedule|);
  }

  lemma {:induction false} OvertakingLoses(targets: seq<string>, schedule: seq<Move>, j: nat, k: nat, l: nat, n: nat)
    requires Requests(targets, schedule) && Overtakes(targets, schedule, j, k, l, n)
    ensures Moves(targets, {targets[j], targets[k]}, schedule, |schedule|).active == {}
  {
    assert InTurn(targets, schedule, l);
    var active := {targets[j], targets[k]};
    var cj := PlaceOf(schedule, Check(j), l);
    var ck := PlaceOf(schedule, Check(k), l);
    UntouchedEarlier(targets, schedule, targets[k], cj, l);
    UntouchedEarlier(targets, schedule, targets[j], ck, l);
    WriteTakesEffect(targets, active, schedule, j, cj, l, targets[k]);
    WriteTakesEffect(targets, active, schedule, k, ck, n, targets[j]);
    PassedStays(targets, active, schedule, 0, |schedule|);
  }

  // ---- the theorem ----

  lemma {:induction false} TwoAreActive(tenantId: string, a: string, b: string)
    ensures Active(TwoOwners(tenantId, a, b), tenantId) == {a, b}
  {
    var s := TwoOwners(tenantId, a, b);
    assert "owner"[0] != "suspended"[0];
    forall id ensures id in Active(s, tenantId) <==> id in {a, b} { ActiveAre(s, tenantId, id); }
  }

  lemma {:induction false} ActiveMeansOwner(s: Store, tenantId: string)
    ensures HasActiveOwner(s, tenantId) <==> Active(s, tenantId) != {}
  {
    if id :| id in Active(s, tenantId) { ActiveAre(s, tenantId, id); }
    if id :| IsActiveOwner(s, tenantId, id) { ActiveAre(s, tenantId, id); }
  }

  /** Suspensions whose guards and writes interleave are harmless if and only if no user's first
      write lands between the check and a write of a request about another user, about whom
      nobody has written by then. */
  lemma {:induction false} HarmlessIffSerial(tenantId: string, targets: seq<string>, schedule: seq<Move>)
    requires Requests(targets, schedule)
    ensures Harmless(tenantId, targets, schedule) <==> Serial(targets, schedule)
  {
    var n := |schedule|;
    if Serial(targets, schedule) {
      forall s | HasActiveOwner(s, tenantId)
        ensures HasActiveOwner(Play(tenantId, targets, s, schedule, n).store, tenantId)
      {
        ActiveMeansOwner(s, tenantId);
        SerialKeeps(targets, Active(s, tenantId), schedule, n);
        PlayIsMoves(tenantId, targets, s, schedule, n);
        ActiveMeansOwner(Play(tenantId, targets, s, schedule, n).store, tenantId);
      }
    } else {
      var j: nat, k: nat, l: nat, m: nat :| Overtakes(targets, schedule, j, k, l, m);
      OvertakingLoses(targets, schedule, j, k, l, m);
      var s := TwoOwners(tenantId, targets[j], targets[k]);
      TwoAreActive(tenantId, targets[j], targets[k]);
      ActiveMeansOwner(s, tenantId);
      PlayIsMoves(tenantId, targets, s, schedule, n);
      ActiveMeansOwner(Play(tenantId, targets, s, schedule, n).store, tenantId);
      assert HasActiveOwner(s, tenantId) && !HasActiveOwner(Play(tenantId, targets, s, schedule, n).store, tenantId);
    }
  }

  /** Some write of the first n moves, of a request whose guard has passed, is about the user. */
  predicate WrittenTo(targets: seq<string>, active: set<string>, schedule: seq<Move>, user: string, n: nat)
    requires n <= |schedule|
  {
    n > 0
    && (WrittenTo(targets, active, schedule, user, n - 1)
        || (LandsOn(targets, schedule[n - 1], user)
            && schedule[n - 1].k in Moves(targets, active, schedule, n - 1).passed))
  }

  lemma {:induction false} ActiveUnlessWritten(
    targets: seq<string>, active: set<string>, schedule: seq<Move>, user: string, n: nat)
    requires n <= |schedule|
    ensures user in Moves(targets, active, schedule, n).active
            <==> user in active && !WrittenTo(targets, active, schedule, user, n)
  {
    if n > 0 { ActiveUnlessWritten(targets, active, schedule, user, n - 1); }
  }

  /** After any schedule an active owner is left if and only if some active owner is the target
      of no write whose guard has passed. */
  lemma {:induction false} OverlappingSuspensions(
    tenantId: string, targets: seq<string>, s: Store, schedule: seq<Move>)
    ensures HasActiveOwner(Play(tenantId, targets, s, schedule, |schedule|).store, tenantId)
            <==> exists id :: IsActiveOwner(s, tenantId, id)
                              && !WrittenTo(targets, Active(s, tenantId), schedule, id, |schedule|)
  {
    var n, active := |schedule|, Active(s, tenantId);
    PlayIsMoves(tenantId, targets, s, schedule, n);
    ActiveMeansOwner(Play(tenantId, targets, s, schedule, n).store, tenantId);
    if id :| id in Moves(targets, active, schedule, n).active {
      ActiveUnlessWritten(targets, active, schedule, id, n);
      ActiveAre(s, tenantId, id);
    }
    if id :| IsActiveOwner(s, tenantId, id) && !WrittenTo(targets, active, schedule, id, n) {
      ActiveUnlessWritten(targets, active, schedule, id, n);
      ActiveAre(s, tenantId, id);
    }
  }
}
