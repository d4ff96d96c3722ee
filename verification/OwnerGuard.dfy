/** The last-owner guard of apps/api/src/handlers/principals.ts over the relation store. */
module OwnerGuard {
  import opened Relations

  datatype Verdict = Allowed | Forbidden(message: string)

  /** `lookupSubjects(tenant, "owner", "user")`. */
  function Owners(s: Store, tenantId: string): set<string> {
    set t | t in s && t == OnTenant(tenantId, "owner", User(t.subject.id)) :: t.subject.id
  }

  predicate Suspended(s: Store, tenantId: string, userId: string) {
    OnTenant(tenantId, "suspended", User(userId)) in s
  }

  function Unsuspended(s: Store, tenantId: string, ids: set<string>): set<string> {
    set id | id in ids && !Suspended(s, tenantId, id)
  }

  function AssertNotLastOwner(s: Store, tenantId: string, targetId: string): Verdict {
    var others := Owners(s, tenantId) - {targetId};
    if |others| == 0 then Forbidden("Cannot suspend the last owner of this tenant")
    else if |Unsuspended(s, tenantId, others)| == 0 then
      Forbidden("Cannot suspend the last unsuspended owner of this tenant")
    else Allowed
  }

  ghost predicate IsActiveOwner(s: Store, tenantId: string, id: string) {
    OnTenant(tenantId, "owner", User(id)) in s && !Suspended(s, tenantId, id)
  }

  /** The guard passes exactly when some unsuspended owner is not the target. */
  lemma {:induction false} GuardMeansAnotherOwner(s: Store, tenantId: string, targetId: string)
    ensures AssertNotLastOwner(s, tenantId, targetId).Allowed?
            <==> exists id :: id != targetId && IsActiveOwner(s, tenantId, id)
  {
    var others := Owners(s, tenantId) - {targetId};
    var active := Unsuspended(s, tenantId, others);
    forall id ensures id in Owners(s, tenantId) <==> OnTenant(tenantId, "owner", User(id)) in s {
      OwnersAreOwners(s, tenantId, id);
    }
    if active != {} {
      var id :| id in active;
      assert IsActiveOwner(s, tenantId, id);
    }
    if id :| id != targetId && IsActiveOwner(s, tenantId, id) {
      assert id in others && id in active;
    }
  }

  lemma {:induction false} OwnersAreOwners(s: Store, tenantId: string, id: string)
    ensures id in Owners(s, tenantId) <==> OnTenant(tenantId, "owner", User(id)) in s
  {
    var t := OnTenant(tenantId, "owner", User(id));
    if t in s { assert t == OnTenant(tenantId, "owner", User(t.subject.id)); }
  }

  // ---- runs of guarded operations ----

  datatype TenantRole = Owner | Admin | Member | Viewer | BillingManager

  function RelationOf(r: TenantRole): string {
    match r
    case Owner => "owner"
    case Admin => "admin"
    case Member => "member"
    case Viewer => "viewer"
    case BillingManager => "billing_manager"
  }

  lemma {:induction false} RelationsDiffer(r: TenantRole)
    ensures RelationOf(r) == "owner" <==> r.Owner?
    ensures RelationOf(r) != "suspended"
  {
    assert RelationOf(r)[0] != 's' && (!r.Owner? ==> RelationOf(r)[0] != 'o');
  }

  /** `governs` is the answer of assertCanGovernOwner, which depends on permissions that
      are not part of this model. */
  datatype Operation =
    | SuspendUser(tenantId: string, userId: string, governs: bool)
    | ReinstateUser(tenantId: string, userId: string, governs: bool)
    | AssignRole(tenantId: string, principal: Object, role: TenantRole)
    | UnassignRole(tenantId: string, principal: Object, role: TenantRole)
    | ChangeRole(tenantId: string, principal: Object, oldRole: TenantRole, newRole: TenantRole)

  /** An operation whose write lands before the next guard reads. */
  function Step(s: Store, op: Operation): Store {
    match op
    case SuspendUser(tenantId, userId, governs) =>
      if governs && AssertNotLastOwner(s, tenantId, userId).Allowed? then
        Apply(s, MemberSuspended(tenantId, userId))
      else s
    case ReinstateUser(tenantId, userId, governs) =>
      if governs then Apply(s, MemberReinstated(tenantId, userId)) else s
    case AssignRole(tenantId, principal, role) =>
      Apply(s, RoleAssigned(tenantId, principal, RelationOf(role)))
    case UnassignRole(tenantId, principal, role) =>
      Apply(s, RoleUnassigned(tenantId, principal, RelationOf(role)))
    case ChangeRole(tenantId, principal, oldRole, newRole) =>
      Apply(s, RoleChanged(tenantId, principal, RelationOf(oldRole), RelationOf(newRole)))
  }

  /** The operations that take ownership of a tenant away from a user; none of them is guarded. */
  predicate TakesOwnership(op: Operation, tenantId: string, id: string) {
    match op
    case UnassignRole(t, principal, role) => t == tenantId && principal == User(id) && role.Owner?
    case ChangeRole(t, principal, oldRole, newRole) =>
      t == tenantId && principal == User(id) && oldRole.Owner? && !newRole.Owner?
    case _ => false
  }

  /** The stores that a run of operations passes through. */
  ghost predicate IsRun(stores: seq<Store>, ops: seq<Operation>) {
    |stores| == |ops| + 1 && forall k :: 0 <= k < |ops| ==> StepAt(stores, ops, k)
  }

  predicate StepAt(stores: seq<Store>, ops: seq<Operation>, k: nat)
    requires k < |ops| && k + 1 < |stores|
  {
    stores[k + 1] == Step(stores[k], ops[k])
  }

  ghost predicate HasActiveOwner(s: Store, tenantId: string) {
    exists id :: IsActiveOwner(s, tenantId, id)
  }

  /** The operation takes ownership from the only unsuspended owner. */
  ghost predicate TakesLastOwner(s: Store, op: Operation, tenantId: string) {
    && (op.UnassignRole? || op.ChangeRole?)
    && TakesOwnership(op, tenantId, op.principal.id) && IsOnlyActiveOwner(s, tenantId, op.principal.id)
  }

  ghost predicate IsOnlyActiveOwner(s: Store, tenantId: string, id: string) {
    IsActiveOwner(s, tenantId, id) && forall other :: IsActiveOwner(s, tenantId, other) ==> other == id
  }

  lemma {:induction false} SuspendKeepsOthers(s: Store, t: string, userId: string, tenantId: string, id: string)
    ensures IsActiveOwner(Apply(s, MemberSuspended(t, userId)), tenantId, id)
            <==> IsActiveOwner(s, tenantId, id) && !(t == tenantId && userId == id)
  {
    ApplyOne(s, MemberSuspended(t, userId)[0]);
    assert "owner"[0] != "suspended"[0];
  }

  lemma {:induction false} RolesKeepSuspension(s: Store, op: Operation, tenantId: string, id: string)
    requires op.AssignRole? || op.UnassignRole? || op.ChangeRole?
    ensures IsActiveOwner(s, tenantId, id) && !TakesOwnership(op, tenantId, id)
            ==> IsActiveOwner(Step(s, op), tenantId, id)
    ensures TakesOwnership(op, tenantId, id) ==> !IsActiveOwner(Step(s, op), tenantId, id)
    ensures IsActiveOwner(Step(s, op), tenantId, id) && !op.AssignRole? && !op.ChangeRole?
            ==> IsActiveOwner(s, tenantId, id)
  {
    match op
    case AssignRole(t, principal, role) =>
      RelationsDiffer(role);
      ApplyOne(s, RoleAssigned(t, principal, RelationOf(role))[0]);
    case UnassignRole(t, principal, role) =>
      RelationsDiffer(role);
      ApplyOne(s, RoleUnassigned(t, principal, RelationOf(role))[0]);
    case ChangeRole(t, principal, oldRole, newRole) =>
      RelationsDiffer(oldRole);
      RelationsDiffer(newRole);
      var u := RoleChanged(t, principal, RelationOf(oldRole), RelationOf(newRole));
      ApplyTwo(s, u[0], u[1]);
  }

  /** Taking ownership gives it to nobody. */
  lemma {:induction false} TakingAddsNoOwner(s: Store, op: Operation, tenantId: string, id: string, other: string)
    requires TakesOwnership(op, tenantId, id) && IsActiveOwner(Step(s, op), tenantId, other)
    ensures IsActiveOwner(s, tenantId, other) && other != id
  {
    RolesKeepSuspension(s, op, tenantId, id);
    if op.ChangeRole? {
      RelationsDiffer(op.oldRole);
      RelationsDiffer(op.newRole);
      var u := RoleChanged(op.tenantId, op.principal, RelationOf(op.oldRole), RelationOf(op.newRole));
      ApplyTwo(s, u[0], u[1]);
    } else {
      RolesKeepSuspension(s, op, tenantId, other);
    }
  }

  /** One step loses the last active owner if and only if it takes ownership from that owner:
      suspension, reinstatement and assignment never do. */
  lemma {:induction false} LosesOwnerIff(s: Store, op: Operation, tenantId: string)
    requires HasActiveOwner(s, tenantId)
    ensures HasActiveOwner(Step(s, op), tenantId) <==> !TakesLastOwner(s, op, tenantId)
  {
    if op.SuspendUser? || op.ReinstateUser? {
      GuardedStepKeeps(s, op, tenantId);
    } else if TakesLastOwner(s, op, tenantId) {
      var id := op.principal.id;
      if other :| IsActiveOwner(Step(s, op), tenantId, other) { TakingAddsNoOwner(s, op, tenantId, id, other); }
    } else {
      var id :| IsActiveOwner(s, tenantId, id) && !TakesOwnership(op, tenantId, id) by {
        var one :| IsActiveOwner(s, tenantId, one);
        if TakesOwnership(op, tenantId, one) {
          assert !IsOnlyActiveOwner(s, tenantId, one);
          var other :| IsActiveOwner(s, tenantId, other) && other != one;
          assert !TakesOwnership(op, tenantId, other);
        }
      }
      RolesKeepSuspension(s, op, tenantId, id);
    }
  }

  lemma {:induction false} GuardedStepKeeps(s: Store, op: Operation, tenantId: string)
    requires HasActiveOwner(s, tenantId) && (op.SuspendUser? || op.ReinstateUser?)
    ensures HasActiveOwner(Step(s, op), tenantId)
  {
    var id :| IsActiveOwner(s, tenantId, id);
    if op.ReinstateUser? {
      ApplyOne(s, MemberReinstated(op.tenantId, op.userId)[0]);
      assert "owner"[0] != "suspended"[0];
      assert IsActiveOwner(Step(s, op), tenantId, id);
    } else {
      var other := id;
      if op.tenantId == tenantId && AssertNotLastOwner(s, tenantId, op.userId).Allowed? {
        GuardMeansAnotherOwner(s, tenantId, op.userId);
        other :| other != op.userId && IsActiveOwner(s, tenantId, other);
      }
      SuspendKeepsOthers(s, op.tenantId, op.userId, tenantId, other);
      assert IsActiveOwner(Step(s, op), tenantId, other);
    }
  }

  ghost predicate LosesAt(stores: seq<Store>, ops: seq<Operation>, tenantId: string, k: nat)
    requires k < |ops| && k < |stores|
  {
    TakesLastOwner(stores[k], ops[k], tenantId)
  }

  lemma {:induction false} OneMore(stores: seq<Store>, ops: seq<Operation>, tenantId: string, k: nat)
    requires k < |ops| && k + 1 < |stores| && StepAt(stores, ops, k) && HasActiveOwner(stores[k], tenantId)
    ensures HasActiveOwner(stores[k + 1], tenantId) <==> !LosesAt(stores, ops, tenantId, k)
  {
    LosesOwnerIff(stores[k], ops[k], tenantId);
  }

  lemma {:induction false} KeptUpTo(stores: seq<Store>, ops: seq<Operation>, tenantId: string, n: nat)
    requires IsRun(stores, ops) && HasActiveOwner(stores[0], tenantId) && n <= |ops|
    requires forall k :: 0 <= k < n ==> !LosesAt(stores, ops, tenantId, k)
    ensures HasActiveOwner(stores[n], tenantId)
  {
    if n > 0 {
      KeptUpTo(stores, ops, tenantId, n - 1);
      OneMore(stores, ops, tenantId, n - 1);
    }
  }

  /** A run of all operations keeps an active owner throughout if and only if none of its steps
      takes ownership from the only active owner of that moment. */
  lemma {:induction false} KeepsOwnerIff(stores: seq<Store>, ops: seq<Operation>, tenantId: string)
    requires IsRun(stores, ops) && HasActiveOwner(stores[0], tenantId)
    ensures (forall k :: 0 <= k < |stores| ==> HasActiveOwner(stores[k], tenantId))
            <==> (forall k :: 0 <= k < |ops| ==> !LosesAt(stores, ops, tenantId, k))
  {
    if forall k :: 0 <= k < |ops| ==> !LosesAt(stores, ops, tenantId, k) {
      forall k | 0 <= k < |stores| ensures HasActiveOwner(stores[k], tenantId) { KeptUpTo(stores, ops, tenantId, k); }
    } else {
      var k :| 0 <= k < |ops| && LosesAt(stores, ops, tenantId, k);
      if HasActiveOwner(stores[k], tenantId) { OneMore(stores, ops, tenantId, k); }
    }
  }

  /** A tenant with an unsuspended user-owner keeps one over every run that takes ownership from
      nobody, whatever the governance checks answer and whatever happens to other tenants. */
  lemma {:induction false} AlwaysAnActiveOwner(stores: seq<Store>, ops: seq<Operation>, tenantId: string, n: nat)
    requires IsRun(stores, ops) && HasActiveOwner(stores[0], tenantId) && n < |stores|
    requires forall k, id :: 0 <= k < |ops| ==> !TakesOwnership(ops[k], tenantId, id)
    ensures HasActiveOwner(stores[n], tenantId)
  {
    KeptUpTo(stores, ops, tenantId, n);
  }

  /** Reinstating undoes a suspension exactly when the user was not suspended before; the
      role relations are never touched. */
  lemma {:induction false} ReinstateUndoesSuspend(s: Store, tenantId: string, userId: string)
    requires AssertNotLastOwner(s, tenantId, userId).Allowed?
    ensures Step(Step(s, SuspendUser(tenantId, userId, true)), ReinstateUser(tenantId, userId, true)) == s
            <==> !Suspended(s, tenantId, userId)
  {
    var s' := Step(s, SuspendUser(tenantId, userId, true));
    ApplyOne(s, MemberSuspended(tenantId, userId)[0]);
    ApplyOne(s', MemberReinstated(tenantId, userId)[0]);
  }

  function TwoOwners(tenantId: string, a: string, b: string): Store {
    {OnTenant(tenantId, "owner", User(a)), OnTenant(tenantId, "owner", User(b))}
  }

  /** Two owners who suspend each other at once both pass the guard and leave no one. */
  lemma {:induction false} TwoOwnersSuspendEachOther(tenantId: string)
    ensures var s := TwoOwners(tenantId, "ann", "bob");
            && AssertNotLastOwner(s, tenantId, "ann").Allowed? && AssertNotLastOwner(s, tenantId, "bob").Allowed?
            && var one := Apply(s, MemberSuspended(tenantId, "ann"));
               !HasActiveOwner(Apply(one, MemberSuspended(tenantId, "bob")), tenantId)
  {
    var s := TwoOwners(tenantId, "ann", "bob");
    assert "ann"[0] != "bob"[0] && "owner"[0] != "suspended"[0];
    assert IsActiveOwner(s, tenantId, "ann") && IsActiveOwner(s, tenantId, "bob");
    GuardMeansAnotherOwner(s, tenantId, "ann");
    GuardMeansAnotherOwner(s, tenantId, "bob");
    ApplyOne(s, MemberSuspended(tenantId, "ann")[0]);
    ApplyOne(Apply(s, MemberSuspended(tenantId, "ann")), MemberSuspended(tenantId, "bob")[0]);
  }

  // ---- what an operation writes, tuple by tuple ----

  /** The user owns the tenant and is not suspended there, in the tuples of the store. */
  predicate OwnsUnsuspended(s: Store, tenantId: string, id: string) {
    && Tuple(Object("tenant", tenantId), "owner", Object("user", id)) in s
    && Tuple(Object("tenant", tenantId), "suspended", Object("user", id)) !in s
  }

  /** A suspension adds the one tuple that suspends the user if the caller governs the user and another
      user owns the tenant unsuspended; otherwise it writes nothing. */
  lemma {:induction false} SuspendMeans(s: Store, tenantId: string, userId: string, governs: bool)
    ensures var suspension := Tuple(Object("tenant", tenantId), "suspended", Object("user", userId));
            Step(s, SuspendUser(tenantId, userId, governs))
            == if governs && exists id :: id != userId && OwnsUnsuspended(s, tenantId, id) then s + {suspension} else s
  {
    GuardMeansAnotherOwner(s, tenantId, userId);
    ApplyOne(s, MemberSuspended(tenantId, userId)[0]);
    forall id ensures IsActiveOwner(s, tenantId, id) <==> OwnsUnsuspended(s, tenantId, id) {}
    if id :| id != userId && OwnsUnsuspended(s, tenantId, id) { assert IsActiveOwner(s, tenantId, id); }
    if id :| id != userId && IsActiveOwner(s, tenantId, id) { assert OwnsUnsuspended(s, tenantId, id); }
  }

  /** Which of the two refusals a caller sees. */
  lemma {:induction false} RefusalMeans(s: Store, tenantId: string, userId: string)
    ensures var v := AssertNotLastOwner(s, tenantId, userId);
            var other := exists id :: id != userId && Owns(s, tenantId, id);
            && (v == Forbidden("Cannot suspend the last owner of this tenant") <==> !other)
            && (v == Forbidden("Cannot suspend the last unsuspended owner of this tenant") <==>
                  other && forall id :: id != userId ==> !OwnsUnsuspended(s, tenantId, id))
  {
    var others := Owners(s, tenantId) - {userId};
    var first, second := "Cannot suspend the last owner of this tenant",
                         "Cannot suspend the last unsuspended owner of this tenant";
    assert first[24] != second[24];
    GuardMeansAnotherOwner(s, tenantId, userId);
    forall id ensures id in others <==> id != userId && Owns(s, tenantId, id) { OwnersAreOwners(s, tenantId, id); }
    if id :| id in others { assert id != userId && Owns(s, tenantId, id); }
    if id :| id != userId && Owns(s, tenantId, id) { assert id in others; }
    forall id ensures IsActiveOwner(s, tenantId, id) <==> OwnsUnsuspended(s, tenantId, id) {}
    if id :| id != userId && IsActiveOwner(s, tenantId, id) { assert OwnsUnsuspended(s, tenantId, id); }
  }

  predicate Owns(s: Store, tenantId: string, id: string) {
    Tuple(Object("tenant", tenantId), "owner", Object("user", id)) in s
  }

  /** A reinstatement takes back the one tuple that suspends the user, if the caller governs the user. */
  lemma {:induction false} ReinstateMeans(s: Store, tenantId: string, userId: string, governs: bool)
    ensures Step(s, ReinstateUser(tenantId, userId, governs))
            == if governs then s - {Tuple(Object("tenant", tenantId), "suspended", Object("user", userId))} else s
  {
    ApplyOne(s, MemberReinstated(tenantId, userId)[0]);
  }

  predicate Called(role: TenantRole, name: string) {
    match role
    case Owner => name == "owner"
    case Admin => name == "admin"
    case Member => name == "member"
    case Viewer => name == "viewer"
    case BillingManager => name == "billing_manager"
  }

  /** Assigning, unassigning and changing a role write the tuples of these roles and no other. */
  lemma {:induction false} RolesMean(
    s: Store, tenantId: string, p: Object, role: TenantRole, name: string, role': TenantRole, name': string)
    requires Called(role, name) && Called(role', name')
    ensures var tuple := Tuple(Object("tenant", tenantId), name, p);
            && Step(s, AssignRole(tenantId, p, role)) == s + {tuple}
            && Step(s, UnassignRole(tenantId, p, role)) == s - {tuple}
            && Step(s, ChangeRole(tenantId, p, role, role'))
               == s - {tuple} + {Tuple(Object("tenant", tenantId), name', p)}
  {
    ApplyOne(s, RoleAssigned(tenantId, p, name)[0]);
    ApplyOne(s, RoleUnassigned(tenantId, p, name)[0]);
    ApplyTwo(s, RoleChanged(tenantId, p, name, name')[0], RoleChanged(tenantId, p, name, name')[1]);
  }
}
