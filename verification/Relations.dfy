/** The relation writes of packages/auth/go/spicedb.go over a set of relation tuples. A
    batch is applied atomically; Temporal may apply it again. */
module Relations {
  datatype Object = Object(kind: string, id: string)

  datatype Tuple = Tuple(resource: Object, relation: string, subject: Object)

  datatype Update = Touch(tuple: Tuple) | Delete(tuple: Tuple)

  type Batch = seq<Update>

  type Store = set<Tuple>

  function ApplyUpdate(s: Store, u: Update): Store {
    match u
    case Touch(t) => s + {t}
    case Delete(t) => s - {t}
  }

  /** WriteRelationships: the updates of one request, in order, in one step. */
  function Apply(s: Store, b: Batch): Store {
    if b == [] then s else ApplyUpdate(Apply(s, b[..|b| - 1]), b[|b| - 1])
  }

  // ---- what a batch says about a tuple ----

  datatype Verdict = Untouched | Present | Absent

  function Says(u: Update, t: Tuple): Verdict {
    if u.tuple != t then Untouched else if u.Touch? then Present else Absent
  }

  /** The last update of `t` decides. */
  function LastWord(b: Batch, t: Tuple): Verdict {
    if b == [] then Untouched
    else if Says(b[|b| - 1], t) != Untouched then Says(b[|b| - 1], t)
    else LastWord(b[..|b| - 1], t)
  }

  predicate Holds(v: Verdict, before: bool) {
    v == Present || (v == Untouched && before)
  }

  lemma {:induction false} ApplyPointwise(s: Store, b: Batch, t: Tuple)
    ensures t in Apply(s, b) <==> Holds(LastWord(b, t), t in s)
  {
    if b != [] { ApplyPointwise(s, b[..|b| - 1], t); }
  }

  /** Applying a batch again changes nothing. */
  lemma {:induction false} ReplayIsIdempotent(s: Store, b: Batch)
    ensures Apply(Apply(s, b), b) == Apply(s, b)
  {
    forall t ensures t in Apply(Apply(s, b), b) <==> t in Apply(s, b) {
      ApplyPointwise(s, b, t);
      ApplyPointwise(Apply(s, b), b, t);
    }
  }

  // ---- interleavings with replay ----

  /** A schedule names, step by step, the batch that is applied. */
  ghost predicate ScheduleOf(batches: seq<Batch>, schedule: seq<nat>) {
    forall i :: 0 <= i < |schedule| ==> schedule[i] < |batches|
  }

  /** Each batch is applied at least once. */
  ghost predicate Complete(batches: seq<Batch>, schedule: seq<nat>) {
    ScheduleOf(batches, schedule) && forall k: nat :: k < |batches| ==> k in schedule
  }

  function Run(s: Store, batches: seq<Batch>, schedule: seq<nat>): Store
    requires ScheduleOf(batches, schedule)
  {
    if schedule == [] then s
    else Apply(Run(s, batches, schedule[..|schedule| - 1]), batches[schedule[|schedule| - 1]])
  }

  /** Batches that both speak of a tuple say the same of it. */
  ghost predicate Compatible(batches: seq<Batch>) {
    forall i, j, t :: 0 <= i < |batches| && 0 <= j < |batches| ==> Agree(batches[i], batches[j], t)
  }

  ghost predicate Agree(a: Batch, b: Batch, t: Tuple) {
    LastWord(a, t) == Untouched || LastWord(b, t) == Untouched || LastWord(a, t) == LastWord(b, t)
  }

  ghost predicate Mentions(batches: seq<Batch>, t: Tuple, v: Verdict) {
    exists i :: 0 <= i < |batches| && LastWord(batches[i], t) == v
  }

  /** The store that every complete run must reach, told without a schedule. */
  ghost predicate InOutcome(s: Store, batches: seq<Batch>, t: Tuple) {
    Mentions(batches, t, Present) || (t in s && !Mentions(batches, t, Absent))
  }

  lemma {:induction false} RunFollowsVerdict(s: Store, batches: seq<Batch>, schedule: seq<nat>, t: Tuple, v: Verdict)
    requires ScheduleOf(batches, schedule) && v != Untouched
    requires forall i :: 0 <= i < |batches| ==> LastWord(batches[i], t) == Untouched || LastWord(batches[i], t) == v
    ensures (exists i :: 0 <= i < |schedule| && LastWord(batches[schedule[i]], t) == v)
            ==> (t in Run(s, batches, schedule) <==> v == Present)
    ensures (forall i :: 0 <= i < |schedule| ==> LastWord(batches[schedule[i]], t) == Untouched)
            ==> (t in Run(s, batches, schedule) <==> t in s)
  {
    if schedule != [] {
      var before, last := schedule[..|schedule| - 1], schedule[|schedule| - 1];
      RunFollowsVerdict(s, batches, before, t, v);
      ApplyPointwise(Run(s, batches, before), batches[last], t);
      assert forall i :: 0 <= i < |before| ==> before[i] == schedule[i];
      if LastWord(batches[last], t) == Untouched
         && exists i :: 0 <= i < |schedule| && LastWord(batches[schedule[i]], t) == v
      {
        var i :| 0 <= i < |schedule| && LastWord(batches[schedule[i]], t) == v;
        assert LastWord(batches[before[i]], t) == v;
      }
    }
  }

  lemma {:induction false} CompleteRunPointwise(s: Store, batches: seq<Batch>, schedule: seq<nat>, t: Tuple)
    requires Compatible(batches) && Complete(batches, schedule)
    ensures t in Run(s, batches, schedule) <==> InOutcome(s, batches, t)
  {
    if k: nat :| k < |batches| && LastWord(batches[k], t) != Untouched {
      var v := LastWord(batches[k], t);
      assert forall i :: 0 <= i < |batches| ==> Agree(batches[i], batches[k], t);
      assert k in schedule;
      var n :| 0 <= n < |schedule| && schedule[n] == k;
      assert LastWord(batches[schedule[n]], t) == v;
      RunFollowsVerdict(s, batches, schedule, t, v);
    } else {
      RunFollowsVerdict(s, batches, schedule, t, Present);
    }
  }

  /** Compatible batches end in one and the same store, whatever the interleaving and
      however often each of them is replayed. */
  lemma {:induction false} CompleteRunsAgree(s: Store, batches: seq<Batch>, first: seq<nat>, second: seq<nat>)
    requires Compatible(batches) && Complete(batches, first) && Complete(batches, second)
    ensures Run(s, batches, first) == Run(s, batches, second)
  {
    forall t ensures t in Run(s, batches, first) <==> t in Run(s, batches, second) {
      CompleteRunPointwise(s, batches, first, t);
      CompleteRunPointwise(s, batches, second, t);
    }
  }

  /** Batches on disjoint tuples are compatible. */
  lemma {:induction false} DisjointAreCompatible(batches: seq<Batch>)
    requires forall i, j :: 0 <= i < j < |batches| ==> Tuples(batches[i]) !! Tuples(batches[j])
    ensures Compatible(batches)
  {
    forall i, j, t | 0 <= i < |batches| && 0 <= j < |batches|
      ensures Agree(batches[i], batches[j], t)
    {
      SpeaksOfItsTuples(batches[i], t);
      SpeaksOfItsTuples(batches[j], t);
      assert i < j || j < i || i == j;
    }
  }

  function Tuples(b: Batch): set<Tuple> {
    set i | 0 <= i < |b| :: b[i].tuple
  }

  lemma {:induction false} SpeaksOfItsTuples(b: Batch, t: Tuple)
    ensures LastWord(b, t) != Untouched ==> t in Tuples(b)
  {
    if b != [] {
      SpeaksOfItsTuples(b[..|b| - 1], t);
      assert forall i :: 0 <= i < |b| - 1 ==> b[..|b| - 1][i] == b[i];
      assert b[|b| - 1].tuple in Tuples(b);
    }
  }

  /** Compatibility is also needed: two batches that contradict each other on a tuple have
      complete runs that end differently, from any store. */
  lemma {:induction false} ContradictionDiverges(s: Store, batches: seq<Batch>, i: nat, j: nat, t: Tuple)
    returns (first: seq<nat>, second: seq<nat>)
    requires i < |batches| && j < |batches| && !Agree(batches[i], batches[j], t)
    ensures Complete(batches, first) && Complete(batches, second)
    ensures Run(s, batches, first) != Run(s, batches, second)
  {
    var all := seq(|batches|, k requires 0 <= k < |batches| => k);
    first, second := all + [i], all + [j];
    forall k: nat | k < |batches| ensures k in first && k in second {
      assert first[k] == k && second[k] == k;
    }
    assert first[..|first| - 1] == all && second[..|second| - 1] == all;
    ApplyPointwise(Run(s, batches, all), batches[i], t);
    ApplyPointwise(Run(s, batches, all), batches[j], t);
  }

  // ---- the writes of the client ----

  function User(id: string): Object { Object("user", id) }

  function OnTenant(tenantId: string, relation: string, subject: Object): Tuple {
    Tuple(Object("tenant", tenantId), relation, subject)
  }

  function TenantCreated(tenantId: string, ownerId: string): Batch {
    [Touch(OnTenant(tenantId, "platform", Object("platform", "monok8s"))),
     Touch(OnTenant(tenantId, "owner", User(ownerId)))]
  }

  function MemberSuspended(tenantId: string, userId: string): Batch {
    [Touch(OnTenant(tenantId, "suspended", User(userId)))]
  }

  function MemberReinstated(tenantId: string, userId: string): Batch {
    [Delete(OnTenant(tenantId, "suspended", User(userId)))]
  }

  function MemberRemoved(tenantId: string, userId: string, role: string): Batch {
    [Delete(OnTenant(tenantId, role, User(userId))), Delete(OnTenant(tenantId, "suspended", User(userId)))]
  }

  function RoleAssigned(tenantId: string, principal: Object, role: string): Batch {
    [Touch(OnTenant(tenantId, role, principal))]
  }

  function RoleUnassigned(tenantId: string, principal: Object, role: string): Batch {
    [Delete(OnTenant(tenantId, role, principal))]
  }

  function RoleChanged(tenantId: string, principal: Object, oldRole: string, newRole: string): Batch {
    [Delete(OnTenant(tenantId, oldRole, principal)), Touch(OnTenant(tenantId, newRole, principal))]
  }

  lemma {:induction false} ApplyOne(s: Store, u: Update)
    ensures Apply(s, [u]) == ApplyUpdate(s, u)
  {
    assert [u][..0] == [];
  }

  lemma {:induction false} ApplyTwo(s: Store, u: Update, v: Update)
    ensures Apply(s, [u, v]) == ApplyUpdate(ApplyUpdate(s, u), v)
  {
    assert [u, v][..1] == [u];
    ApplyOne(s, u);
  }

  /** How a request can end for the caller. */
  datatype Reply = Applied | ReplyLost | Refused

  class Client {
    var store: Store

    constructor ()
      ensures store == {}
    {
      store := {};
    }

    /** One request: either all its updates take effect or none does. */
    method Write(updates: Batch, reply: Reply) returns (ok: bool)
      modifies this
      ensures ok == reply.Applied?
      ensures store == if reply.Refused? then old(store) else Apply(old(store), updates)
    {
      if !reply.Refused? {
        store := Apply(store, updates);
      }
      ok := reply.Applied?;
    }

    method WriteTenantCreated(tenantId: string, ownerId: string, reply: Reply) returns (ok: bool)
      modifies this
      ensures ok == reply.Applied?
      ensures var tenant := Object("tenant", tenantId);
              store == if reply.Refused? then old(store)
                       else old(store) + {Tuple(tenant, "platform", Object("platform", "monok8s")),
                                          Tuple(tenant, "owner", Object("user", ownerId))}
    {
      var u := TenantCreated(tenantId, ownerId);
      ApplyTwo(store, u[0], u[1]);
      ok := Write(u, reply);
    }

    method WriteMemberSuspended(tenantId: string, userId: string, reply: Reply) returns (ok: bool)
      modifies this
      ensures ok == reply.Applied?
      ensures store == if reply.Refused? then old(store)
                       else old(store) + {OnTenant(tenantId, "suspended", User(userId))}
    {
      ApplyOne(store, MemberSuspended(tenantId, userId)[0]);
      ok := Write(MemberSuspended(tenantId, userId), reply);
    }

    method WriteMemberReinstated(tenantId: string, userId: string, reply: Reply) returns (ok: bool)
      modifies this
      ensures ok == reply.Applied?
      ensures store == if reply.Refused? then old(store)
                       else old(store) - {OnTenant(tenantId, "suspended", User(userId))}
    {
      ApplyOne(store, MemberReinstated(tenantId, userId)[0]);
      ok := Write(MemberReinstated(tenantId, userId), reply);
    }

    method WriteMemberRemoved(tenantId: string, userId: string, role: string, reply: Reply) returns (ok: bool)
      modifies this
      ensures ok == reply.Applied?
      ensures store == if reply.Refused? then old(store)
                       else old(store) - {OnTenant(tenantId, role, User(userId)),
                                          OnTenant(tenantId, "suspended", User(userId))}
    {
      var u := MemberRemoved(tenantId, userId, role);
      ApplyTwo(store, u[0], u[1]);
      ok := Write(u, reply);
    }

    method WriteTenantRoleAssigned(tenantId: string, principal: Object, role: string, reply: Reply) returns (ok: bool)
      modifies this
      ensures ok == reply.Applied?
      ensures store == if reply.Refused? then old(store) else old(store) + {OnTenant(tenantId, role, principal)}
    {
      ApplyOne(store, RoleAssigned(tenantId, principal, role)[0]);
      ok := Write(RoleAssigned(tenantId, principal, role), reply);
    }

    /** The new role is there, the old one is not, and nothing else has changed. */
    method WriteTenantRoleChanged(tenantId: string, principal: Object, oldRole: string, newRole: string, reply: Reply)
      returns (ok: bool)
      modifies this
      ensures ok == reply.Applied?
      ensures store == if reply.Refused? then old(store)
                       else old(store) - {OnTenant(tenantId, oldRole, principal)}
                            + {OnTenant(tenantId, newRole, principal)}
    {
      var u := RoleChanged(tenantId, principal, oldRole, newRole);
      ApplyTwo(store, u[0], u[1]);
      ok := Write(u, reply);
    }
  }

  // ---- a role change is never half done ----

  ghost predicate HasEither(s: Store, tenantId: string, p: Object, oldRole: string, newRole: string) {
    OnTenant(tenantId, oldRole, p) in s || OnTenant(tenantId, newRole, p) in s
  }

  /** The other writes of a run do not take either role away. */
  ghost predicate Spares(b: Batch, tenantId: string, p: Object, oldRole: string, newRole: string) {
    LastWord(b, OnTenant(tenantId, oldRole, p)) != Absent && LastWord(b, OnTenant(tenantId, newRole, p)) != Absent
  }

  /** While a role change is applied and replayed among other writes, every state that the
      run passes through gives the principal the old or the new role. */
  lemma {:induction false} RoleChangeNeverBare(s: Store, batches: seq<Batch>, schedule: seq<nat>,
                                               tenantId: string, p: Object, oldRole: string, newRole: string)
    requires ScheduleOf(batches, schedule) && HasEither(s, tenantId, p, oldRole, newRole)
    requires forall i :: 0 <= i < |batches| ==>
               || batches[i] == RoleChanged(tenantId, p, oldRole, newRole)
               || Spares(batches[i], tenantId, p, oldRole, newRole)
    ensures HasEither(Run(s, batches, schedule), tenantId, p, oldRole, newRole)
  {
    if schedule != [] {
      var before, b := schedule[..|schedule| - 1], batches[schedule[|schedule| - 1]];
      var s' := Run(s, batches, before);
      RoleChangeNeverBare(s, batches, before, tenantId, p, oldRole, newRole);
      if b == RoleChanged(tenantId, p, oldRole, newRole) {
        ApplyTwo(s', b[0], b[1]);
      } else {
        ApplyPointwise(s', b, OnTenant(tenantId, oldRole, p));
        ApplyPointwise(s', b, OnTenant(tenantId, newRole, p));
      }
    }
  }

  /** Writing the two updates as two requests would pass through such a state. */
  lemma {:induction false} TwoRequestsGoBare(s: Store, tenantId: string, p: Object, oldRole: string, newRole: string)
    requires OnTenant(tenantId, newRole, p) !in s
    ensures !HasEither(Apply(s, RoleUnassigned(tenantId, p, oldRole)), tenantId, p, oldRole, newRole)
  {
    ApplyOne(s, RoleUnassigned(tenantId, p, oldRole)[0]);
  }
}
