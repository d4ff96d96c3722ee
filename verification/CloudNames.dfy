/** The translators of apps/workers/iam-writeback/translate.go, with the writers that its
    naming convention describes. */
module CloudNames {
  import opened Strings

  datatype Error = NotMonok8s | Unparsable | EmptyType | UnknownRole(role: string)

  datatype Result<T> = Ok(value: T) | Err(error: Error)

  datatype Role = Role(resourceType: string, role: string)

  datatype GcpRole = GcpRole(resourceType: string, role: string, resourceId: string)

  datatype Group = Group(resourceType: string, resourceId: string)

  predicate ValidRole(r: string) {
    r == "admin" || r == "member" || r == "viewer" || r == "billing_manager"
  }

  // ---- AWS permission sets: monok8s-<type>-<role> ----

  function FormatAws(v: Role): string {
    "monok8s-" + v.resourceType + "-" + v.role
  }

  function ParseAws(name: string): Result<Role> {
    if !("monok8s-" <= name) then Err(NotMonok8s) else ReadAws(name[8..])
  }

  /** What follows the prefix: everything up to the last hyphen is the type. */
  function ReadAws(rest: string): Result<Role> {
    var i := LastIndex(rest, '-');
    if i < 1 then Err(Unparsable)
    else if !ValidRole(rest[i + 1..]) then Err(UnknownRole(rest[i + 1..]))
    else Ok(Role(rest[..i], rest[i + 1..]))
  }

  lemma {:induction false} ValidRolesHaveNoHyphen(r: string)
    requires ValidRole(r)
    ensures '-' !in r
  {
  }

  lemma {:induction false} ReadsWritten(resourceType: string, role: string)
    requires resourceType != "" && '-' !in role && ValidRole(role)
    ensures ReadAws(resourceType + ['-'] + role) == Ok(Role(resourceType, role))
  {
    LastIndexAt(resourceType, '-', role);
    Halves(resourceType, '-', role);
  }

  lemma {:induction false} AwsReadsWritten(v: Role)
    requires v.resourceType != "" && ValidRole(v.role)
    ensures ParseAws(FormatAws(v)) == Ok(v)
  {
    AfterPrefix("monok8s-", v.resourceType, "-", v.role);
    ValidRolesHaveNoHyphen(v.role);
    ReadsWritten(v.resourceType, v.role);
  }

  /** Reading undoes writing exactly for a non-empty type and a valid role; the type may
      contain hyphens. */
  lemma {:induction false} AwsRoundTrip(v: Role)
    ensures ParseAws(FormatAws(v)) == Ok(v) <==> v.resourceType != "" && ValidRole(v.role)
  {
    if v.resourceType != "" && ValidRole(v.role) { AwsReadsWritten(v); }
  }

  /** An accepted name is the written form of what is read from it. */
  lemma {:induction false} AwsReformat(name: string)
    requires ParseAws(name).Ok?
    ensures FormatAws(ParseAws(name).value) == name
    ensures name == "monok8s-" + ParseAws(name).value.resourceType + "-" + ParseAws(name).value.role
  {
    RewritesRead(name[8..]);
    assert name == "monok8s-" + name[8..];
    Regroup("monok8s-", ParseAws(name).value.resourceType, "-", ParseAws(name).value.role);
  }

  lemma {:induction false} RewritesRead(rest: string)
    requires ReadAws(rest).Ok?
    ensures rest == ReadAws(rest).value.resourceType + "-" + ReadAws(rest).value.role
  {
    var i := LastIndex(rest, '-');
    assert rest == rest[..i] + [rest[i]] + rest[i + 1..];
  }

  /** What every name is read as: its last hyphen separates type and role, and each way to be refused
      has its own error. */
  lemma {:induction false} AwsReads(resourceType: string, role: string)
    requires '-' !in role
    ensures ParseAws("monok8s-" + (resourceType + "-" + role))
            == if resourceType == "" then Err(Unparsable)
               else if role !in {"admin", "member", "viewer", "billing_manager"} then Err(UnknownRole(role))
               else Ok(Role(resourceType, role))
    ensures ParseAws("monok8s-" + role) == Err(Unparsable)
    ensures forall name :: !("monok8s-" <= name) ==> ParseAws(name) == Err(NotMonok8s)
  {
    var rest := resourceType + ['-'] + role;
    var prefix := "monok8s-";
    OffPrefix(prefix, rest);
    OffPrefix(prefix, role);
    LastIndexAt(resourceType, '-', role);
    Halves(resourceType, '-', role);
  }

  lemma {:induction false} OffPrefix(prefix: string, rest: string)
    ensures prefix <= prefix + rest && (prefix + rest)[|prefix|..] == rest
  {
  }

  // ---- Azure app roles: monok8s:<type>:<role> ----

  function FormatAzure(v: Role): string {
    "monok8s:" + v.resourceType + ":" + v.role
  }

  function ParseAzure(value: string): Result<Role> {
    var parts := SplitN(value, ':', 3);
    if |parts| != 3 || parts[0] != "monok8s" then Err(NotMonok8s)
    else if parts[1] == "" then Err(EmptyType)
    else if !ValidRole(parts[2]) then Err(UnknownRole(parts[2]))
    else Ok(Role(parts[1], parts[2]))
  }

  lemma {:induction false} SplitInThree(a: string, b: string, rest: string)
    requires ':' !in a && ':' !in b
    ensures SplitN(a + [':'] + (b + [':'] + rest), ':', 3) == [a, b, rest]
  {
    var s2 := b + [':'] + rest;
    var s := a + [':'] + s2;
    FirstIndexAt(a, ':', s2);
    FirstIndexAt(b, ':', rest);
    assert s[..|a|] == a && s[|a| + 1..] == s2;
    assert s2[..|b|] == b && s2[|b| + 1..] == rest;
    assert SplitN(rest, ':', 1) == [rest];
    assert SplitN(s2, ':', 2) == [b] + [rest];
  }

  /** The parts of an accepted value, put together again. */
  lemma {:induction false} ThreeParts(s: string)
    requires |SplitN(s, ':', 3)| == 3
    ensures var p := SplitN(s, ':', 3);
            ':' !in p[0] && ':' !in p[1] && s == p[0] + ":" + p[1] + ":" + p[2]
  {
    var p := SplitN(s, ':', 3);
    JoinUndoesSplitN(s, ':', 3);
    SplitNIsFree(s, ':', 3, 0);
    SplitNIsFree(s, ':', 3, 1);
    JoinOfThree(p, ':');
  }

  lemma {:induction false} AzureRoundTrip(v: Role)
    ensures ParseAzure(FormatAzure(v)) == Ok(v)
            <==> v.resourceType != "" && ':' !in v.resourceType && ValidRole(v.role)
  {
    var s := FormatAzure(v);
    if ':' !in v.resourceType {
      assert s == "monok8s" + [':'] + (v.resourceType + [':'] + v.role);
      SplitInThree("monok8s", v.resourceType, v.role);
    } else if |SplitN(s, ':', 3)| == 3 {
      ThreeParts(s);
    }
  }

  lemma {:induction false} AzureReformat(value: string)
    requires ParseAzure(value).Ok?
    ensures FormatAzure(ParseAzure(value).value) == value
    ensures value == "monok8s:" + ParseAzure(value).value.resourceType + ":" + ParseAzure(value).value.role
  {
    ThreeParts(value);
    assert "monok8s:" == "monok8s" + ":";
  }

  /** What every value is read as: the first two colons separate its three parts. */
  lemma {:induction false} AzureReads(first: string, resourceType: string, role: string)
    requires ':' !in first && ':' !in resourceType
    ensures ParseAzure(first + ":" + (resourceType + ":" + role))
            == if first != "monok8s" then Err(NotMonok8s)
               else if resourceType == "" then Err(EmptyType)
               else if role !in {"admin", "member", "viewer", "billing_manager"} then Err(UnknownRole(role))
               else Ok(Role(resourceType, role))
    ensures ParseAzure(first + ":" + resourceType) == Err(NotMonok8s) == ParseAzure(first)
  {
    SplitInThree(first, resourceType, role);
    FirstIndexAt(first, ':', resourceType);
    Halves(first, ':', resourceType);
    FirstIndexNone(resourceType, ':');
    FirstIndexNone(first, ':');
  }

  lemma {:induction false} FirstIndexNone(s: string, c: char)
    requires c !in s
    ensures FirstIndex(s, c) == -1
  {
  }

  // ---- GCP custom roles: monok8s_<type>_<role>_<id with underscores> ----

  function FormatGcp(v: GcpRole): string {
    "monok8s_" + WriteGcp(v)
  }

  /** What follows the prefix. */
  function WriteGcp(v: GcpRole): string {
    v.resourceType + ['_'] + (v.role + ['_'] + Replace(v.resourceId, '-', '_'))
  }

  function ParseGcp(roleId: string): Result<GcpRole> {
    if !("monok8s_" <= roleId) then Err(NotMonok8s) else ReadGcp(roleId[8..])
  }

  function ReadGcp(rest: string): Result<GcpRole> {
    var parts := Split(rest, '_');
    if |parts| < 7 then Err(Unparsable)
    else if !ValidRole(parts[1]) then Err(UnknownRole(parts[1]))
    else Ok(GcpRole(parts[0], parts[1], Join(parts[|parts| - 5..], '-')))
  }

  lemma {:induction false} ReadsRest(v: GcpRole)
    ensures ParseGcp(FormatGcp(v)) == ReadGcp(WriteGcp(v))
  {
    assert FormatGcp(v)[8..] == WriteGcp(v);
  }

  lemma {:induction false} GcpParts(v: GcpRole)
    ensures Split(WriteGcp(v), '_')
            == Split(v.resourceType, '_') + Split(v.role, '_') + Split(Replace(v.resourceId, '-', '_'), '_')
  {
    var id := Replace(v.resourceId, '-', '_');
    SplitConcat(v.resourceType, '_', v.role + ['_'] + id);
    SplitConcat(v.role, '_', id);
  }

  lemma {:induction false} JoinOfFive(five: seq<string>)
    requires |five| == 5 && Free(five, '_')
    ensures '_' !in Join(five, '-')
    ensures Free(five, '-') ==> Split(Join(five, '-'), '-') == five
  {
    JoinIsFree(five, '-', '_');
    if Free(five, '-') { SplitUndoesJoin(five, '-'); }
  }

  /** What the reader makes of a written name whose type and role are free of underscores. */
  lemma {:induction false} GcpUnderscoreFree(v: GcpRole)
    requires '_' !in v.resourceType && '_' !in v.role && '_' !in v.resourceId
    ensures Split(WriteGcp(v), '_') == [v.resourceType, v.role] + Split(v.resourceId, '-')
  {
    GcpParts(v);
    SplitOfFree(v.resourceType, '_');
    SplitOfFree(v.role, '_');
    SplitReplaced(v.resourceId, '-', '_');
    PutTogether(Split(v.resourceType, '_'), Split(v.role, '_'), Split(v.resourceId, '-'), v.resourceType, v.role);
  }

  lemma {:induction false} PutTogether(p: seq<string>, q: seq<string>, r: seq<string>, a: string, b: string)
    requires p == [a] && q == [b]
    ensures p + q + r == [a, b] + r
  {
  }

  /** Reading undoes writing exactly for a type and a valid role without underscores (so
      never for billing_manager) and an id of five hyphen-separated groups. */
  lemma {:induction false} GcpRoundTrip(v: GcpRole)
    ensures ParseGcp(FormatGcp(v)) == Ok(v)
            <==> && '_' !in v.resourceType && '_' !in v.role && '_' !in v.resourceId
                 && ValidRole(v.role) && |Split(v.resourceId, '-')| == 5
  {
    ReadsRest(v);
    if ParseGcp(FormatGcp(v)) == Ok(v) { GcpReadBackIsFree(v); }
    if '_' !in v.resourceType && '_' !in v.role && '_' !in v.resourceId { GcpFreeIsReadBack(v); }
  }

  lemma {:induction false} GcpReadBackIsFree(v: GcpRole)
    requires ReadGcp(WriteGcp(v)) == Ok(v)
    ensures '_' !in v.resourceType && '_' !in v.role && '_' !in v.resourceId
    ensures ValidRole(v.role) && |Split(v.resourceId, '-')| == 5
  {
    var parts := Split(WriteGcp(v), '_');
    var five := parts[|parts| - 5..];
    SplitIsFree(WriteGcp(v), '_');
    JoinOfFive(five);
    GcpUnderscoreFree(v);
    var groups := Split(v.resourceId, '-');
    SplitIsFree(v.resourceId, '-');
    assert five == groups[|groups| - 5..];
    assert Free(five, '-');
  }

  lemma {:induction false} GcpFreeIsReadBack(v: GcpRole)
    requires '_' !in v.resourceType && '_' !in v.role && '_' !in v.resourceId
    ensures ReadGcp(WriteGcp(v)) == Ok(v) <==> ValidRole(v.role) && |Split(v.resourceId, '-')| == 5
  {
    var parts, groups := Split(WriteGcp(v), '_'), Split(v.resourceId, '-');
    GcpUnderscoreFree(v);
    JoinUndoesSplit(v.resourceId, '-');
    if |groups| == 5 { assert parts[|parts| - 5..] == groups; }
    if ReadGcp(WriteGcp(v)) == Ok(v) { GcpReadBackIsFree(v); }
  }

  /** An accepted name is written back unchanged exactly when it has seven segments and
      the last five contain no hyphen; further segments in the middle are dropped. */
  lemma {:induction false} GcpReformat(roleId: string)
    requires ParseGcp(roleId).Ok?
    ensures var parts := Split(roleId[8..], '_');
            FormatGcp(ParseGcp(roleId).value) == roleId <==> |parts| == 7 && Free(parts[2..], '-')
  {
    var v := ParseGcp(roleId).value;
    assert roleId == "monok8s_" + roleId[8..];
    assert FormatGcp(v) == roleId ==> FormatGcp(v)[8..] == roleId[8..];
    assert FormatGcp(v)[8..] == WriteGcp(v);
    GcpRewrites(roleId[8..]);
  }

  lemma {:induction false} GcpRewrites(rest: string)
    requires ReadGcp(rest).Ok?
    ensures var parts := Split(rest, '_');
            WriteGcp(ReadGcp(rest).value) == rest <==> |parts| == 7 && Free(parts[2..], '-')
  {
    var v, parts := ReadGcp(rest).value, Split(rest, '_');
    ReadIsFree(rest);
    if WriteGcp(v) == rest {
      GcpUnderscoreFree(v);
      SplitIsFree(v.resourceId, '-');
      var groups := Split(v.resourceId, '-');
      assert parts[2..] == groups;
      SameLastFive(rest, groups);
    }
    if |parts| == 7 && Free(parts[2..], '-') { SevenPartsRewrite(rest); }
  }

  /** Reading gives a type, a role and an id without underscores. */
  lemma {:induction false} ReadIsFree(rest: string)
    requires ReadGcp(rest).Ok?
    ensures var v := ReadGcp(rest).value;
            '_' !in v.resourceType && '_' !in v.role && '_' !in v.resourceId
  {
    var parts := Split(rest, '_');
    SplitIsFree(rest, '_');
    JoinOfFive(parts[|parts| - 5..]);
  }

  lemma {:induction false} SameLastFive(rest: string, groups: seq<string>)
    requires ReadGcp(rest).Ok? && Free(groups, '-') && |groups| >= 5
    requires groups == Split(ReadGcp(rest).value.resourceId, '-') && Split(rest, '_')[2..] == groups
    ensures |groups| == 5
  {
    var parts := Split(rest, '_');
    var five := parts[|parts| - 5..];
    SplitIsFree(rest, '_');
    assert five == groups[|groups| - 5..];
    JoinOfFive(five);
  }

  lemma {:induction false} SevenPartsRewrite(rest: string)
    requires ReadGcp(rest).Ok? && |Split(rest, '_')| == 7 && Free(Split(rest, '_')[2..], '-')
    ensures WriteGcp(ReadGcp(rest).value) == rest
  {
    var v, parts := ReadGcp(rest).value, Split(rest, '_');
    ReadIsFree(rest);
    SplitIsFree(rest, '_');
    JoinOfFive(parts[2..]);
    GcpUnderscoreFree(v);
    assert parts == [v.resourceType, v.role] + parts[2..];
    JoinUndoesSplit(rest, '_');
    JoinUndoesSplit(WriteGcp(v), '_');
  }

  /** What every name is read as, segment by segment: the first two are type and role, the last five
      the groups of the id, and whatever stands between is dropped. */
  lemma {:induction false} GcpReads(parts: seq<string>)
    requires parts != [] && Free(parts, '_')
    ensures ParseGcp("monok8s_" + Join(parts, '_'))
            == if |parts| < 7 then Err(Unparsable)
               else if parts[1] !in {"admin", "member", "viewer", "billing_manager"} then Err(UnknownRole(parts[1]))
               else Ok(GcpRole(parts[0], parts[1], Join(parts[|parts| - 5..], '-')))
    ensures forall name :: !("monok8s_" <= name) ==> ParseGcp(name) == Err(NotMonok8s)
  {
    var prefix := "monok8s_";
    OffPrefix(prefix, Join(parts, '_'));
    SplitUndoesJoin(parts, '_');
  }

  // ---- Azure groups: monok8s-<type>-<id>-<role> ----

  function FormatGroup(v: Group, role: string): string {
    "monok8s-" + v.resourceType + "-" + (v.resourceId + "-" + role)
  }

  function ParseGroup(name: string): Result<Group> {
    if !("monok8s-" <= name) then Err(NotMonok8s)
    else
      var parts := Split(name[8..], '-');
      if |parts| < 7 then Err(Unparsable)
      else Ok(Group(parts[0], Join(parts[1..6], '-')))
  }

  /** Whatever the role, type and id are read back exactly when the type has no hyphen and
      the id has five groups. */
  lemma {:induction false} GroupRoundTrip(v: Group, role: string)
    ensures ParseGroup(FormatGroup(v, role)) == Ok(v)
            <==> '-' !in v.resourceType && |Split(v.resourceId, '-')| == 5
  {
    var rest := v.resourceType + ['-'] + (v.resourceId + ['-'] + role);
    var parts := Split(rest, '-');
    var groups := Split(v.resourceId, '-');
    AfterPrefix("monok8s-", v.resourceType, "-", v.resourceId + ['-'] + role);
    SplitConcat(v.resourceType, '-', v.resourceId + ['-'] + role);
    SplitConcat(v.resourceId, '-', role);
    assert parts == Split(v.resourceType, '-') + (groups + Split(role, '-'));
    SplitIsFree(rest, '-');
    if |parts| >= 7 {
      SplitUndoesJoin(parts[1..6], '-');
    }
    if '-' !in v.resourceType && |groups| == 5 {
      SplitOfFree(v.resourceType, '-');
      assert parts[1..6] == groups;
      JoinUndoesSplit(v.resourceId, '-');
    }
  }

  /** What every group name is read as, segment by segment: the first is the type, the next five the
      groups of the id, and all others belong to the role. */
  lemma {:induction false} GroupReads(parts: seq<string>)
    requires parts != [] && Free(parts, '-')
    ensures ParseGroup("monok8s-" + Join(parts, '-'))
            == if |parts| < 7 then Err(Unparsable) else Ok(Group(parts[0], Join(parts[1..6], '-')))
    ensures forall name :: !("monok8s-" <= name) ==> ParseGroup(name) == Err(NotMonok8s)
  {
    var prefix := "monok8s-";
    OffPrefix(prefix, Join(parts, '-'));
    SplitUndoesJoin(parts, '-');
  }
}
