/** `checkAgainstBaseline` and `run` of packages/db/bench/check_regression.ts, with measurements
    as real numbers. */
module BenchGate {
  import opened Options

  datatype StatementResult = StatementResult(latency: real, query: string)

  datatype BenchResult = BenchResult(tps: real, statements: seq<StatementResult>)

  datatype BaselineStatement = BaselineStatement(latency: real, fragment: string)

  datatype Baseline = Baseline(tps: Option<real>, statements: Option<seq<BaselineStatement>>)

  datatype Metric = Tps | StatementLatency | StatementMissing | Parse

  /** `fragment` is the query fragment that `detail` quotes, empty for the other metrics. */
  datatype Finding = Finding(benchName: string, metric: Metric, measured: real, baseline: real, fragment: string)

  // ---- the specification ----

  predicate StartsWith(query: string, fragment: string) {
    fragment <= query
  }

  /** The position of the first of the first n statements that begins with the fragment, or n. */
  function FirstMatch(statements: seq<StatementResult>, fragment: string, n: nat): (at: nat)
    requires n <= |statements|
    ensures at <= n
  {
    if n == 0 then 0
    else
      var at := FirstMatch(statements, fragment, n - 1);
      if at < n - 1 || StartsWith(statements[n - 1].query, fragment) then at else n
  }

  lemma {:induction false} FirstMatchIsFirst(statements: seq<StatementResult>, fragment: string, n: nat)
    requires n <= |statements|
    ensures forall i :: 0 <= i < FirstMatch(statements, fragment, n) ==> !StartsWith(statements[i].query, fragment)
    ensures var at := FirstMatch(statements, fragment, n); at < n ==> StartsWith(statements[at].query, fragment)
  {
    if n > 0 { FirstMatchIsFirst(statements, fragment, n - 1); }
  }

  /** `Array.prototype.find`, reduced to the latency of what it finds. */
  function Find(statements: seq<StatementResult>, fragment: string): Option<real> {
    var at := FirstMatch(statements, fragment, |statements|);
    if at == |statements| then None else Some(statements[at].latency)
  }

  /** Baseline entries without a fragment or a positive latency ask for nothing. */
  predicate Checked(s: BaselineStatement) {
    s.fragment != "" && s.latency > 0.0
  }

  function StatementFindings(name: string, r: BenchResult, s: BaselineStatement, threshold: real): (f: seq<Finding>)
    ensures |f| <= 1
  {
    if !Checked(s) then []
    else
      match Find(r.statements, s.fragment)
      case None => [Finding(name, StatementMissing, 0.0, s.latency, s.fragment)]
      case Some(measured) =>
        if measured > s.latency * threshold then [Finding(name, StatementLatency, measured, s.latency, s.fragment)]
        else []
  }

  function BaselineTps(b: Baseline): real {
    if b.tps.Some? then b.tps.value else 0.0
  }

  function Statements(b: Baseline): seq<BaselineStatement> {
    if b.statements.Some? then b.statements.value else []
  }

  /** `tps < baseline / threshold` for a positive baseline; dividing by zero gives Infinity. */
  predicate Dropped(tps: real, baseline: real, threshold: real) {
    threshold == 0.0 || tps < baseline / threshold
  }

  function TpsFindings(name: string, r: BenchResult, b: Baseline, threshold: real): seq<Finding> {
    if BaselineTps(b) > 0.0 && Dropped(r.tps, BaselineTps(b), threshold) then
      [Finding(name, Tps, r.tps, BaselineTps(b), "")]
    else []
  }

  /** The findings of each of the first n statements. */
  function PerStatement(
    name: string, r: BenchResult, s: seq<BaselineStatement>, n: nat, threshold: real): (per: seq<seq<Finding>>)
    requires n <= |s|
    ensures |per| == n && forall i :: 0 <= i < n ==> per[i] == StatementFindings(name, r, s[i], threshold)
  {
    if n == 0 then []
    else PerStatement(name, r, s, n - 1, threshold) + [StatementFindings(name, r, s[n - 1], threshold)]
  }

  function Flatten(per: seq<seq<Finding>>, n: nat): seq<Finding>
    requires n <= |per|
  {
    if n == 0 then [] else Flatten(per, n - 1) + per[n - 1]
  }

  function StatementsFindings(name: string, r: BenchResult, s: seq<BaselineStatement>, threshold: real): seq<Finding> {
    Flatten(PerStatement(name, r, s, |s|, threshold), |s|)
  }

  function Findings(name: string, r: BenchResult, b: Baseline, threshold: real): seq<Finding> {
    TpsFindings(name, r, b, threshold) + StatementsFindings(name, r, Statements(b), threshold)
  }

  lemma {:induction false} Assoc(a: seq<Finding>, b: seq<Finding>, c: seq<Finding>)
    ensures a + (b + c) == a + b + c && a + [] == a
  {
  }

  // ---- the code ----

  method CheckAgainstBaseline(
    name: string, r: BenchResult, b: Baseline, threshold: real) returns (findings: seq<Finding>)
    ensures findings == Findings(name, r, b, threshold)
  {
    findings := [];
    var baselineTps := BaselineTps(b);
    if baselineTps > 0.0 && Dropped(r.tps, baselineTps, threshold) {
      findings := [Finding(name, Tps, r.tps, baselineTps, "")];
    }
    ghost var first := findings;
    var stmts := Statements(b);
    ghost var per := PerStatement(name, r, stmts, |stmts|, threshold);
    Assoc(first, [], []);
    for i := 0 to |stmts|
      invariant findings == first + Flatten(per, i)
    {
      var more := CheckStatement(name, r, stmts[i], threshold);
      Assoc(first, Flatten(per, i), per[i]);
      findings := findings + more;
    }
  }

  /** The body of the loop: what it pushes for one statement. */
  method CheckStatement(
    name: string, r: BenchResult, stmt: BaselineStatement, threshold: real) returns (more: seq<Finding>)
    ensures more == StatementFindings(name, r, stmt, threshold)
  {
    if stmt.fragment == "" || stmt.latency <= 0.0 { return []; }
    var matched := Find(r.statements, stmt.fragment);
    if matched.None? {
      return [Finding(name, StatementMissing, 0.0, stmt.latency, stmt.fragment)];
    }
    if matched.value > stmt.latency * threshold {
      return [Finding(name, StatementLatency, matched.value, stmt.latency, stmt.fragment)];
    }
    return [];
  }

  // ---- what the findings mean ----

  /** The k-th measured statement is the first whose query begins with the fragment. */
  predicate FirstWith(statements: seq<StatementResult>, fragment: string, k: nat) {
    && k < |statements| && fragment <= statements[k].query
    && forall j :: 0 <= j < k ==> !(fragment <= statements[j].query)
  }

  predicate NoneWith(statements: seq<StatementResult>, fragment: string) {
    forall j :: 0 <= j < |statements| ==> !(fragment <= statements[j].query)
  }

  lemma {:induction false} FindIs(statements: seq<StatementResult>, fragment: string)
    ensures Find(statements, fragment).None? <==> NoneWith(statements, fragment)
    ensures forall k: nat :: FirstWith(statements, fragment, k) ==>
              Find(statements, fragment) == Some(statements[k].latency)
    ensures Find(statements, fragment).Some? ==> exists k: nat :: FirstWith(statements, fragment, k)
  {
    var at := FirstMatch(statements, fragment, |statements|);
    FirstMatchIsFirst(statements, fragment, |statements|);
    if at < |statements| { assert FirstWith(statements, fragment, at); }
    forall k: nat | FirstWith(statements, fragment, k) ensures k == at {}
  }

  /** A baseline statement with a fragment and a latency is met by the first statement with the fragment. */
  ghost predicate StatementOk(r: BenchResult, s: BaselineStatement, threshold: real) {
    s.fragment != "" && s.latency > 0.0 ==>
      exists k: nat :: FirstWith(r.statements, s.fragment, k) && r.statements[k].latency <= s.latency * threshold
  }

  /** No throughput drop, every statement present, and none slower than allowed. */
  ghost predicate WithinThresholds(r: BenchResult, b: Baseline, threshold: real) {
    && (b.tps.Some? && b.tps.value > 0.0 ==> threshold != 0.0 && r.tps >= b.tps.value / threshold)
    && (b.statements.Some? ==>
          forall i :: 0 <= i < |b.statements.value| ==> StatementOk(r, b.statements.value[i], threshold))
  }

  lemma {:induction false} NoFinding(name: string, r: BenchResult, s: BaselineStatement, threshold: real)
    ensures StatementFindings(name, r, s, threshold) == [] <==> StatementOk(r, s, threshold)
  {
    FindIs(r.statements, s.fragment);
  }

  lemma {:induction false} FlattenEmpty(per: seq<seq<Finding>>, n: nat)
    requires n <= |per|
    ensures Flatten(per, n) == [] <==> forall i :: 0 <= i < n ==> per[i] == []
  {
    if n > 0 { FlattenEmpty(per, n - 1); }
  }

  lemma {:induction false} FlattenHolds(per: seq<seq<Finding>>, n: nat, f: Finding)
    requires n <= |per|
    ensures f in Flatten(per, n) <==> exists i :: 0 <= i < n && f in per[i]
  {
    if n > 0 { FlattenHolds(per, n - 1, f); }
  }

  lemma {:induction false} CleanMeansWithin(name: string, r: BenchResult, b: Baseline, threshold: real)
    ensures Findings(name, r, b, threshold) == [] <==> WithinThresholds(r, b, threshold)
  {
    var s := Statements(b);
    FlattenEmpty(PerStatement(name, r, s, |s|, threshold), |s|);
    forall i | 0 <= i < |s|
      ensures PerStatement(name, r, s, |s|, threshold)[i] == [] <==> StatementOk(r, s[i], threshold)
    {
      NoFinding(name, r, s[i], threshold);
    }
  }

  /** Every violated statement is reported, and only violated statements are. */
  lemma {:induction false} StatementReported(
    name: string, r: BenchResult, s: seq<BaselineStatement>, threshold: real, f: Finding)
    ensures f in StatementsFindings(name, r, s, threshold) <==>
            exists i :: 0 <= i < |s| && Violates(name, r, s[i], threshold, f)
  {
    var per := PerStatement(name, r, s, |s|, threshold);
    FlattenHolds(per, |s|, f);
    forall i | 0 <= i < |s| ensures f in per[i] <==> Violates(name, r, s[i], threshold, f) {
      OneReported(name, r, s[i], threshold, f);
    }
  }

  lemma {:induction false} OneReported(name: string, r: BenchResult, s: BaselineStatement, threshold: real, f: Finding)
    ensures f in StatementFindings(name, r, s, threshold) <==> Violates(name, r, s, threshold, f)
  {
    FindIs(r.statements, s.fragment);
  }

  /** The finding that a statement deserves, if any. */
  ghost predicate Violates(name: string, r: BenchResult, s: BaselineStatement, threshold: real, f: Finding) {
    && s.fragment != "" && s.latency > 0.0
    && f.benchName == name && f.baseline == s.latency && f.fragment == s.fragment
    && ((f.metric == StatementMissing && f.measured == 0.0 && NoneWith(r.statements, s.fragment))
        || (f.metric == StatementLatency && f.measured > s.latency * threshold
            && exists k: nat :: FirstWith(r.statements, s.fragment, k) && f.measured == r.statements[k].latency))
  }

  /** The finding that the throughput deserves, if any. */
  predicate Drops(name: string, r: BenchResult, b: Baseline, threshold: real, f: Finding) {
    && b.tps.Some? && b.tps.value > 0.0 && (threshold == 0.0 || r.tps < b.tps.value / threshold)
    && f == Finding(name, Tps, r.tps, b.tps.value, "")
  }

  /** What a bench is reported for, throughput and statements together. */
  lemma {:induction false} FindingsAre(name: string, r: BenchResult, b: Baseline, threshold: real, f: Finding)
    ensures f in Findings(name, r, b, threshold) <==>
            || Drops(name, r, b, threshold, f)
            || (b.statements.Some? &&
                exists i :: 0 <= i < |b.statements.value| && Violates(name, r, b.statements.value[i], threshold, f))
  {
    StatementReported(name, r, Statements(b), threshold, f);
    assert f in Findings(name, r, b, threshold) <==>
           f in TpsFindings(name, r, b, threshold) || f in StatementsFindings(name, r, Statements(b), threshold);
  }

  lemma {:induction false} PerStatementPrefix(
    name: string, r: BenchResult, s: seq<BaselineStatement>, x: BaselineStatement, n: nat, threshold: real)
    requires n <= |s|
    ensures PerStatement(name, r, s + [x], n, threshold) == PerStatement(name, r, s, n, threshold)
  {
    if n > 0 { PerStatementPrefix(name, r, s, x, n - 1, threshold); }
  }

  lemma {:induction false} FlattenSnoc(per: seq<seq<Finding>>, x: seq<Finding>, n: nat)
    requires n <= |per|
    ensures Flatten(per + [x], n) == Flatten(per, n)
  {
    if n > 0 { FlattenSnoc(per, x, n - 1); }
  }

  /** Findings come in the order of the baseline, the throughput first. */
  lemma {:induction false} FindingsInOrder(
    name: string, r: BenchResult, tps: Option<real>, s: seq<BaselineStatement>, x: BaselineStatement, threshold: real)
    ensures var before := Findings(name, r, Baseline(tps, Some(s)), threshold);
            var after := Findings(name, r, Baseline(tps, Some(s + [x])), threshold);
            && before <= after && |after| <= |before| + 1
            && forall f :: f in after[|before|..] <==> Violates(name, r, x, threshold, f)
    ensures forall f :: f in Findings(name, r, Baseline(tps, Some([])), threshold)
                        <==> Drops(name, r, Baseline(tps, None), threshold, f)
  {
    var all := s + [x];
    var more := StatementFindings(name, r, x, threshold);
    PerStatementPrefix(name, r, s, x, |s|, threshold);
    FlattenSnoc(PerStatement(name, r, s, |s|, threshold), more, |s|);
    assert all[|s|] == x;
    assert StatementsFindings(name, r, all, threshold) == StatementsFindings(name, r, s, threshold) + more;
    Assoc(TpsFindings(name, r, Baseline(tps, Some(s)), threshold), StatementsFindings(name, r, s, threshold), more);
    var before := Findings(name, r, Baseline(tps, Some(s)), threshold);
    assert Findings(name, r, Baseline(tps, Some(all)), threshold) == before + more;
    assert (before + more)[|before|..] == more;
    forall f ensures f in more <==> Violates(name, r, x, threshold, f) { OneReported(name, r, x, threshold, f); }
    forall f ensures f in Findings(name, r, Baseline(tps, Some([])), threshold)
                     <==> Drops(name, r, Baseline(tps, None), threshold, f)
    {
      FindingsAre(name, r, Baseline(tps, Some([])), threshold, f);
    }
  }

  // ---- a looser threshold finds no more ----

  predicate Subsequence(a: seq<Finding>, b: seq<Finding>) {
    || a == []
    || (b != [] && ((a[|a| - 1] == b[|b| - 1] && Subsequence(a[..|a| - 1], b[..|b| - 1]))
                    || Subsequence(a, b[..|b| - 1])))
  }

  lemma {:induction false} SubsequenceSnoc(a: seq<Finding>, b: seq<Finding>, x: seq<Finding>, y: seq<Finding>)
    requires Subsequence(a, b) && |y| <= 1 && (x == [] || x == y)
    ensures Subsequence(a + x, b + y)
  {
    if y == [] {
      assert a + x == a && b + y == b;
    } else {
      assert (b + y)[..|b + y| - 1] == b;
      if x == [] {
        assert a + x == a;
      } else {
        assert (a + x)[..|a + x| - 1] == a;
      }
    }
  }

  lemma {:induction false} FewerWhenLooser(name: string, r: BenchResult, s: BaselineStatement, t1: real, t2: real)
    requires 0.0 < t1 <= t2
    ensures StatementFindings(name, r, s, t2) == []
            || StatementFindings(name, r, s, t2) == StatementFindings(name, r, s, t1)
  {
    if Checked(s) { assert s.latency * t1 <= s.latency * t2; }
  }

  lemma {:induction false} QuotientFalls(x: real, t1: real, t2: real)
    requires x > 0.0 && 0.0 < t1 <= t2
    ensures x / t2 <= x / t1
  {
    var q := x / t2;
    assert q > 0.0 && q * t1 <= q * t2 == x;
    assert q == (q * t1) / t1 <= x / t1;
  }

  /** The findings at a looser threshold are a subsequence of those at a stricter one. */
  lemma {:induction false} LooserFindsFewer(name: string, r: BenchResult, b: Baseline, t1: real, t2: real)
    requires 0.0 < t1 <= t2
    ensures Subsequence(Findings(name, r, b, t2), Findings(name, r, b, t1))
  {
    if BaselineTps(b) > 0.0 { QuotientFalls(BaselineTps(b), t1, t2); }
    var a, c := TpsFindings(name, r, b, t2), TpsFindings(name, r, b, t1);
    assert a == [] || a == c;
    SubsequenceSnoc([], [], a, c);
    assert [] + a == a && [] + c == c;
    var s := Statements(b);
    var x, y := PerStatement(name, r, s, |s|, t2), PerStatement(name, r, s, |s|, t1);
    forall i | 0 <= i < |s| ensures |y[i]| <= 1 && (x[i] == [] || x[i] == y[i]) {
      FewerWhenLooser(name, r, s[i], t1, t2);
    }
    FlattenFewer(x, y, |s|, a, c);
  }

  lemma {:induction false} FlattenFewer(
    x: seq<seq<Finding>>, y: seq<seq<Finding>>, n: nat, a: seq<Finding>, c: seq<Finding>)
    requires n <= |x| && n <= |y| && Subsequence(a, c)
    requires forall i :: 0 <= i < n ==> |y[i]| <= 1 && (x[i] == [] || x[i] == y[i])
    ensures Subsequence(a + Flatten(x, n), c + Flatten(y, n))
  {
    if n == 0 {
      Assoc(a, [], []);
      Assoc(c, [], []);
    } else {
      FlattenFewer(x, y, n - 1, a, c);
      SubsequenceSnoc(a + Flatten(x, n - 1), c + Flatten(y, n - 1), x[n - 1], y[n - 1]);
      Assoc(a, Flatten(x, n - 1), x[n - 1]);
      Assoc(c, Flatten(y, n - 1), y[n - 1]);
    }
  }

  // ---- the run ----


  /** What reading a baseline gives: `readBaseline` throws on everything but a missing file. */
  datatype BaselineFile = Absent | Unreadable | Read(baseline: Baseline)

  /** `parsed` is None when reading or parsing the log throws. */
  datatype BenchRun = BenchRun(name: string, file: BaselineFile, parsed: Option<BenchResult>)

  datatype Outcome = Thrown | Exit(exitCode: int, findings: seq<Finding>, runs: nat)

  /** `run` leaves the threshold at its default, 2.0. */
  function RunFindings(run: BenchRun): seq<Finding> {
    if !run.file.Read? then []
    else if run.parsed.None? then [Finding(run.name, Parse, 0.0, 0.0, "")]
    else Findings(run.name, run.parsed.value, run.file.baseline, 2.0)
  }

  function PerRun(runs: seq<BenchRun>, n: nat): (per: seq<seq<Finding>>)
    requires n <= |runs|
    ensures |per| == n
  {
    if n == 0 then [] else PerRun(runs, n - 1) + [RunFindings(runs[n - 1])]
  }

  lemma {:induction false} PerRunAt(runs: seq<BenchRun>, n: nat, i: nat)
    requires i < n <= |runs|
    ensures PerRun(runs, n)[i] == RunFindings(runs[i])
  {
    if i < n - 1 { PerRunAt(runs, n - 1, i); }
  }

  function AllFindings(runs: seq<BenchRun>): seq<Finding> {
    Flatten(PerRun(runs, |runs|), |runs|)
  }

  /** A run with a baseline that fails to parse or misses a threshold. */
  ghost predicate Fails(run: BenchRun) {
    run.file.Read? && (run.parsed.None? || !WithinThresholds(run.parsed.value, run.file.baseline, 2.0))
  }

  lemma {:induction false} FailsMeansFindings(run: BenchRun)
    ensures RunFindings(run) != [] <==> Fails(run)
  {
    if run.file.Read? && run.parsed.Some? {
      CleanMeansWithin(run.name, run.parsed.value, run.file.baseline, 2.0);
    }
  }

  lemma {:induction false} SomeRunFails(runs: seq<BenchRun>)
    ensures AllFindings(runs) != [] <==> exists i :: 0 <= i < |runs| && Fails(runs[i])
  {
    FlattenEmpty(PerRun(runs, |runs|), |runs|);
    forall i | 0 <= i < |runs| ensures PerRun(runs, |runs|)[i] == [] <==> !Fails(runs[i]) {
      PerRunAt(runs, |runs|, i);
      FailsMeansFindings(runs[i]);
    }
  }

  /** What the gate reports of a run: nothing without a baseline, the failure to parse, or the findings
      at the threshold 2. */
  ghost predicate ReportedOf(run: BenchRun, f: Finding) {
    && run.file.Read?
    && if run.parsed.None? then f == Finding(run.name, Parse, 0.0, 0.0, "")
       else f in Findings(run.name, run.parsed.value, run.file.baseline, 2.0)
  }

  /** The gate reports what it reports of its runs, run after run. */
  lemma {:induction false} AllFindingsAre(runs: seq<BenchRun>, run: BenchRun)
    ensures AllFindings([]) == []
    ensures AllFindings(runs) <= AllFindings(runs + [run])
    ensures forall f :: f in AllFindings(runs + [run])[|AllFindings(runs)|..] <==> ReportedOf(run, f)
  {
    var all := runs + [run];
    PerRunPrefix(runs, run, |runs|);
    FlattenSnoc(PerRun(runs, |runs|), RunFindings(run), |runs|);
    assert AllFindings(all) == AllFindings(runs) + RunFindings(run);
    assert AllFindings(all)[|AllFindings(runs)|..] == RunFindings(run);
  }

  lemma {:induction false} PerRunPrefix(runs: seq<BenchRun>, run: BenchRun, n: nat)
    requires n <= |runs|
    ensures PerRun(runs + [run], n) == PerRun(runs, n)
  {
    if n > 0 { PerRunPrefix(runs, run, n - 1); }
  }

  /** The gate fails exactly when some run with a baseline does. */
  method Run(runs: seq<BenchRun>) returns (o: Outcome)
    ensures o.Thrown? <==> exists i :: 0 <= i < |runs| && runs[i].file.Unreadable?
    ensures o.Exit? ==> o.findings == AllFindings(runs) && o.runs == |runs|
    ensures o.Exit? ==> o.exitCode == if exists i :: 0 <= i < |runs| && Fails(runs[i]) then 1 else 0
  {
    var findings: seq<Finding> := [];
    if |runs| == 0 { return Exit(0, findings, 0); }
    ghost var per := PerRun(runs, |runs|);
    for i := 0 to |runs|
      invariant findings == Flatten(per, i)
      invariant forall j :: 0 <= j < i ==> !runs[j].file.Unreadable?
    {
      if runs[i].file.Unreadable? { return Thrown; }
      var runFindings := CheckRun(runs, i);
      findings := findings + runFindings;
    }
    SomeRunFails(runs);
    if |findings| > 0 { return Exit(1, findings, |runs|); }
    return Exit(0, findings, |runs|);
  }

  /** The rest of the loop body, for a baseline file that does not throw. */
  method CheckRun(runs: seq<BenchRun>, i: nat) returns (findings: seq<Finding>)
    requires i < |runs| && !runs[i].file.Unreadable?
    ensures findings == PerRun(runs, |runs|)[i]
  {
    var run := runs[i];
    PerRunAt(runs, |runs|, i);
    if run.file.Absent? { return []; }
    if run.parsed.None? { return [Finding(run.name, Parse, 0.0, 0.0, "")]; }
    findings := CheckAgainstBaseline(run.name, run.parsed.value, run.file.baseline, 2.0);
  }
}
