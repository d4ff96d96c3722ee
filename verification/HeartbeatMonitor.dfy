/** `InstallationHeartbeatMonitorWorkflow` of apps/workers/onboarding/workflow_installation.go.
    A run is a sequence of wake-ups of its endless loop; times are in milliseconds. */
module HeartbeatMonitor {
  datatype Status = Healthy | Warning | Critical

  const MINUTE: nat := 60000
  const WARNING_AFTER: nat := 10 * MINUTE
  const CRITICAL_AFTER: nat := 30 * MINUTE

  /** How one pass of the loop goes: the flags that the `Await` sees after `waited`, how long the
      activities before and after the alert take, how long the wait in critical lasts, and whether
      the `revoked` flag is up when it ends. Which of the receivers of all passes gets a signal is
      left open. */
  datatype Wake = Wake(
    timerFired: bool, heartbeatReceived: bool, revoked: bool,
    waited: nat, updating: nat, alerting: nat, held: nat, revokedMeanwhile: bool)

  function Threshold(status: Status): nat {
    if status == Healthy then WARNING_AFTER else CRITICAL_AFTER - WARNING_AFTER
  }

  /** The await ends for a reason. A cancelled timer also raises `timerFired`, but only together
      with the signal that cancelled it. */
  predicate Possible(w: Wake, status: Status) {
    && (w.timerFired || w.heartbeatReceived || w.revoked)
    && (!w.heartbeatReceived && !w.revoked ==> w.waited >= Threshold(status))
  }

  /** `outage` numbers the stretches between the resets that the loop observes; `since` is when
      the stretch of the alert began. */
  datatype Alert = Alert(severity: Status, at: nat, outage: nat, since: nat)

  datatype Monitor = Monitor(status: Status, now: nat, outage: nat, since: nat, alerts: seq<Alert>, stopped: bool)

  const START := Monitor(Healthy, 0, 0, 0, [], false)

  function Reset(m: Monitor, at: nat): Monitor {
    m.(status := Healthy, outage := m.outage + 1, since := at)
  }

  function Escalated(m: Monitor, w: Wake): Monitor {
    var newStatus := if m.status == Warning then Critical else Warning;
    var at := m.now + w.waited + w.updating;
    m.(status := newStatus, alerts := m.alerts + [Alert(newStatus, at, m.outage, m.since)], now := at + w.alerting)
  }

  /** One pass of the loop. */
  function Next(m: Monitor, w: Wake): Monitor {
    if m.stopped then m
    else if w.revoked then m.(stopped := true, now := m.now + w.waited)
    else if w.heartbeatReceived then
      Reset(m, m.now + w.waited).(now := m.now + w.waited + w.updating)
    else
      var e := Escalated(m, w);
      if e.status != Critical then e
      else if w.revokedMeanwhile then e.(stopped := true, now := e.now + w.held)
      else Reset(e, e.now + w.held).(now := e.now + w.held)
  }

  function Exec(wakes: seq<Wake>): Monitor {
    if wakes == [] then START else Next(Exec(wakes[..|wakes| - 1]), wakes[|wakes| - 1])
  }

  predicate IsRun(wakes: seq<Wake>) {
    forall k :: 0 <= k < |wakes| ==> Possible(wakes[k], Exec(wakes[..k]).status)
  }

  /** `status` is the variable of the loop; the rest records what the world has seen of it. */
  class Workflow {
    var status: Status
    ghost var now: nat
    ghost var outage: nat
    ghost var since: nat
    ghost var alerts: seq<Alert>

    ghost function View(stopped: bool): Monitor
      reads this
    {
      Monitor(status, now, outage, since, alerts, stopped)
    }

    constructor ()
      ensures View(false) == START
    {
      status, now, outage, since, alerts := Healthy, 0, 0, 0, [];
    }

    /** The endless loop, for as many passes as there are wake-ups. */
    method Run(wakes: seq<Wake>) returns (stopped: bool)
      requires View(false) == START
      modifies this
      ensures View(stopped) == Exec(wakes)
    {
      stopped := false;
      for i := 0 to |wakes|
        invariant View(stopped) == Exec(wakes[..i])
      {
        assert wakes[..i + 1][..i] == wakes[..i];
        if !stopped { stopped := Pass(wakes[i]); }
      }
      assert wakes[..|wakes|] == wakes;
    }

    method Pass(w: Wake) returns (stopped: bool)
      modifies this
      ensures View(stopped) == Next(old(View(false)), w)
    {
      now := now + w.waited;
      if w.revoked { return true; }
      if w.heartbeatReceived {
        outage, since := outage + 1, now;
        now := now + w.updating;
        if status != Healthy { status := Healthy; }
        return false;
      }
      var newStatus := Warning;
      if status == Warning { newStatus := Critical; }
      status := newStatus;
      now := now + w.updating;
      alerts := alerts + [Alert(newStatus, now, outage, since)];
      now := now + w.alerting;
      if newStatus == Critical {
        now := now + w.held;
        if w.revokedMeanwhile { return true; }
        outage, since := outage + 1, now;
        status := Healthy;
      }
      return false;
    }
  }

  // ---- what every run keeps ----

  /** A warning opens the alerts of an outage; a critical follows it and closes them. */
  predicate AlertAt(alerts: seq<Alert>, k: nat)
    requires k < |alerts|
  {
    && (alerts[k].severity == Warning ==> alerts[k].at >= alerts[k].since + WARNING_AFTER)
    && (alerts[k].severity == Warning && k > 0 ==> alerts[k - 1].outage < alerts[k].outage)
    && (alerts[k].severity != Warning ==>
          && alerts[k].severity == Critical && k > 0
          && alerts[k - 1].severity == Warning
          && alerts[k - 1].outage == alerts[k].outage && alerts[k - 1].since == alerts[k].since
          && alerts[k].at >= alerts[k - 1].at + (CRITICAL_AFTER - WARNING_AFTER)
          && alerts[k].at >= alerts[k].since + CRITICAL_AFTER)
  }

  predicate Inv(m: Monitor) {
    && (forall k :: 0 <= k < |m.alerts| ==> AlertAt(m.alerts, k))
    && m.since <= m.now
    && (!m.stopped ==> m.status != Critical)
    && (!m.stopped && m.status == Healthy && m.alerts != [] ==> m.alerts[|m.alerts| - 1].outage < m.outage)
    && (!m.stopped && m.status == Warning ==>
          && m.alerts != []
          && m.alerts[|m.alerts| - 1].severity == Warning
          && m.alerts[|m.alerts| - 1].outage == m.outage
          && m.alerts[|m.alerts| - 1].since == m.since
          && m.alerts[|m.alerts| - 1].at <= m.now)
  }

  lemma {:induction false} StepKeepsInv(m: Monitor, w: Wake)
    requires Inv(m) && (m.stopped || Possible(w, m.status))
    ensures Inv(Next(m, w))
  {
    if !m.stopped && !w.revoked && !w.heartbeatReceived { EscalationKeepsInv(m, w); }
  }

  lemma {:induction false} EscalationKeepsInv(m: Monitor, w: Wake)
    requires Inv(m) && !m.stopped && !w.revoked && !w.heartbeatReceived && Possible(w, m.status)
    ensures Inv(Next(m, w))
  {
    var e := Escalated(m, w);
    var n := |m.alerts|;
    assert n > 0 ==> AlertAt(m.alerts, n - 1);
    assert e.alerts == m.alerts + [e.alerts[n]] && AlertAt(e.alerts, n);
    AlertsSnoc(m.alerts, e.alerts[n]);
  }

  lemma {:induction false} AlertsSnoc(alerts: seq<Alert>, a: Alert)
    requires forall k :: 0 <= k < |alerts| ==> AlertAt(alerts, k)
    requires AlertAt(alerts + [a], |alerts|)
    ensures forall k :: 0 <= k < |alerts| + 1 ==> AlertAt(alerts + [a], k)
  {
    forall k | 0 <= k < |alerts| ensures AlertAt(alerts + [a], k) { assert AlertAt(alerts, k); }
  }

  lemma {:induction false} RunKeepsInv(wakes: seq<Wake>)
    requires IsRun(wakes)
    ensures Inv(Exec(wakes))
  {
    if wakes != [] {
      var n := |wakes| - 1;
      PrefixIsRun(wakes);
      RunKeepsInv(wakes[..n]);
      StepKeepsInv(Exec(wakes[..n]), wakes[n]);
    }
  }

  lemma {:induction false} PrefixIsRun(wakes: seq<Wake>)
    requires IsRun(wakes) && wakes != []
    ensures IsRun(wakes[..|wakes| - 1])
  {
    var init := wakes[..|wakes| - 1];
    forall k | 0 <= k < |init| ensures Possible(init[k], Exec(init[..k]).status) {
      assert init[..k] == wakes[..k];
    }
  }

  /** The loop head only ever sees healthy or warning. */
  lemma {:induction false} HeadIsHealthyOrWarning(wakes: seq<Wake>)
    requires IsRun(wakes) && !Exec(wakes).stopped
    ensures Exec(wakes).status == Healthy || Exec(wakes).status == Warning
  {
    RunKeepsInv(wakes);
  }

  /** A critical alert comes directly after a warning of the same outage, at least twenty minutes
      later, and at least thirty minutes after the last reset that the loop observed. */
  lemma {:induction false} CriticalFollowsWarning(wakes: seq<Wake>, k: nat)
    requires IsRun(wakes) && k < |Exec(wakes).alerts| && Exec(wakes).alerts[k].severity == Critical
    ensures var alerts := Exec(wakes).alerts;
            && k > 0 && alerts[k - 1].severity == Warning && alerts[k - 1].outage == alerts[k].outage
            && alerts[k].at >= alerts[k - 1].at + 20 * MINUTE
            && alerts[k].at >= alerts[k].since + 30 * MINUTE
  {
    RunKeepsInv(wakes);
    assert AlertAt(Exec(wakes).alerts, k);
  }

  lemma {:induction false} OutagesGrow(wakes: seq<Wake>, j: nat, k: nat)
    requires IsRun(wakes) && j < k < |Exec(wakes).alerts|
    ensures Exec(wakes).alerts[j].outage <= Exec(wakes).alerts[k].outage
    ensures Exec(wakes).alerts[k].severity == Warning ==> Exec(wakes).alerts[j].outage < Exec(wakes).alerts[k].outage
    ensures k > j + 1 ==> Exec(wakes).alerts[j].outage < Exec(wakes).alerts[k].outage
    decreases k
  {
    RunKeepsInv(wakes);
    var alerts := Exec(wakes).alerts;
    assert AlertAt(alerts, k) && AlertAt(alerts, k - 1);
    if j < k - 1 { OutagesGrow(wakes, j, k - 1); }
  }

  /** An outage is reported by one warning and at most one critical, next to each other. */
  lemma {:induction false} OneEscalationPerOutage(wakes: seq<Wake>, j: nat, k: nat)
    requires IsRun(wakes) && j < k < |Exec(wakes).alerts|
    requires Exec(wakes).alerts[j].outage == Exec(wakes).alerts[k].outage
    ensures k == j + 1
    ensures Exec(wakes).alerts[j].severity == Warning && Exec(wakes).alerts[k].severity == Critical
  {
    OutagesGrow(wakes, j, k);
    RunKeepsInv(wakes);
    assert AlertAt(Exec(wakes).alerts, k);
  }

  /** While the loop observes a heartbeat in every pass, nobody is alerted. */
  lemma {:induction false} HeartbeatsKeepQuiet(wakes: seq<Wake>)
    requires forall k :: 0 <= k < |wakes| ==> wakes[k].heartbeatReceived
    ensures Exec(wakes).alerts == []
  {
    if wakes != [] { HeartbeatsKeepQuiet(wakes[..|wakes| - 1]); }
  }

  // ---- what a pass does ----

  /** A pass in which only the timer has fired takes ten minutes in healthy and twenty in warning. */
  lemma {:induction false} TimerAloneMeans(w: Wake, status: Status)
    requires w.timerFired && !w.heartbeatReceived && !w.revoked
    ensures Possible(w, status) <==> w.waited >= if status == Healthy then 10 * 60 * 1000 else 20 * 60 * 1000
  {
  }

  /** A missed heartbeat alerts: a warning at first, a critical if the loop is in warning. After the
      critical the loop starts over as healthy, unless it has been revoked meanwhile. */
  lemma {:induction false} MissedHeartbeatAlerts(wakes: seq<Wake>, w: Wake)
    requires IsRun(wakes) && !Exec(wakes).stopped && !w.revoked && !w.heartbeatReceived
    ensures var m := Exec(wakes);
            var m' := Next(m, w);
            && |m'.alerts| == |m.alerts| + 1 && m'.alerts[..|m.alerts|] == m.alerts
            && (var a := m'.alerts[|m.alerts|];
                && a.severity == (if m.status == Warning then Critical else Warning)
                && a.at == m.now + w.waited + w.updating && a.outage == m.outage && a.since == m.since
                && m'.now == a.at + w.alerting + if m.status == Warning then w.held else 0)
            && (m.status == Healthy ==> m'.status == Warning && !m'.stopped && m'.outage == m.outage)
            && (m.status == Warning ==> (m'.stopped <==> w.revokedMeanwhile))
            && (m.status == Warning && !m'.stopped ==>
                  m'.status == Healthy && m'.outage == m.outage + 1 && m'.since == m'.now)
  {
    HeadIsHealthyOrWarning(wakes);
  }

  /** An observed heartbeat makes the loop healthy and begins a new stretch, and alerts nobody. */
  lemma {:induction false} HeartbeatResets(m: Monitor, w: Wake)
    requires !m.stopped && !w.revoked && w.heartbeatReceived
    ensures var m' := Next(m, w);
            && m'.status == Healthy && m'.outage == m.outage + 1 && m'.since == m.now + w.waited
            && m'.alerts == m.alerts && !m'.stopped && m'.now == m'.since + w.updating
  {
  }

  /** The pass k is made, and the revocation is up when it reads the flags, or at the end of its wait
      in critical. */
  predicate RevokedAt(wakes: seq<Wake>, k: nat)
    requires k < |wakes|
  {
    var m, w := Exec(wakes[..k]), wakes[k];
    !m.stopped && (w.revoked || (!w.heartbeatReceived && m.status == Warning && w.revokedMeanwhile))
  }

  lemma {:induction false} RevokedEarlier(before: seq<Wake>, w: Wake, k: nat)
    requires k < |before|
    ensures RevokedAt(before + [w], k) <==> RevokedAt(before, k)
  {
    assert (before + [w])[..k] == before[..k];
  }

  lemma {:induction false} RevokedNow(before: seq<Wake>, w: Wake)
    requires IsRun(before)
    ensures Exec(before + [w]).stopped <==> Exec(before).stopped || RevokedAt(before + [w], |before|)
  {
    assert (before + [w])[..|before|] == before;
    StopsNow(before, w);
  }

  ghost predicate SomeRevokedAt(wakes: seq<Wake>) {
    exists k :: 0 <= k < |wakes| && RevokedAt(wakes, k)
  }

  lemma {:induction false} SomeRevokedSnoc(before: seq<Wake>, w: Wake)
    ensures SomeRevokedAt(before + [w]) <==> SomeRevokedAt(before) || RevokedAt(before + [w], |before|)
  {
    forall k | 0 <= k < |before| ensures RevokedAt(before + [w], k) <==> RevokedAt(before, k) {
      RevokedEarlier(before, w, k);
    }
    if k :| 0 <= k < |before| && RevokedAt(before, k) { assert RevokedAt(before + [w], k); }
  }

  /** The loop ends exactly when it reads a revocation. */
  lemma {:induction false} StopsIffRevoked(wakes: seq<Wake>)
    requires IsRun(wakes)
    ensures Exec(wakes).stopped <==> SomeRevokedAt(wakes)
  {
    if wakes != [] {
      var before, w := wakes[..|wakes| - 1], wakes[|wakes| - 1];
      assert wakes == before + [w];
      PrefixIsRun(wakes);
      StopsIffRevoked(before);
      RevokedNow(before, w);
      SomeRevokedSnoc(before, w);
    }
  }

  lemma {:induction false} StopsNow(before: seq<Wake>, w: Wake)
    requires IsRun(before)
    ensures var m := Exec(before);
            Next(m, w).stopped <==> m.stopped || w.revoked
                                    || (!w.heartbeatReceived && m.status == Warning && w.revokedMeanwhile)
    ensures Exec(before).stopped ==> Next(Exec(before), w) == Exec(before)
  {
    if !Exec(before).stopped { HeadIsHealthyOrWarning(before); }
  }

  /** After its end the loop alerts nobody and changes nothing. */
  lemma {:induction false} StoppedForGood(wakes: seq<Wake>, more: seq<Wake>)
    requires Exec(wakes).stopped
    ensures Exec(wakes + more) == Exec(wakes)
    decreases |more|
  {
    if more == [] {
      assert wakes + more == wakes;
    } else {
      StoppedForGood(wakes, more[..|more| - 1]);
      assert (wakes + more)[..|wakes + more| - 1] == wakes + more[..|more| - 1];
    }
  }

  /** A warning comes at least ten minutes after the last reset that the loop observed. */
  lemma {:induction false} WarningAfterTenMinutes(wakes: seq<Wake>, k: nat)
    requires IsRun(wakes) && k < |Exec(wakes).alerts| && Exec(wakes).alerts[k].severity == Warning
    ensures Exec(wakes).alerts[k].at >= Exec(wakes).alerts[k].since + 10 * 60 * 1000
  {
    RunKeepsInv(wakes);
    assert AlertAt(Exec(wakes).alerts, k);
  }
}
