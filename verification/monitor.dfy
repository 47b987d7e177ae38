/**
 * The uptime monitor: a small state machine over the `lastStatus` record,
 * advanced by one health check at a time. A reachable server resets the
 * record (with a recovery alert after an outage); an unreachable one counts
 * a retry, and from the MAX_RETRIES-th consecutive failure on marks the
 * server offline and sends a down alert, unless one was already delivered.
 *
 * Times are integers; whether the server answered and whether an alert
 * reached the channel are parameters. Alert attempts are recorded in order.
 */
module Monitor {
  import opened Wrappers

  /** MAX_RETRIES when the environment does not set it. */
  const DEFAULT_MAX_RETRIES: int := 3

  datatype AlertKind = Recovery | Down

  /** One call of `sendDiscordAlert`, and whether the message reached the channel. */
  datatype AlertAttempt = AlertAttempt(kind: AlertKind, delivered: bool)

  datatype MonitorState = MonitorState(
    online: bool,
    lastChecked: Option<int>,
    lastOnline: Option<int>,
    lastOffline: Option<int>,
    retryCount: nat,
    notified: bool,
    alerts: seq<AlertAttempt>)

  /** The record before any check. */
  function Initial(): MonitorState
  {
    MonitorState(false, None, None, None, 0, false, [])
  }

  /** `sendDiscordAlert`: the attempt is recorded; `notified` is set only by a delivered message. */
  function Alert(s: MonitorState, kind: AlertKind, delivered: bool): (r: MonitorState)
    ensures r.notified == (s.notified || delivered)
  {
    s.(notified := s.notified || delivered, alerts := s.alerts + [AlertAttempt(kind, delivered)])
  }

  /** `handleServerDown` at now. */
  function ServerDown(s: MonitorState, now: int, delivered: bool, maxRetries: int): MonitorState
  {
    var s1 := s.(retryCount := s.retryCount + 1);
    if s1.retryCount >= maxRetries && (s1.online || !s1.notified) then
      Alert(s1.(online := false, lastOffline := Some(now)), Down, delivered)
    else s1
  }

  /** `checkServerStatus` at now; reachable is whether the server answered with a 2xx status. */
  function Check(s: MonitorState, now: int, reachable: bool, delivered: bool, maxRetries: int): MonitorState
  {
    var s1 := s.(lastChecked := Some(now));
    if reachable then
      var s2 := if !s1.online && s1.lastOffline.Some? then Alert(s1, Recovery, delivered) else s1;
      s2.(online := true, lastOnline := Some(now), retryCount := 0, notified := false)
    else ServerDown(s1, now, delivered, maxRetries)
  }

  /** The module-level `lastStatus` record and the alerts sent so far. */
  class StatusMonitor {
    var online: bool
    var lastChecked: Option<int>
    var lastOnline: Option<int>
    var lastOffline: Option<int>
    var retryCount: nat
    var notified: bool
    var alerts: seq<AlertAttempt>
    const maxRetries: int

    function State(): MonitorState
      reads this
    {
      MonitorState(online, lastChecked, lastOnline, lastOffline, retryCount, notified, alerts)
    }

    constructor (maxRetries: int)
      ensures State() == Initial() && this.maxRetries == maxRetries
    {
      online := false;
      lastChecked := None;
      lastOnline := None;
      lastOffline := None;
      retryCount := 0;
      notified := false;
      alerts := [];
      this.maxRetries := maxRetries;
    }

    method SendDiscordAlert(kind: AlertKind, delivered: bool)
      modifies this
      ensures State() == Alert(old(State()), kind, delivered)
    {
      alerts := alerts + [AlertAttempt(kind, delivered)];
      if delivered {
        notified := true;
      }
    }

    method HandleServerDown(now: int, delivered: bool)
      modifies this
      ensures State() == ServerDown(old(State()), now, delivered, maxRetries)
    {
      retryCount := retryCount + 1;
      if retryCount >= maxRetries {
        if online || !notified {
          online := false;
          lastOffline := Some(now);
          SendDiscordAlert(Down, delivered);
        }
      }
    }

    method CheckServerStatus(now: int, reachable: bool, delivered: bool)
      modifies this
      ensures State() == Check(old(State()), now, reachable, delivered, maxRetries)
    {
      lastChecked := Some(now);
      if reachable {
        if !online && lastOffline.Some? {
          SendDiscordAlert(Recovery, delivered);
        }
        online := true;
        lastOnline := Some(now);
        retryCount := 0;
        notified := false;
      } else {
        HandleServerDown(now, delivered);
      }
    }
  }

  // ---------------------------------------------------------------------------
  // One check

  /** A successful check marks the server online with no retries and no pending notice. */
  lemma CheckSuccess(s: MonitorState, now: int, delivered: bool, maxRetries: int)
    ensures var r := Check(s, now, true, delivered, maxRetries);
      && r.online && r.retryCount == 0 && !r.notified
      && r.lastOnline == Some(now) && r.lastChecked == Some(now) && r.lastOffline == s.lastOffline
  {
  }

  /** A recovery alert is attempted exactly when the server was offline after a recorded outage. */
  lemma RecoveryAlert(s: MonitorState, now: int, delivered: bool, maxRetries: int)
    ensures var r := Check(s, now, true, delivered, maxRetries);
      && (!s.online && s.lastOffline.Some? ==> r.alerts == s.alerts + [AlertAttempt(Recovery, delivered)])
      && (s.online || s.lastOffline.None? ==> r.alerts == s.alerts)
  {
  }

  /** Every failed check adds exactly one retry. */
  lemma FailureCounts(s: MonitorState, now: int, delivered: bool, maxRetries: int)
    ensures Check(s, now, false, delivered, maxRetries).retryCount == s.retryCount + 1
  {
  }

  /** Below the threshold a failure changes nothing but the retry count and the check time. */
  lemma BelowThresholdQuiet(s: MonitorState, now: int, delivered: bool, maxRetries: int)
    requires s.retryCount + 1 < maxRetries
    ensures Check(s, now, false, delivered, maxRetries) == s.(lastChecked := Some(now), retryCount := s.retryCount + 1)
  {
  }

  /**
   * At or above the threshold a failure goes down, records the outage and
   * attempts a down alert exactly when the server was online or no alert has
   * been delivered; otherwise it only counts.
   */
  lemma DownTransition(s: MonitorState, now: int, delivered: bool, maxRetries: int)
    requires s.retryCount + 1 >= maxRetries
    ensures var r := Check(s, now, false, delivered, maxRetries);
      && (s.online || !s.notified ==>
            && !r.online && r.lastOffline == Some(now)
            && r.alerts == s.alerts + [AlertAttempt(Down, delivered)]
            && r.notified == (s.notified || delivered))
      && (!s.online && s.notified ==> r == s.(lastChecked := Some(now), retryCount := s.retryCount + 1))
  {
  }

  /** `notified` turns true only through a delivered alert. */
  lemma NotifiedOnlyByDelivery(s: MonitorState, now: int, reachable: bool, maxRetries: int)
    ensures Check(s, now, reachable, false, maxRetries).notified ==> s.notified && !reachable
  {
  }

  // ---------------------------------------------------------------------------
  // Runs of checks

  /** One health check: its time, whether the server answered, whether an alert would be delivered. */
  datatype Probe = Probe(now: int, reachable: bool, delivered: bool)

  function Run(s: MonitorState, probes: seq<Probe>, maxRetries: int): MonitorState
    decreases probes
  {
    if probes == [] then s
    else Run(Check(s, probes[0].now, probes[0].reachable, probes[0].delivered, maxRetries), probes[1..], maxRetries)
  }

  predicate AllFail(probes: seq<Probe>)
  {
    forall k :: 0 <= k < |probes| ==> !probes[k].reachable
  }

  /** Once a down alert has been delivered, further failures send nothing more. */
  lemma {:induction false} NoRealert(s: MonitorState, probes: seq<Probe>, maxRetries: int)
    requires !s.online && s.notified && AllFail(probes)
    ensures Run(s, probes, maxRetries).alerts == s.alerts
    ensures !Run(s, probes, maxRetries).online && Run(s, probes, maxRetries).notified
    ensures Run(s, probes, maxRetries).retryCount == s.retryCount + |probes|
    decreases probes
  {
    if probes != [] {
      var p := probes[0];
      var s1 := Check(s, p.now, false, p.delivered, maxRetries);
      assert AllFail(probes[1..]) by {
        forall k | 0 <= k < |probes[1..]| ensures !probes[1..][k].reachable {
          assert probes[1..][k] == probes[k + 1];
        }
      }
      NoRealert(s1, probes[1..], maxRetries);
    }
  }

  /** Failures that stay below the threshold leave the server online and send nothing. */
  lemma {:induction false} FailuresBelowThreshold(s: MonitorState, probes: seq<Probe>, maxRetries: int)
    requires AllFail(probes) && s.retryCount + |probes| < maxRetries
    ensures var r := Run(s, probes, maxRetries);
      && r.online == s.online && r.alerts == s.alerts && r.notified == s.notified && r.lastOffline == s.lastOffline
      && r.retryCount == s.retryCount + |probes|
    decreases probes
  {
    if probes != [] {
      var p := probes[0];
      var s1 := Check(s, p.now, false, p.delivered, maxRetries);
      assert AllFail(probes[1..]) by {
        forall k | 0 <= k < |probes[1..]| ensures !probes[1..][k].reachable {
          assert probes[1..][k] == probes[k + 1];
        }
      }
      FailuresBelowThreshold(s1, probes[1..], maxRetries);
    }
  }

  /**
   * While the server is marked online no alert is pending and the retries are
   * below the threshold; with a positive threshold every check keeps this.
   */
  predicate Consistent(s: MonitorState, maxRetries: int)
  {
    s.online ==> !s.notified && s.retryCount < maxRetries
  }

  lemma {:induction false} ConsistentRun(s: MonitorState, probes: seq<Probe>, maxRetries: int)
    requires maxRetries >= 1 && Consistent(s, maxRetries)
    ensures Consistent(Run(s, probes, maxRetries), maxRetries)
    decreases probes
  {
    if probes != [] {
      var p := probes[0];
      ConsistentRun(Check(s, p.now, p.reachable, p.delivered, maxRetries), probes[1..], maxRetries);
    }
  }

  /**
   * From a freshly reset online server, MAX_RETRIES consecutive failures end
   * with the server offline and exactly one down alert attempted, at the last
   * of them.
   */
  lemma ThresholdAlert(s: MonitorState, probes: seq<Probe>, maxRetries: int)
    requires s.online && s.retryCount == 0 && maxRetries >= 1
    requires AllFail(probes) && |probes| == maxRetries
    ensures var r := Run(s, probes, maxRetries);
      && !r.online && r.retryCount == maxRetries
      && r.alerts == s.alerts + [AlertAttempt(Down, probes[|probes| - 1].delivered)]
      && r.lastOffline == Some(probes[|probes| - 1].now)
  {
    var n := |probes| - 1;
    FailuresBelowThreshold(s, probes[..n], maxRetries);
    RunAppend(s, probes[..n], probes[n..], maxRetries);
    assert probes[..n] + probes[n..] == probes;
    var s1 := Run(s, probes[..n], maxRetries);
    assert probes[n..] == [probes[n]];
    assert Run(s1, [probes[n]], maxRetries) == Check(s1, probes[n].now, false, probes[n].delivered, maxRetries);
  }

  /**
   * With MAX_RETRIES unset, a server marked online survives two failed checks
   * in a row without an alert, and the third marks it down with one alert.
   */
  lemma DefaultThreshold(s: MonitorState, probes: seq<Probe>)
    requires s.online && s.retryCount == 0
    requires AllFail(probes) && |probes| == 3
    ensures var r2 := Run(s, probes[..2], DEFAULT_MAX_RETRIES);
      r2.online && r2.alerts == s.alerts && r2.retryCount == 2
    ensures var r3 := Run(s, probes, DEFAULT_MAX_RETRIES);
      !r3.online && r3.alerts == s.alerts + [AlertAttempt(Down, probes[2].delivered)]
  {
    assert AllFail(probes[..2]) by {
      forall k | 0 <= k < 2 ensures !probes[..2][k].reachable {
        assert probes[..2][k] == probes[k];
      }
    }
    FailuresBelowThreshold(s, probes[..2], DEFAULT_MAX_RETRIES);
    ThresholdAlert(s, probes, DEFAULT_MAX_RETRIES);
  }

  /** One check appends at most one alert, and sets `notified` only through a delivered one. */
  lemma CheckAlerts(s: MonitorState, now: int, reachable: bool, delivered: bool, maxRetries: int)
    ensures var s1 := Check(s, now, reachable, delivered, maxRetries);
      && s.alerts <= s1.alerts && |s1.alerts| <= |s.alerts| + 1
      && (s1.notified ==> s.notified || (|s1.alerts| == |s.alerts| + 1 && s1.alerts[|s.alerts|].delivered))
  {
  }

  /**
   * Across any run of checks the alert log only grows, and `notified` holds at
   * the end only if it held at the start or an alert sent during the run was
   * delivered.
   */
  lemma {:induction false} NotifiedRun(s: MonitorState, probes: seq<Probe>, maxRetries: int)
    ensures var r := Run(s, probes, maxRetries);
      && s.alerts <= r.alerts
      && (r.notified ==> s.notified || exists k :: |s.alerts| <= k < |r.alerts| && r.alerts[k].delivered)
    decreases probes
  {
    if probes != [] {
      var p := probes[0];
      var s1 := Check(s, p.now, p.reachable, p.delivered, maxRetries);
      CheckAlerts(s, p.now, p.reachable, p.delivered, maxRetries);
      NotifiedRun(s1, probes[1..], maxRetries);
      var r := Run(s, probes, maxRetries);
      assert r == Run(s1, probes[1..], maxRetries);
      if r.notified && !s.notified {
        if s1.notified {
          var k := |s.alerts|;
          assert r.alerts[k] == s1.alerts[k];
          assert |s.alerts| <= k < |r.alerts| && r.alerts[k].delivered;
        } else {
          var k :| |s1.alerts| <= k < |r.alerts| && r.alerts[k].delivered;
          assert |s.alerts| <= k < |r.alerts|;
        }
      }
    }
  }

  /** Running two batches of checks is running them one after the other. */
  lemma {:induction false} RunAppend(s: MonitorState, a: seq<Probe>, b: seq<Probe>, maxRetries: int)
    ensures Run(s, a + b, maxRetries) == Run(Run(s, a, maxRetries), b, maxRetries)
    decreases a
  {
    if a != [] {
      assert (a + b)[0] == a[0];
      assert (a + b)[1..] == a[1..] + b;
      RunAppend(Check(s, a[0].now, a[0].reachable, a[0].delivered, maxRetries), a[1..], b, maxRetries);
    } else {
      assert a + b == b;
    }
  }
}
