/** One monitoring tick of the enhanced monitor (`check_apps_cpu`): the chain
    of rules applied to each enabled app, as a function of the app record, what
    the OS shows at that moment and the settings. */
module Tracker {
  import opened Os
  import opened Records
  import opened Sampling
  import opened Restart

  /** Which rule of the chain applied to an app in a tick. */
  datatype Decision =
    | Skipped               // disabled app
    | TerminationDetected   // zero processes, auto-restart on: restart_terminated_app ran
    | AlreadyTerminated     // zero processes, auto-restart on, status already "Terminated"
    | TimerStarted          // over threshold, no timer yet
    | TimerRunning          // over threshold, duration not yet reached
    | RestartIssued         // over threshold for the duration: restart_app ran
    | TimerCleared          // at or below threshold with a timer set
    | Recovered             // back to "Active"
    | NoChange              // none of the above

  /** What the OS answers and what `time.time()` returns while one app is
      evaluated. */
  datatype Observation = Observation(os: Oracle, now: real)

  datatype StepResult = StepResult(app: App, decision: Decision)

  /** The rules `check_apps_cpu` applies to one app. */
  function Step(a: App, ob: Observation, cfg: Settings): StepResult
  {
    if !a.enabled then StepResult(a, Skipped)
    else
      var s := SampleApp(ob.os, a.name, cfg.gpuFilterFactor);
      var b := a.(lastCpu := s.cpu);
      if s.count == 0 && cfg.autoRestartEnabled then
        if b.status != Terminated then
          StepResult(TerminationRestart(ob.os, b.(status := Terminated)), TerminationDetected)
        else
          StepResult(b, AlreadyTerminated)
      else if s.cpu > cfg.cpuThreshold then
        match b.thresholdExceededTime
        case None => StepResult(b.(thresholdExceededTime := Some(ob.now)), TimerStarted)
        case Some(t) =>
          if ob.now - t >= cfg.cpuThresholdDuration then
            StepResult(OverloadRestart(ob.os, b, cfg.startupDelay).(thresholdExceededTime := None), RestartIssued)
          else
            StepResult(b, TimerRunning)
      else if b.thresholdExceededTime.Some? then
        StepResult(b.(thresholdExceededTime := None), TimerCleared)
      else if s.count > 0 && (b.status == Terminated || b.status == Restarting) then
        StepResult(b.(status := Active), Recovered)
      else
        StepResult(b, NoChange)
  }

  /** A whole tick: every app in list order, each with its own observation. */
  function Tick(apps: seq<App>, obs: seq<Observation>, cfg: Settings): (rs: seq<StepResult>)
    requires |obs| == |apps|
    ensures |rs| == |apps|
  {
    seq(|apps|, i requires 0 <= i < |apps| => Step(apps[i], obs[i], cfg))
  }

  function TickApps(apps: seq<App>, obs: seq<Observation>, cfg: Settings): (r: seq<App>)
    requires |obs| == |apps|
    ensures |r| == |apps|
  {
    var rs := Tick(apps, obs, cfg);
    seq(|rs|, i requires 0 <= i < |rs| => rs[i].app)
  }

  /** The sample the tick takes for an app at an observation. */
  function SampleAt(a: App, ob: Observation, cfg: Settings): Sample
  {
    SampleApp(ob.os, a.name, cfg.gpuFilterFactor)
  }

  /** The termination rule does not apply. */
  predicate NotTerminationCase(a: App, ob: Observation, cfg: Settings)
  {
    !(SampleAt(a, ob, cfg).count == 0 && cfg.autoRestartEnabled)
  }

  /** The rule chain never renames an app, never toggles it, and a step only
      touches an enabled app. */
  lemma StepKeepsIdentity(a: App, ob: Observation, cfg: Settings)
    ensures var r := Step(a, ob, cfg);
      && r.app.name == a.name && r.app.processName == a.processName && r.app.enabled == a.enabled
      && (r.decision == Skipped <==> !a.enabled)
      && (!a.enabled ==> r.app == a)
  {
  }

  /** First over-threshold tick: the timer starts at `now`, nothing restarts and
      no field but the sample and the timer changes. */
  lemma FirstBreachStartsTimer(a: App, ob: Observation, cfg: Settings)
    requires a.enabled && a.thresholdExceededTime.None?
    requires NotTerminationCase(a, ob, cfg)
    requires SampleAt(a, ob, cfg).cpu > cfg.cpuThreshold
    ensures Step(a, ob, cfg).decision == TimerStarted
    ensures Step(a, ob, cfg).app
         == a.(lastCpu := SampleAt(a, ob, cfg).cpu, thresholdExceededTime := Some(ob.now))
  {
  }

  /** A restart is issued exactly when the app is enabled, the termination rule
      does not apply, the CPU is over the threshold and a timer already set has
      run for at least the duration; the app is then what `restart_app` leaves,
      with the timer cleared. */
  lemma RestartIssuedIff(a: App, ob: Observation, cfg: Settings)
    ensures var r := Step(a, ob, cfg);
      r.decision == RestartIssued
      <==> (a.enabled && NotTerminationCase(a, ob, cfg)
            && SampleAt(a, ob, cfg).cpu > cfg.cpuThreshold
            && a.thresholdExceededTime.Some?
            && ob.now - a.thresholdExceededTime.value >= cfg.cpuThresholdDuration)
    ensures var r := Step(a, ob, cfg);
      r.decision == RestartIssued ==>
        r.app == OverloadRestart(ob.os, a.(lastCpu := SampleAt(a, ob, cfg).cpu), cfg.startupDelay)
                   .(thresholdExceededTime := None)
  {
  }

  /** Consequently a restart needs a timer set by an earlier tick: a tick that
      starts without one never restarts, even with a zero duration. */
  lemma NoRestartWithoutTimer(a: App, ob: Observation, cfg: Settings)
    requires a.thresholdExceededTime.None?
    ensures Step(a, ob, cfg).decision != RestartIssued
    ensures Step(a, ob, cfg).app.restartCount == a.restartCount
         || Step(a, ob, cfg).decision == TerminationDetected
  {
    RestartIssuedIff(a, ob, cfg);
  }

  /** Over threshold with a timer that has not run long enough: the timer and
      every other field but the sample stay, nothing restarts. */
  lemma NotYetDue(a: App, ob: Observation, cfg: Settings)
    requires a.enabled && NotTerminationCase(a, ob, cfg)
    requires SampleAt(a, ob, cfg).cpu > cfg.cpuThreshold
    requires a.thresholdExceededTime.Some?
    requires ob.now - a.thresholdExceededTime.value < cfg.cpuThresholdDuration
    ensures Step(a, ob, cfg) == StepResult(a.(lastCpu := SampleAt(a, ob, cfg).cpu), TimerRunning)
  {
  }

  /** At or below the threshold with a timer set: the timer is cleared and the
      status is left as it was, even a "Terminated" or "Restarting" one. */
  lemma NormalizeClearsTimerOnly(a: App, ob: Observation, cfg: Settings)
    requires a.enabled && NotTerminationCase(a, ob, cfg)
    requires SampleAt(a, ob, cfg).cpu <= cfg.cpuThreshold
    requires a.thresholdExceededTime.Some?
    ensures Step(a, ob, cfg)
         == StepResult(a.(lastCpu := SampleAt(a, ob, cfg).cpu, thresholdExceededTime := None), TimerCleared)
  {
  }

  /** The status returns to "Active" exactly when the app is enabled, outside
      the termination rule, at or below the threshold, with no timer, at least
      one process, and was "Terminated" or "Restarting". */
  lemma RecoveredIff(a: App, ob: Observation, cfg: Settings)
    ensures var r := Step(a, ob, cfg);
      r.decision == Recovered
      <==> (a.enabled && NotTerminationCase(a, ob, cfg)
            && SampleAt(a, ob, cfg).cpu <= cfg.cpuThreshold
            && a.thresholdExceededTime.None?
            && SampleAt(a, ob, cfg).count > 0
            && (a.status == Terminated || a.status == Restarting))
    ensures var r := Step(a, ob, cfg);
      r.decision == Recovered ==> r.app == a.(lastCpu := SampleAt(a, ob, cfg).cpu, status := Active)
  {
  }

  /** Zero processes with auto-restart on and a status other than "Terminated":
      `restart_terminated_app` runs and the status ends "Auto-Restarted" (count
      up by one) or "Auto-Restart Failed" (count unchanged), never "Terminated";
      the threshold timer is not touched. */
  lemma TerminationRestarts(a: App, ob: Observation, cfg: Settings)
    requires a.enabled && cfg.autoRestartEnabled
    requires SampleAt(a, ob, cfg).count == 0
    requires a.status != Terminated
    ensures var r := Step(a, ob, cfg);
      && r.decision == TerminationDetected
      && (r.app.status == AutoRestarted || r.app.status == AutoRestartFailed)
      && (r.app.status == AutoRestarted <==> r.app.restartCount == a.restartCount + 1)
      && (r.app.status == AutoRestartFailed <==> r.app.restartCount == a.restartCount)
      && r.app.thresholdExceededTime == a.thresholdExceededTime
  {
    var b := a.(lastCpu := SampleAt(a, ob, cfg).cpu, status := Terminated);
    TerminationOutcome(ob.os, b);
  }

  /** No tick ever moves an app into "Terminated": the termination rule
      overwrites that status before the tick ends. */
  lemma NeverEntersTerminated(a: App, ob: Observation, cfg: Settings)
    requires a.status != Terminated
    ensures Step(a, ob, cfg).app.status != Terminated
  {
  }

  /** With auto-restart off the termination rule never applies: no auto-restart
      is attempted and the status never becomes "Terminated". */
  lemma NoAutoRestartNoTermination(a: App, ob: Observation, cfg: Settings)
    requires !cfg.autoRestartEnabled
    ensures Step(a, ob, cfg).decision != TerminationDetected
    ensures Step(a, ob, cfg).decision != AlreadyTerminated
    ensures a.status != Terminated ==> Step(a, ob, cfg).app.status != Terminated
  {
  }

  /** The restart count never falls, rises by at most one per tick, and rises
      only on the two restart rules. */
  lemma RestartCountStep(a: App, ob: Observation, cfg: Settings)
    ensures var r := Step(a, ob, cfg);
      && (r.app.restartCount == a.restartCount || r.app.restartCount == a.restartCount + 1)
      && (r.app.restartCount == a.restartCount + 1 ==>
            r.decision == TerminationDetected || r.decision == RestartIssued)
  {
    var s := SampleAt(a, ob, cfg);
    var b := a.(lastCpu := s.cpu);
    OverloadCount(ob.os, b, cfg.startupDelay);
  }

  /** Two consecutive zero-process ticks with auto-restart on each run the
      auto-restart: the guard on "Terminated" never holds, because the first
      auto-restart already replaced that status. */
  lemma ZeroTicksRetriggerAutoRestart(a: App, ob1: Observation, ob2: Observation, cfg: Settings)
    requires a.enabled && cfg.autoRestartEnabled && a.status != Terminated
    requires SampleAt(a, ob1, cfg).count == 0 && SampleAt(a, ob2, cfg).count == 0
    ensures Step(a, ob1, cfg).decision == TerminationDetected
    ensures Step(Step(a, ob1, cfg).app, ob2, cfg).decision == TerminationDetected
  {
    var r1 := Step(a, ob1, cfg);
    NeverEntersTerminated(a, ob1, cfg);
    StepKeepsIdentity(a, ob1, cfg);
    assert SampleAt(r1.app, ob2, cfg) == SampleAt(a, ob2, cfg);
  }

  /** A run of successive ticks of one app. */
  datatype Run = Run(app: App, decisions: seq<Decision>)

  function RunTicks(a: App, obs: seq<Observation>, cfg: Settings): (r: Run)
    ensures |r.decisions| == |obs|
    decreases |obs|
  {
    if obs == [] then Run(a, [])
    else
      var s := Step(a, obs[0], cfg);
      var rest := RunTicks(s.app, obs[1..], cfg);
      Run(rest.app, [s.decision] + rest.decisions)
  }

  /** The app has at least one process and is over the threshold. */
  predicate Overloaded(name: string, ob: Observation, cfg: Settings)
  {
    var s := SampleApp(ob.os, name, cfg.gpuFilterFactor);
    s.count > 0 && s.cpu > cfg.cpuThreshold
  }

  function Repeat(d: Decision, n: nat): (r: seq<Decision>)
    ensures |r| == n && forall i :: 0 <= i < n ==> r[i] == d
  {
    if n == 0 then [] else [d] + Repeat(d, n - 1)
  }

  lemma {:induction false} WaitThenFire(a: App, obs: seq<Observation>, cfg: Settings, t0: real)
    requires a.enabled && a.thresholdExceededTime == Some(t0)
    requires |obs| >= 1
    requires forall k :: 0 <= k < |obs| ==> Overloaded(a.name, obs[k], cfg)
    requires forall k :: 0 <= k < |obs| - 1 ==> obs[k].now - t0 < cfg.cpuThresholdDuration
    requires obs[|obs| - 1].now - t0 >= cfg.cpuThresholdDuration
    ensures RunTicks(a, obs, cfg).decisions == Repeat(TimerRunning, |obs| - 1) + [RestartIssued]
    ensures RunTicks(a, obs, cfg).app.thresholdExceededTime.None?
    decreases |obs|
  {
    var s := Step(a, obs[0], cfg);
    assert Overloaded(a.name, obs[0], cfg);
    if |obs| == 1 {
      assert s.decision == RestartIssued;
    } else {
      assert obs[0].now - t0 < cfg.cpuThresholdDuration;
      assert s.decision == TimerRunning;
      assert s.app.thresholdExceededTime == Some(t0);
      var rest := obs[1..];
      forall k | 0 <= k < |rest| ensures Overloaded(s.app.name, rest[k], cfg) {
        assert rest[k] == obs[k + 1];
      }
      forall k | 0 <= k < |rest| - 1 ensures rest[k].now - t0 < cfg.cpuThresholdDuration {
        assert rest[k] == obs[k + 1];
      }
      WaitThenFire(s.app, rest, cfg, t0);
      assert [TimerRunning] + Repeat(TimerRunning, |rest| - 1) == Repeat(TimerRunning, |obs| - 1);
    }
  }

  /** Debouncing: holding an enabled app over the threshold from a tick with no
      timer gives exactly one restart, on the first tick at which the
      duration measured from the first tick is reached; every tick in between
      only waits, and the timer is clear after the restart. */
  lemma SustainedBreachRestartsOnce(a: App, obs: seq<Observation>, cfg: Settings)
    requires a.enabled && a.thresholdExceededTime.None?
    requires |obs| >= 2
    requires forall k :: 0 <= k < |obs| ==> Overloaded(a.name, obs[k], cfg)
    requires forall k :: 1 <= k < |obs| - 1 ==> obs[k].now - obs[0].now < cfg.cpuThresholdDuration
    requires obs[|obs| - 1].now - obs[0].now >= cfg.cpuThresholdDuration
    ensures RunTicks(a, obs, cfg).decisions
         == [TimerStarted] + Repeat(TimerRunning, |obs| - 2) + [RestartIssued]
    ensures RunTicks(a, obs, cfg).app.thresholdExceededTime.None?
  {
    var s := Step(a, obs[0], cfg);
    assert Overloaded(a.name, obs[0], cfg);
    assert s.decision == TimerStarted;
    var rest := obs[1..];
    forall k | 0 <= k < |rest| ensures Overloaded(s.app.name, rest[k], cfg) {
      assert rest[k] == obs[k + 1];
    }
    forall k | 0 <= k < |rest| - 1 ensures rest[k].now - obs[0].now < cfg.cpuThresholdDuration {
      assert rest[k] == obs[k + 1];
    }
    WaitThenFire(s.app, rest, cfg, obs[0].now);
  }

  /** The threshold column of the app table (`update_app_tree`). */
  datatype ThresholdView = Normal | RestartNow | Warning(remaining: real)

  function ThresholdStatus(timer: Option<real>, now: real, duration: real): (v: ThresholdView)
    ensures v == Normal <==> timer.None?
    ensures v == RestartNow <==> timer.Some? && now - timer.value >= duration
    ensures v.Warning? ==> timer.Some? && v.remaining > 0.0 && now + v.remaining == timer.value + duration
  {
    match timer
    case None => Normal
    case Some(t) =>
      if now - t >= duration then RestartNow else Warning(duration - (now - t))
  }

  /** The table's view agrees with the engine: for an enabled, overloaded app a
      tick at the same moment starts the timer when the view shows "Normal",
      waits when it shows a warning, and restarts when it shows "RESTART NOW". */
  lemma ViewPredictsDecision(a: App, ob: Observation, cfg: Settings)
    requires a.enabled && Overloaded(a.name, ob, cfg)
    ensures var v := ThresholdStatus(a.thresholdExceededTime, ob.now, cfg.cpuThresholdDuration);
      var d := Step(a, ob, cfg).decision;
      && (v == Normal <==> d == TimerStarted)
      && (v.Warning? <==> d == TimerRunning)
      && (v == RestartNow <==> d == RestartIssued)
  {
  }

  /** `warning_count` of `update_monitoring_info`: enabled apps with a timer set. */
  function Warnings(apps: seq<App>): nat
  {
    if apps == [] then 0
    else Warnings(apps[..|apps| - 1])
         + (if apps[|apps| - 1].enabled && apps[|apps| - 1].thresholdExceededTime.Some? then 1 else 0)
  }

  /** The number of enabled apps shown beside it. */
  function EnabledCount(apps: seq<App>): nat
  {
    if apps == [] then 0
    else EnabledCount(apps[..|apps| - 1]) + (if apps[|apps| - 1].enabled then 1 else 0)
  }

  /** There are at most as many warnings as enabled apps, and none exactly when
      no enabled app has a timer running. */
  lemma {:induction false} WarningsSpec(apps: seq<App>)
    ensures Warnings(apps) <= EnabledCount(apps) <= |apps|
    ensures Warnings(apps) == 0
        <==> forall k :: 0 <= k < |apps| ==> !(apps[k].enabled && apps[k].thresholdExceededTime.Some?)
  {
    if apps != [] {
      var init := apps[..|apps| - 1];
      WarningsSpec(init);
      forall k | 0 <= k < |init| ensures init[k] == apps[k] { }
    }
  }

  /** A tick in which every enabled app has processes and is at or below the
      threshold leaves no app in threshold warning. */
  lemma CalmTickClearsWarnings(apps: seq<App>, obs: seq<Observation>, cfg: Settings)
    requires |obs| == |apps|
    requires forall k :: 0 <= k < |apps| && apps[k].enabled ==>
      SampleAt(apps[k], obs[k], cfg).count > 0 && SampleAt(apps[k], obs[k], cfg).cpu <= cfg.cpuThreshold
    ensures Warnings(TickApps(apps, obs, cfg)) == 0
  {
    var after := TickApps(apps, obs, cfg);
    forall k | 0 <= k < |after| ensures !(after[k].enabled && after[k].thresholdExceededTime.Some?) {
      StepKeepsIdentity(apps[k], obs[k], cfg);
    }
    WarningsSpec(after);
  }
}
