/** The original engine of cpu_monitor.py: no per-app enable flag, no GPU
    factor, no timer. An app above the threshold is restarted in the same pass
    that sees it, and a vanished app is relaunched by its stored path or its
    name. A process whose name psutil could not read makes `.lower()` raise, and
    that aborts the whole sampling or kill loop. */
module Legacy {
  import opened Os
  import opened Text
  import opened Records
  import opened Sampling

  /** One entry of `monitored_apps` in cpu_monitor.py. */
  datatype LegacyApp = LegacyApp(
    name: string,
    processName: string,
    status: Status,
    lastCpu: real,
    restartCount: nat,
    executablePath: Option<string>)

  /** The record `add_app` appends. */
  function NewLegacyApp(name: string): LegacyApp
  {
    LegacyApp(name, Lower(name), Active, 0.0, 0, None)
  }

  datatype LegacySettings = LegacySettings(
    cpuThreshold: real,
    checkInterval: real,
    startupDelay: real,
    autoRestartEnabled: bool)

  /** The values `__init__` assigns and `load_settings` falls back to. */
  const LegacyDefaults := LegacySettings(50.0, 5.0, 3.0, true)

  /** settings.json of the original engine: every key may be missing. */
  datatype LegacySettingsDoc = LegacySettingsDoc(
    cpuThreshold: Option<real>,
    checkInterval: Option<real>,
    startupDelay: Option<real>,
    autoRestartEnabled: Option<bool>)

  function SaveLegacySettings(s: LegacySettings): LegacySettingsDoc
  {
    LegacySettingsDoc(Some(s.cpuThreshold), Some(s.checkInterval), Some(s.startupDelay), Some(s.autoRestartEnabled))
  }

  function LegacySettingsFromDoc(d: LegacySettingsDoc): LegacySettings
  {
    LegacySettings(d.cpuThreshold.GetOr(LegacyDefaults.cpuThreshold), d.checkInterval.GetOr(LegacyDefaults.checkInterval),
      d.startupDelay.GetOr(LegacyDefaults.startupDelay), d.autoRestartEnabled.GetOr(LegacyDefaults.autoRestartEnabled))
  }

  /** Saved settings load back unchanged; a document without keys loads as the
      defaults. */
  lemma LegacySettingsRoundTrip(s: LegacySettings)
    ensures LegacySettingsFromDoc(SaveLegacySettings(s)) == s
    ensures LegacySettingsFromDoc(LegacySettingsDoc(None, None, None, None)) == LegacyDefaults
  {
  }

  // ---------------------------------------------------------------- sampling

  /** The process table holds an entry without a name. */
  predicate HasNameless(procs: seq<ProcInfo>)
  {
    exists k :: 0 <= k < |procs| && procs[k].name.None?
  }

  /** The only match test of the original engine: the lower-cased app name in
      the lower-cased process name; the executable path is never looked at. */
  predicate LegacyMatches(appName: string, p: ProcInfo)
  {
    p.name.Some? && Contains(Lower(p.name.value), Lower(appName))
  }

  predicate LegacyCounted(os: Oracle, appName: string, p: ProcInfo)
  {
    LegacyMatches(appName, p) && p.pid in os.cpu
  }

  /** Raw CPU and count over a prefix of the table, when no name is missing. */
  function LegacySampleOf(os: Oracle, procs: seq<ProcInfo>, appName: string): Sample
  {
    if procs == [] then Sample(0.0, 0)
    else
      var prev := LegacySampleOf(os, procs[..|procs| - 1], appName);
      var p := procs[|procs| - 1];
      if LegacyCounted(os, appName, p) then Sample(prev.cpu + os.cpu[p.pid], prev.count + 1)
      else prev
  }

  /** `get_app_cpu_usage_detailed` of cpu_monitor.py as a value; `None` is the
      AttributeError a nameless process raises. */
  function LegacySample(os: Oracle, appName: string): Option<Sample>
  {
    if HasNameless(os.procs) then None else Some(LegacySampleOf(os, os.procs, appName))
  }

  /** `get_app_cpu_usage_detailed` of cpu_monitor.py. */
  method LegacyCpuUsage(os: Oracle, appName: string) returns (r: Option<Sample>)
    ensures r == LegacySample(os, appName)
  {
    var totalCpu, processCount := 0.0, 0;
    var i := 0;
    while i < |os.procs|
      invariant 0 <= i <= |os.procs|
      invariant !HasNameless(os.procs[..i])
      invariant Sample(totalCpu, processCount) == LegacySampleOf(os, os.procs[..i], appName)
    {
      var p := os.procs[i];
      assert os.procs[..i + 1][..i] == os.procs[..i];
      if p.name.None? {
        return None;
      }
      if Contains(Lower(p.name.value), Lower(appName)) && p.pid in os.cpu {
        totalCpu := totalCpu + os.cpu[p.pid];
        processCount := processCount + 1;
      }
      i := i + 1;
      assert !HasNameless(os.procs[..i]) by {
        forall k | 0 <= k < i ensures os.procs[..i][k].name.Some? {
          if k < i - 1 {
            assert os.procs[..i][k] == os.procs[..i - 1][k];
          }
        }
      }
    }
    assert os.procs[..i] == os.procs;
    return Some(Sample(totalCpu, processCount));
  }

  /** The count is zero exactly when no process is counted. */
  lemma {:induction false} LegacyCountZeroIff(os: Oracle, procs: seq<ProcInfo>, appName: string)
    ensures LegacySampleOf(os, procs, appName).count == 0
        <==> forall k :: 0 <= k < |procs| ==> !LegacyCounted(os, appName, procs[k])
  {
    if procs != [] {
      var init := procs[..|procs| - 1];
      LegacyCountZeroIff(os, init, appName);
      forall k | 0 <= k < |init| ensures init[k] == procs[k] { }
    }
  }

  /** The executable path plays no part in matching. */
  lemma LegacyMatchIgnoresExe(appName: string, p: ProcInfo, exe: Option<string>)
    ensures LegacyMatches(appName, p) <==> LegacyMatches(appName, p.(exe := exe))
  {
  }

  /** The processes the enhanced sampler counts and this one does not are
      exactly those that match only through their executable path: a non-empty
      name without the app name, a non-empty exe with it, and a readable CPU. */
  lemma ExeOnlyMatchNotCountedByLegacy(os: Oracle, appName: string, p: ProcInfo)
    ensures Counted(os, appName, p) && !LegacyCounted(os, appName, p)
        <==> && Truthy(p.name) && !Contains(Lower(p.name.value), Lower(appName))
             && Truthy(p.exe) && Contains(Lower(p.exe.value), Lower(appName))
             && p.pid in os.cpu
  {
  }

  // ---------------------------------------------------------------- restarts

  function LegacyKilledOf(os: Oracle, procs: seq<ProcInfo>, appName: string): nat
  {
    if procs == [] then 0
    else
      var p := procs[|procs| - 1];
      LegacyKilledOf(os, procs[..|procs| - 1], appName)
        + (if LegacyMatches(appName, p) && p.pid in os.terminable then 1 else 0)
  }

  /** The kill loop of `restart_app` as a value: the number of processes
      terminated, or `None` when a nameless process aborts the loop. */
  function LegacyKill(os: Oracle, appName: string): Option<nat>
  {
    if HasNameless(os.procs) then None else Some(LegacyKilledOf(os, os.procs, appName))
  }

  /** The kill loop of `restart_app` in cpu_monitor.py. */
  method LegacyTerminate(os: Oracle, appName: string) returns (r: Option<nat>)
    ensures r == LegacyKill(os, appName)
  {
    var killedCount := 0;
    var i := 0;
    while i < |os.procs|
      invariant 0 <= i <= |os.procs|
      invariant !HasNameless(os.procs[..i])
      invariant killedCount == LegacyKilledOf(os, os.procs[..i], appName)
    {
      var p := os.procs[i];
      assert os.procs[..i + 1][..i] == os.procs[..i];
      if p.name.None? {
        return None;
      }
      if Contains(Lower(p.name.value), Lower(appName)) && p.pid in os.terminable {
        killedCount := killedCount + 1;
      }
      i := i + 1;
      assert !HasNameless(os.procs[..i]) by {
        forall k | 0 <= k < i ensures os.procs[..i][k].name.Some? {
          if k < i - 1 {
            assert os.procs[..i][k] == os.procs[..i - 1][k];
          }
        }
      }
    }
    assert os.procs[..i] == os.procs;
    return Some(killedCount);
  }

  /** What both restart operations pass to Popen: the stored path when it is
      set and exists, otherwise the app name. */
  function LaunchTarget(os: Oracle, a: LegacyApp): string
  {
    if Truthy(a.executablePath) && os.Exists(a.executablePath.value) then a.executablePath.value else a.name
  }

  /** `restart_app` of cpu_monitor.py. Every failure (an aborted kill loop, a
      negative delay handed to `time.sleep`, a launch that raises) lands in the
      method's handler and leaves the record as it was. */
  function LegacyOverloadRestart(os: Oracle, a: LegacyApp, startupDelay: real): LegacyApp
  {
    match LegacyKill(os, a.name)
    case None => a
    case Some(killed) =>
      if killed == 0 || startupDelay < 0.0 || !os.Launches(LaunchTarget(os, a)) then a
      else a.(restartCount := a.restartCount + 1, status := Restarted)
  }

  /** `restart_terminated_app` of cpu_monitor.py: the delay is only slept when
      positive, and a launch that raises ends in "Restart Failed". */
  function LegacyTerminationRestart(os: Oracle, a: LegacyApp): LegacyApp
  {
    if os.Launches(LaunchTarget(os, a)) then a.(restartCount := a.restartCount + 1, status := AutoRestarted)
    else a.(status := RestartFailed)
  }

  /** The overload restart succeeds exactly when some process was killed, the
      delay is non-negative and the target launches; then the count goes up by
      one and the status is "Restarted", and otherwise nothing changes. */
  lemma LegacyOverloadOutcome(os: Oracle, a: LegacyApp, startupDelay: real)
    ensures var r := LegacyOverloadRestart(os, a, startupDelay);
      var ok := LegacyKill(os, a.name).Some? && LegacyKill(os, a.name).value > 0
                && startupDelay >= 0.0 && os.Launches(LaunchTarget(os, a));
      && (ok ==> r == a.(restartCount := a.restartCount + 1, status := Restarted))
      && (!ok ==> r == a)
      && (r.restartCount == a.restartCount + 1 <==> ok)
  {
  }

  /** The relaunch of a vanished app ends in "Auto-Restarted" with one more
      restart, or in "Restart Failed" with the count kept; nothing else
      changes. */
  lemma LegacyTerminationOutcome(os: Oracle, a: LegacyApp)
    ensures var r := LegacyTerminationRestart(os, a);
      && (r.status == AutoRestarted <==> os.Launches(LaunchTarget(os, a)))
      && (r.status == AutoRestarted || r.status == RestartFailed)
      && (r.status == AutoRestarted ==> r.restartCount == a.restartCount + 1)
      && (r.status == RestartFailed ==> r.restartCount == a.restartCount)
      && r.(status := a.status, restartCount := a.restartCount) == a
  {
  }

  // ---------------------------------------------------------------- one pass

  /** Which rule of `check_apps_cpu` an app took. */
  datatype LegacyDecision =
    | SampleFailed        // sampling raised; the handler only logs
    | TerminationDetected
    | AlreadyTerminated
    | RestartIssued
    | Recovered
    | NoChange

  datatype LegacyStepResult = LegacyStepResult(app: LegacyApp, decision: LegacyDecision)

  /** The body of `check_apps_cpu`'s loop for one app. */
  function LegacyStep(a: LegacyApp, os: Oracle, cfg: LegacySettings): LegacyStepResult
  {
    match LegacySample(os, a.name)
    case None => LegacyStepResult(a, SampleFailed)
    case Some(s) =>
      var a1 := a.(lastCpu := s.cpu);
      if s.count == 0 && cfg.autoRestartEnabled then
        if a1.status != Terminated then
          LegacyStepResult(LegacyTerminationRestart(os, a1.(status := Terminated)), TerminationDetected)
        else LegacyStepResult(a1, AlreadyTerminated)
      else if s.cpu > cfg.cpuThreshold then
        LegacyStepResult(LegacyOverloadRestart(os, a1, cfg.startupDelay), RestartIssued)
      else if s.count > 0 && (a1.status == Terminated || a1.status == Restarting) then
        LegacyStepResult(a1.(status := Active), Recovered)
      else LegacyStepResult(a1, NoChange)
  }

  /** A failed sample leaves the record untouched, `last_cpu` included. */
  lemma LegacySampleFailureKeepsApp(a: LegacyApp, os: Oracle, cfg: LegacySettings)
    requires HasNameless(os.procs)
    ensures LegacyStep(a, os, cfg) == LegacyStepResult(a, SampleFailed)
  {
  }

  /** There is no timer: an app above the threshold is restarted in the very
      pass that sees it, exactly when it is not in the termination case. */
  lemma LegacyImmediateRestart(a: LegacyApp, os: Oracle, cfg: LegacySettings)
    ensures var r := LegacyStep(a, os, cfg);
      var s := LegacySample(os, a.name);
      && (r.decision == RestartIssued <==>
            s.Some? && !(s.value.count == 0 && cfg.autoRestartEnabled) && s.value.cpu > cfg.cpuThreshold)
      && (r.decision == RestartIssued ==>
            r.app == LegacyOverloadRestart(os, a.(lastCpu := s.value.cpu), cfg.startupDelay))
  {
  }

  /** A vanished app is relaunched once on the pass that first finds it gone,
      and ends that pass "Auto-Restarted" or "Restart Failed", never
      "Terminated". */
  lemma LegacyTerminationRestarts(a: LegacyApp, os: Oracle, cfg: LegacySettings)
    ensures var r := LegacyStep(a, os, cfg);
      var s := LegacySample(os, a.name);
      && (r.decision == TerminationDetected <==>
            s.Some? && s.value.count == 0 && cfg.autoRestartEnabled && a.status != Terminated)
      && (r.decision == TerminationDetected ==>
            r.app.status in {AutoRestarted, RestartFailed})
  {
  }

  /** The status returns to "Active" only from "Terminated" or "Restarting",
      with at least one process counted and the CPU not above the threshold. */
  lemma LegacyRecoveredIff(a: LegacyApp, os: Oracle, cfg: LegacySettings)
    ensures var r := LegacyStep(a, os, cfg);
      var s := LegacySample(os, a.name);
      (r.decision == Recovered) <==>
        s.Some? && s.value.count > 0 && s.value.cpu <= cfg.cpuThreshold
        && (a.status == Terminated || a.status == Restarting)
    ensures LegacyStep(a, os, cfg).decision == Recovered ==> LegacyStep(a, os, cfg).app.status == Active
  {
  }

  /** A pass never changes who an app is: its name, process name and stored
      path stay, and its restart count rises by at most one, and only on a
      restart rule. */
  lemma LegacyStepKeepsIdentity(a: LegacyApp, os: Oracle, cfg: LegacySettings)
    ensures var r := LegacyStep(a, os, cfg);
      && r.app.name == a.name && r.app.processName == a.processName
      && r.app.executablePath == a.executablePath
      && a.restartCount <= r.app.restartCount <= a.restartCount + 1
      && (r.app.restartCount > a.restartCount ==> r.decision in {RestartIssued, TerminationDetected})
  {
  }

  /** One pass over the list, each app against its own snapshot: every app
      keeps its place and who it is, and there is no enable flag to skip one. */
  function LegacyTickApps(apps: seq<LegacyApp>, obs: seq<Oracle>, cfg: LegacySettings): (r: seq<LegacyApp>)
    requires |obs| == |apps|
    ensures |r| == |apps|
    ensures forall k :: 0 <= k < |r| ==>
      && r[k].name == apps[k].name && r[k].processName == apps[k].processName
      && r[k].executablePath == apps[k].executablePath
      && apps[k].restartCount <= r[k].restartCount <= apps[k].restartCount + 1
  {
    seq(|apps|, k requires 0 <= k < |apps| => LegacyStep(apps[k], obs[k], cfg).app)
  }

  /** An app followed over consecutive passes: the final record and the rule
      taken on each pass. The name and path never change, and each pass adds at
      most one restart. */
  function LegacyRun(a: LegacyApp, obs: seq<Oracle>, cfg: LegacySettings): (r: (LegacyApp, seq<LegacyDecision>))
    ensures |r.1| == |obs|
    ensures r.0.name == a.name && r.0.executablePath == a.executablePath
    ensures a.restartCount <= r.0.restartCount <= a.restartCount + |obs|
    decreases |obs|
  {
    if obs == [] then (a, [])
    else
      var st := LegacyStep(a, obs[0], cfg);
      LegacyStepKeepsIdentity(a, obs[0], cfg);
      var rest := LegacyRun(st.app, obs[1..], cfg);
      (rest.0, [st.decision] + rest.1)
  }

  /** A snapshot in which the app is running hot and can be restarted: it is
      sampled above the threshold, some of its processes can be killed and its
      launch target starts. */
  predicate HotAndRestartable(a: LegacyApp, os: Oracle, cfg: LegacySettings)
  {
    && LegacySample(os, a.name).Some?
    && LegacySample(os, a.name).value.count > 0
    && LegacySample(os, a.name).value.cpu > cfg.cpuThreshold
    && LegacyKill(os, a.name).Some? && LegacyKill(os, a.name).value > 0
    && os.Launches(LaunchTarget(os, a))
  }

  /** Where the enhanced engine waits for the duration and restarts once, the
      original one restarts on every pass a breach lasts: n hot passes give n
      restarts. */
  lemma {:induction false} LegacyRestartsEveryPass(a: LegacyApp, obs: seq<Oracle>, cfg: LegacySettings)
    requires cfg.startupDelay >= 0.0
    requires forall k :: 0 <= k < |obs| ==> HotAndRestartable(a, obs[k], cfg)
    ensures LegacyRun(a, obs, cfg).0.restartCount == a.restartCount + |obs|
    ensures forall k :: 0 <= k < |obs| ==> LegacyRun(a, obs, cfg).1[k] == RestartIssued
    decreases |obs|
  {
    if obs != [] {
      var st := LegacyStep(a, obs[0], cfg);
      var s := LegacySample(obs[0], a.name).value;
      var a1 := a.(lastCpu := s.cpu);
      assert LaunchTarget(obs[0], a1) == LaunchTarget(obs[0], a);
      assert st.app == a1.(restartCount := a.restartCount + 1, status := Restarted);
      var b := st.app;
      forall k | 0 <= k < |obs[1..]| ensures HotAndRestartable(b, obs[1..][k], cfg) {
        assert obs[1..][k] == obs[k + 1];
        assert HotAndRestartable(a, obs[k + 1], cfg);
        assert LaunchTarget(obs[k + 1], b) == LaunchTarget(obs[k + 1], a);
      }
      LegacyRestartsEveryPass(b, obs[1..], cfg);
    }
  }

  // ---------------------------------------------------------------- the window

  /** The entry fields `start_monitoring` of cpu_monitor.py reads; `None` is
      text `float()` rejects. */
  datatype LegacyStartInputs = LegacyStartInputs(
    threshold: Option<real>,
    interval: Option<real>,
    startupDelay: Option<real>,
    autoRestart: bool)

  datatype LegacyStartResult = ParseError | NoApps | Started

  /** The assignments of `start_monitoring`, one by one until the first field
      that fails to parse. */
  function ParseLegacyInputs(s: LegacySettings, i: LegacyStartInputs): (r: (LegacySettings, bool))
    ensures r.1 <==> i.threshold.Some? && i.interval.Some? && i.startupDelay.Some?
    ensures r.1 ==> r.0 == LegacySettings(i.threshold.value, i.interval.value, i.startupDelay.value, i.autoRestart)
    ensures !r.1 ==> r.0.autoRestartEnabled == s.autoRestartEnabled
    ensures i.threshold.None? ==> r.0 == s
    // a field that fails leaves the fields before it entered and the rest kept
    ensures i.threshold.Some? && i.interval.None? ==> r.0 == s.(cpuThreshold := i.threshold.value)
    ensures i.threshold.Some? && i.interval.Some? && i.startupDelay.None? ==>
      r.0 == s.(cpuThreshold := i.threshold.value, checkInterval := i.interval.value)
  {
    if i.threshold.None? then (s, false)
    else
      var s := s.(cpuThreshold := i.threshold.value);
      if i.interval.None? then (s, false)
      else
        var s := s.(checkInterval := i.interval.value);
        if i.startupDelay.None? then (s, false)
        else (s.(startupDelay := i.startupDelay.value, autoRestartEnabled := i.autoRestart), true)
  }

  predicate LegacyNamesUnique(apps: seq<LegacyApp>)
  {
    forall i, j :: 0 <= i < j < |apps| ==> apps[i].name != apps[j].name
  }

  predicate LegacyHasName(apps: seq<LegacyApp>, name: string)
  {
    exists k :: 0 <= k < |apps| && apps[k].name == name
  }

  /** `[app for app in self.monitored_apps if app['name'] != app_name]` */
  function LegacyWithout(apps: seq<LegacyApp>, name: string): (r: seq<LegacyApp>)
    ensures forall a :: a in r ==> a in apps && a.name != name
  {
    if apps == [] then []
    else
      assert apps == [apps[0]] + apps[1..];
      if apps[0].name == name then LegacyWithout(apps[1..], name)
      else [apps[0]] + LegacyWithout(apps[1..], name)
  }

  /** A record with another name is kept as often as it was listed. */
  lemma {:induction false} LegacyWithoutMultiplicity(apps: seq<LegacyApp>, name: string)
    ensures forall a: LegacyApp :: a.name != name ==> multiset(LegacyWithout(apps, name))[a] == multiset(apps)[a]
  {
    if apps != [] {
      LegacyWithoutMultiplicity(apps[1..], name);
      assert apps == [apps[0]] + apps[1..];
    }
  }

  /** Removal keeps the order of the list: it distributes over concatenation,
      and a single record is kept exactly when its name differs. */
  lemma LegacyWithoutKeepsOrder(xs: seq<LegacyApp>, ys: seq<LegacyApp>, name: string)
    ensures LegacyWithout(xs + ys, name) == LegacyWithout(xs, name) + LegacyWithout(ys, name)
    ensures forall a: LegacyApp :: LegacyWithout([a], name) == if a.name == name then [] else [a]
  {
    LegacyWithoutConcat(xs, ys, name);
    forall a: LegacyApp ensures LegacyWithout([a], name) == if a.name == name then [] else [a] {
      assert [a][1..] == [];
    }
  }

  lemma {:induction false} LegacyWithoutConcat(xs: seq<LegacyApp>, ys: seq<LegacyApp>, name: string)
    ensures LegacyWithout(xs + ys, name) == LegacyWithout(xs, name) + LegacyWithout(ys, name)
  {
    if xs == [] {
      assert xs + ys == ys;
    } else {
      var x, rest := xs[0], xs[1..];
      assert xs == [x] + rest;
      assert xs + ys == [x] + (rest + ys);
      LegacyWithoutConcat(rest, ys, name);
      LegacyWithoutCons(x, rest + ys, name);
      LegacyWithoutCons(x, rest, name);
      var h := if x.name == name then [] else [x];
      assert h + (LegacyWithout(rest, name) + LegacyWithout(ys, name)) == (h + LegacyWithout(rest, name)) + LegacyWithout(ys, name);
    }
  }

  lemma LegacyWithoutCons(x: LegacyApp, t: seq<LegacyApp>, name: string)
    ensures LegacyWithout([x] + t, name) == (if x.name == name then [] else [x]) + LegacyWithout(t, name)
  {
    assert ([x] + t)[0] == x && ([x] + t)[1..] == t;
  }

  class LegacyMonitor {
    var apps: seq<LegacyApp>
    var settings: LegacySettings
    var monitoring: bool
    /** whether the Start button accepts a click */
    var startEnabled: bool
    /** monitor-loop threads that have not yet left their loop */
    var liveLoops: nat

    constructor ()
      ensures apps == [] && settings == LegacyDefaults && !monitoring && startEnabled && liveLoops == 0
    {
      apps := [];
      settings := LegacyDefaults;
      monitoring := false;
      startEnabled := true;
      liveLoops := 0;
    }

    /** `load_settings` */
    method LoadSettings(file: Option<LegacySettingsDoc>)
      modifies this`settings
      ensures settings == if file.Some? then LegacySettingsFromDoc(file.value) else old(settings)
    {
      if file.Some? {
        settings := LegacySettingsFromDoc(file.value);
      }
    }

    /** `load_monitored_apps`: the stored list replaces the current one as it is. */
    method LoadMonitoredApps(file: Option<seq<LegacyApp>>)
      modifies this`apps
      ensures apps == if file.Some? then file.value else old(apps)
    {
      if file.Some? {
        apps := file.value;
      }
    }

    /** `add_app`: an empty stripped name or a name already listed is rejected;
        otherwise one fresh record is appended. */
    method AddApp(entry: string) returns (result: AddResult)
      modifies this`apps
      ensures var name := Strip(entry);
        && (result == EmptyName <==> name == "")
        && (result == Duplicate <==> name != "" && LegacyHasName(old(apps), name))
        && (result == Added ==> apps == old(apps) + [NewLegacyApp(name)])
        && (result != Added ==> apps == old(apps))
      ensures LegacyNamesUnique(old(apps)) ==> LegacyNamesUnique(apps)
    {
      var appName := Strip(entry);
      if appName == "" {
        return EmptyName;
      }
      var i := 0;
      while i < |apps|
        invariant 0 <= i <= |apps|
        invariant forall j :: 0 <= j < i ==> apps[j].name != appName
      {
        if apps[i].name == appName {
          return Duplicate;
        }
        i := i + 1;
      }
      var newApps := apps + [NewLegacyApp(appName)];
      assert forall j :: 0 <= j < |apps| ==> newApps[j] == apps[j];
      apps := newApps;
      return Added;
    }

    /** `remove_app`: every record with the selected name is dropped; no
        confirmation is asked. */
    method RemoveApp(selected: Option<string>)
      modifies this`apps
      ensures selected.Some? ==> apps == LegacyWithout(old(apps), selected.value)
      ensures selected.None? ==> apps == old(apps)
    {
      if selected.Some? {
        apps := LegacyWithout(apps, selected.value);
      }
    }

    /** `start_monitoring`, run by a click on the Start button: a parse error or
        an empty list reject the start. A success starts one more loop thread
        and disables the button until `stop_monitoring` enables it again. */
    method StartMonitoring(inputs: LegacyStartInputs) returns (result: LegacyStartResult)
      requires startEnabled
      modifies this`settings, this`monitoring, this`startEnabled, this`liveLoops
      ensures settings == ParseLegacyInputs(old(settings), inputs).0
      ensures result == ParseError <==> !ParseLegacyInputs(old(settings), inputs).1
      ensures result == NoApps <==> ParseLegacyInputs(old(settings), inputs).1 && apps == []
      ensures result == Started ==> monitoring && !startEnabled && liveLoops == old(liveLoops) + 1
      ensures result != Started ==>
        monitoring == old(monitoring) && startEnabled && liveLoops == old(liveLoops)
    {
      var parsed := ParseLegacyInputs(settings, inputs);
      settings := parsed.0;
      if !parsed.1 {
        return ParseError;
      }
      if apps == [] {
        return NoApps;
      }
      monitoring := true;
      liveLoops := liveLoops + 1;
      startEnabled := false;
      return Started;
    }

    /** `stop_monitoring`: clears the flag and enables the Start button. A loop
        thread notices the flag only the next time it tests it, after its
        sleep. */
    method StopMonitoring()
      modifies this`monitoring, this`startEnabled
      ensures !monitoring && startEnabled
    {
      monitoring := false;
      startEnabled := true;
    }

    /** One test of `while self.monitoring` by a live loop thread: with the flag
        set the apps are checked (and the thread then sleeps); with it cleared
        the thread leaves its loop. */
    method MonitorLoopStep(obs: seq<Oracle>) returns (running: bool)
      requires liveLoops > 0
      requires |obs| == |apps|
      modifies this`apps, this`liveLoops
      ensures running == monitoring
      ensures running ==> apps == LegacyTickApps(old(apps), obs, settings) && liveLoops == old(liveLoops)
      ensures !running ==> apps == old(apps) && liveLoops == old(liveLoops) - 1
    {
      running := monitoring;
      if running {
        var _ := CheckAppsCpu(obs);
      } else {
        liveLoops := liveLoops - 1;
      }
    }

    /** `check_apps_cpu` of cpu_monitor.py: every app, enabled or not. */
    method CheckAppsCpu(obs: seq<Oracle>) returns (decisions: seq<LegacyDecision>)
      requires |obs| == |apps|
      modifies this`apps
      ensures apps == LegacyTickApps(old(apps), obs, settings)
      ensures |decisions| == |obs|
      ensures forall k :: 0 <= k < |decisions| ==> decisions[k] == LegacyStep(old(apps)[k], obs[k], settings).decision
    {
      decisions := [];
      var i := 0;
      while i < |apps|
        invariant 0 <= i <= |apps| && |apps| == |old(apps)| && |decisions| == i
        invariant forall k :: 0 <= k < i ==> apps[k] == LegacyStep(old(apps)[k], obs[k], settings).app
        invariant forall k :: 0 <= k < i ==> decisions[k] == LegacyStep(old(apps)[k], obs[k], settings).decision
        invariant forall k :: i <= k < |apps| ==> apps[k] == old(apps)[k]
      {
        var d := CheckApp(i, obs[i]);
        decisions := decisions + [d];
        i := i + 1;
      }
    }

    /** The loop body for the app at position `i`. */
    method CheckApp(i: nat, os: Oracle) returns (d: LegacyDecision)
      requires i < |apps|
      modifies this`apps
      ensures apps == old(apps)[i := LegacyStep(old(apps)[i], os, settings).app]
      ensures d == LegacyStep(old(apps)[i], os, settings).decision
    {
      var sample := LegacyCpuUsage(os, apps[i].name);
      if sample.None? {
        return SampleFailed;
      }
      var cpuPercent, processCount := sample.value.cpu, sample.value.count;
      apps := apps[i := apps[i].(lastCpu := cpuPercent)];
      if processCount == 0 && settings.autoRestartEnabled {
        if apps[i].status != Terminated {
          apps := apps[i := apps[i].(status := Terminated)];
          RestartTerminatedApp(i, os);
          d := TerminationDetected;
        } else {
          d := AlreadyTerminated;
        }
      } else if cpuPercent > settings.cpuThreshold {
        RestartApp(i, os);
        d := RestartIssued;
      } else if processCount > 0 && (apps[i].status == Terminated || apps[i].status == Restarting) {
        apps := apps[i := apps[i].(status := Active)];
        d := Recovered;
      } else {
        d := NoChange;
      }
    }

    /** `restart_app` of cpu_monitor.py on the app at position `i`. */
    method RestartApp(i: nat, os: Oracle)
      requires i < |apps|
      modifies this`apps
      ensures apps == old(apps)[i := LegacyOverloadRestart(os, old(apps)[i], settings.startupDelay)]
    {
      var app := apps[i];
      var killed := LegacyTerminate(os, app.name);
      if killed.None? || killed.value == 0 {
        return;
      }
      if settings.startupDelay < 0.0 {
        return;
      }
      var target := LaunchTarget(os, app);
      if os.Launches(target) {
        apps := apps[i := app.(restartCount := app.restartCount + 1, status := Restarted)];
      }
    }

    /** `restart_terminated_app` of cpu_monitor.py on the app at position `i`. */
    method RestartTerminatedApp(i: nat, os: Oracle)
      requires i < |apps|
      modifies this`apps
      ensures apps == old(apps)[i := LegacyTerminationRestart(os, old(apps)[i])]
    {
      apps := apps[i := apps[i].(status := Restarting)];
      var app := apps[i];
      if os.Launches(LaunchTarget(os, app)) {
        apps := apps[i := app.(restartCount := app.restartCount + 1, status := AutoRestarted)];
      } else {
        apps := apps[i := app.(status := RestartFailed)];
      }
    }
  }

  /** A stop and a new start within one check interval run two loops side by
      side: the first thread is still sleeping when the flag is cleared and set
      again, so when it wakes it finds the flag set and carries on next to the
      thread the second start created. */
  method StopThenStartRunsTwoLoops(m: LegacyMonitor, inputs: LegacyStartInputs, obs: seq<Oracle>)
    requires m.apps != [] && m.startEnabled && m.liveLoops == 0
    requires inputs.threshold.Some? && inputs.interval.Some? && inputs.startupDelay.Some?
    requires |obs| == |m.apps|
    modifies m
    ensures m.monitoring && m.liveLoops == 2
  {
    var r1 := m.StartMonitoring(inputs);
    assert r1 == Started;
    m.StopMonitoring();
    var r2 := m.StartMonitoring(inputs);
    assert r2 == Started;
    var running := m.MonitorLoopStep(obs);
    assert running;
  }
}
