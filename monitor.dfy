/** The watchdog engine of `CPUMonitorApp` in cpu_monitor1.py: the list of
    monitored apps, the settings, the monitoring/paused flags, the commands the
    window issues and one pass of the monitor loop. Widgets, dialogs, threads
    and sleeps are not modelled; a confirmation dialog's answer and the selected
    row are parameters. */
module Monitor {
  import opened Os
  import opened Text
  import opened Records
  import opened Sampling
  import opened Restart
  import opened Tracker
  import Discovery

  /** Names in the list are pairwise distinct. */
  predicate NamesUnique(apps: seq<App>)
  {
    forall i, j :: 0 <= i < j < |apps| ==> apps[i].name != apps[j].name
  }

  /** Whether some app in the list has this name. */
  predicate HasName(apps: seq<App>, name: string)
  {
    exists k :: 0 <= k < |apps| && apps[k].name == name
  }

  /** No app in the list is enabled. */
  predicate NoneEnabled(apps: seq<App>)
  {
    forall k :: 0 <= k < |apps| ==> !apps[k].enabled
  }

  /** The position of the first app with this name: the one the `for ... break`
      loops of the commands act on. */
  function FirstIndex(apps: seq<App>, name: string): (r: Option<nat>)
    ensures r.Some? ==> r.value < |apps| && apps[r.value].name == name
    ensures r.Some? ==> forall j :: 0 <= j < r.value ==> apps[j].name != name
    ensures r.None? <==> !HasName(apps, name)
  {
    if apps == [] then None
    else if apps[0].name == name then Some(0)
    else
      match FirstIndex(apps[1..], name)
      case None =>
        assert forall j :: 1 <= j < |apps| ==> apps[j] == apps[1..][j - 1];
        None
      case Some(k) => Some(k + 1)
  }

  /** `[app for app in monitored_apps if app["name"] != name]` */
  function Without(apps: seq<App>, name: string): (r: seq<App>)
    ensures forall a :: a in r ==> a in apps && a.name != name
    ensures |r| <= |apps|
  {
    if apps == [] then []
    else
      assert apps == [apps[0]] + apps[1..];
      if apps[0].name == name then Without(apps[1..], name) else [apps[0]] + Without(apps[1..], name)
  }

  /** A record with another name is kept as often as it was listed. */
  lemma {:induction false} WithoutMultiplicity(apps: seq<App>, name: string)
    ensures forall a: App :: a.name != name ==> multiset(Without(apps, name))[a] == multiset(apps)[a]
  {
    if apps != [] {
      WithoutMultiplicity(apps[1..], name);
      assert apps == [apps[0]] + apps[1..];
    }
  }

  /** Removal keeps the order of the list: it distributes over
      concatenation, and a single record is kept exactly when its name
      differs. */
  lemma WithoutKeepsOrder(xs: seq<App>, ys: seq<App>, name: string)
    ensures Without(xs + ys, name) == Without(xs, name) + Without(ys, name)
    ensures forall a: App :: Without([a], name) == if a.name == name then [] else [a]
  {
    WithoutConcat(xs, ys, name);
    forall a: App ensures Without([a], name) == if a.name == name then [] else [a] {
      assert [a][1..] == [];
    }
  }

  lemma {:induction false} WithoutConcat(xs: seq<App>, ys: seq<App>, name: string)
    ensures Without(xs + ys, name) == Without(xs, name) + Without(ys, name)
  {
    if xs == [] {
      assert xs + ys == ys;
    } else {
      var x, rest := xs[0], xs[1..];
      assert xs == [x] + rest;
      assert xs + ys == [x] + (rest + ys);
      WithoutConcat(rest, ys, name);
      WithoutCons(x, rest + ys, name);
      WithoutCons(x, rest, name);
      var h := if x.name == name then [] else [x];
      assert h + (Without(rest, name) + Without(ys, name)) == (h + Without(rest, name)) + Without(ys, name);
    }
  }

  lemma WithoutCons(x: App, t: seq<App>, name: string)
    ensures Without([x] + t, name) == (if x.name == name then [] else [x]) + Without(t, name)
  {
    assert ([x] + t)[0] == x && ([x] + t)[1..] == t;
  }

  /** Removing by name leaves no app of that name, keeps the other names
      distinct, and drops exactly one record when the name was listed. */
  lemma WithoutSpec(apps: seq<App>, name: string)
    requires NamesUnique(apps)
    ensures !HasName(Without(apps, name), name)
    ensures NamesUnique(Without(apps, name))
    ensures HasName(apps, name) ==> |Without(apps, name)| == |apps| - 1
    ensures !HasName(apps, name) ==> Without(apps, name) == apps
  {
    WithoutKeepsUnique(apps, name);
    if HasName(apps, name) {
      WithoutDropsOne(apps, name);
    } else {
      WithoutAbsent(apps, name);
    }
  }

  lemma {:induction false} WithoutKeepsUnique(apps: seq<App>, name: string)
    requires NamesUnique(apps)
    ensures NamesUnique(Without(apps, name))
  {
    if apps != [] {
      var rest := apps[1..];
      TailUnique(apps);
      WithoutKeepsUnique(rest, name);
      if apps[0].name != name {
        var w := Without(rest, name);
        forall i | 0 <= i < |w| ensures w[i].name != apps[0].name {
          assert w[i] in w;
          var j :| 0 <= j < |rest| && rest[j] == w[i];
          assert apps[j + 1] == rest[j];
        }
        PrependKeepsUnique(apps[0], w);
      }
    }
  }

  lemma TailUnique(apps: seq<App>)
    requires apps != [] && NamesUnique(apps)
    ensures NamesUnique(apps[1..])
  {
    var rest := apps[1..];
    forall i, j | 0 <= i < j < |rest| ensures rest[i].name != rest[j].name {
      assert rest[i] == apps[i + 1] && rest[j] == apps[j + 1];
    }
  }

  lemma PrependKeepsUnique(x: App, w: seq<App>)
    requires NamesUnique(w)
    requires forall i :: 0 <= i < |w| ==> w[i].name != x.name
    ensures NamesUnique([x] + w)
  {
    var r := [x] + w;
    forall i, j | 0 <= i < j < |r| ensures r[i].name != r[j].name {
      assert r[j] == w[j - 1];
      if i > 0 {
        assert r[i] == w[i - 1];
      }
    }
  }

  lemma {:induction false} WithoutAbsent(apps: seq<App>, name: string)
    requires !HasName(apps, name)
    ensures Without(apps, name) == apps
  {
    if apps != [] {
      var rest := apps[1..];
      assert apps[0].name != name;
      forall k | 0 <= k < |rest| ensures rest[k].name != name {
        assert apps[k + 1] == rest[k];
      }
      WithoutAbsent(rest, name);
      assert apps == [apps[0]] + rest;
    }
  }

  lemma {:induction false} WithoutDropsOne(apps: seq<App>, name: string)
    requires NamesUnique(apps) && HasName(apps, name)
    ensures |Without(apps, name)| == |apps| - 1
  {
    var rest := apps[1..];
    if apps[0].name == name {
      forall k | 0 <= k < |rest| ensures rest[k].name != name {
        assert apps[k + 1] == rest[k];
      }
      WithoutAbsent(rest, name);
    } else {
      assert HasName(rest, name) by {
        var k :| 0 <= k < |apps| && apps[k].name == name;
        assert k > 0 && rest[k - 1] == apps[k];
      }
      TailUnique(apps);
      WithoutDropsOne(rest, name);
    }
  }

  /** Appending a record under a fresh name keeps names distinct. */
  lemma AppendFreshKeepsUnique(apps: seq<App>, name: string)
    requires NamesUnique(apps) && !HasName(apps, name)
    ensures NamesUnique(apps + [NewApp(name)])
  {
    var r := apps + [NewApp(name)];
    forall i, j | 0 <= i < j < |r| ensures r[i].name != r[j].name {
      if j == |apps| {
        assert r[i] == apps[i];
      }
    }
  }

  /** The answer of `start_monitoring`. */
  datatype StartResult = ParseError | NoApps | NoEnabledApps | Started(delayed: bool)

  /** The entry fields `start_monitoring` reads; `None` stands for text that
      `float()` rejects with ValueError. */
  datatype StartInputs = StartInputs(
    threshold: Option<real>,
    interval: Option<real>,
    startupDelay: Option<real>,
    monitoringStartupDelay: Option<real>,
    thresholdDuration: Option<real>,
    filterErrors: bool,
    gpuFactor: Option<real>,
    autoRestart: bool)

  /** The settings after the assignments of `start_monitoring` and whether all
      of them ran: the fields are assigned one by one in declaration order, so a
      field that fails to parse stops the sequence with the earlier ones already
      replaced. No sign or range is checked. */
  function ParseInputs(s: Settings, i: StartInputs): (r: (Settings, bool))
  {
    if i.threshold.None? then (s, false)
    else
      var s := s.(cpuThreshold := i.threshold.value);
      if i.interval.None? then (s, false)
      else
        var s := s.(checkInterval := i.interval.value);
        if i.startupDelay.None? then (s, false)
        else
          var s := s.(startupDelay := i.startupDelay.value);
          if i.monitoringStartupDelay.None? then (s, false)
          else
            var s := s.(monitoringStartupDelay := i.monitoringStartupDelay.value);
            if i.thresholdDuration.None? then (s, false)
            else
              var s := s.(cpuThresholdDuration := i.thresholdDuration.value, filterReolinkErrors := i.filterErrors);
              if i.gpuFactor.None? then (s, false)
              else (s.(gpuFilterFactor := i.gpuFactor.value, autoRestartEnabled := i.autoRestart), true)
  }

  /** Parsing succeeds exactly when every numeric field parses, and then gives
      exactly the entered values, negative ones included. When a field fails,
      the fields before it hold the entered values and it and every later
      field keep their old values; the error-filter flag is assigned right
      after the threshold duration, so it is entered exactly when that field
      parsed. */
  lemma ParseInputsSpec(s: Settings, i: StartInputs)
    ensures var (t, ok) := ParseInputs(s, i);
      && (ok <==> i.threshold.Some? && i.interval.Some? && i.startupDelay.Some?
                  && i.monitoringStartupDelay.Some? && i.thresholdDuration.Some? && i.gpuFactor.Some?)
      && (ok ==> t == Settings(i.threshold.value, i.interval.value, i.startupDelay.value,
                               i.monitoringStartupDelay.value, i.thresholdDuration.value,
                               i.filterErrors, i.gpuFactor.value, i.autoRestart))
      && (i.threshold.Some? ==> t.cpuThreshold == i.threshold.value)
      && (!ok ==> t.gpuFilterFactor == s.gpuFilterFactor && t.autoRestartEnabled == s.autoRestartEnabled)
    // the first field that fails: the ones before it are entered, the rest kept
    ensures var (t, _) := ParseInputs(s, i);
      && (i.threshold.None? ==> t == s)
      && (i.threshold.Some? && i.interval.None? ==> t == s.(cpuThreshold := i.threshold.value))
      && (i.threshold.Some? && i.interval.Some? && i.startupDelay.None? ==>
            t == s.(cpuThreshold := i.threshold.value, checkInterval := i.interval.value))
    ensures var (t, _) := ParseInputs(s, i);
      && (i.threshold.Some? && i.interval.Some? && i.startupDelay.Some? && i.monitoringStartupDelay.None? ==>
            t == s.(cpuThreshold := i.threshold.value, checkInterval := i.interval.value,
                    startupDelay := i.startupDelay.value))
      && (i.threshold.Some? && i.interval.Some? && i.startupDelay.Some? && i.monitoringStartupDelay.Some?
          && i.thresholdDuration.None? ==>
            t == s.(cpuThreshold := i.threshold.value, checkInterval := i.interval.value,
                    startupDelay := i.startupDelay.value, monitoringStartupDelay := i.monitoringStartupDelay.value))
      && (i.threshold.Some? && i.interval.Some? && i.startupDelay.Some? && i.monitoringStartupDelay.Some?
          && i.thresholdDuration.Some? && i.gpuFactor.None? ==>
            t == s.(cpuThreshold := i.threshold.value, checkInterval := i.interval.value,
                    startupDelay := i.startupDelay.value, monitoringStartupDelay := i.monitoringStartupDelay.value,
                    cpuThresholdDuration := i.thresholdDuration.value, filterReolinkErrors := i.filterErrors))
  {
  }

  /** What `update_monitoring_info` shows. */
  datatype InfoView = Summary(enabled: nat, total: nat, warnings: nat) | PausedNotice | Blank

  /** The record after `discover_executable_paths` looked at it. */
  function Discovered(os: Oracle, a: App): App
  {
    if Truthy(a.executablePath) then a
    else
      var p := Discovery.FindExecutable(os, a.name);
      if Truthy(p) then a.(executablePath := p) else a
  }

  /** Discovery never replaces a path that is already set, and sets one only
      where the search found a non-empty one. */
  lemma DiscoveredSpec(os: Oracle, a: App)
    ensures Truthy(a.executablePath) ==> Discovered(os, a) == a
    ensures !Truthy(a.executablePath) && Truthy(Discovery.FindExecutable(os, a.name))
      ==> Discovered(os, a) == a.(executablePath := Discovery.FindExecutable(os, a.name))
    ensures !Truthy(a.executablePath) && !Truthy(Discovery.FindExecutable(os, a.name))
      ==> Discovered(os, a) == a
  {
  }

  class CpuMonitor {
    var apps: seq<App>
    var settings: Settings
    var monitoring: bool
    var paused: bool
    /** delayed starts whose delay has not yet elapsed */
    var pendingStarts: nat
    /** monitor-loop threads started */
    var loopsStarted: nat

    /** `__init__` before the JSON files are loaded. */
    constructor ()
      ensures apps == [] && settings == DefaultSettings
      ensures !monitoring && !paused && pendingStarts == 0 && loopsStarted == 0
    {
      apps := [];
      settings := DefaultSettings;
      monitoring := false;
      paused := false;
      pendingStarts := 0;
      loopsStarted := 0;
    }

    /** `add_app`: the entry text is stripped; an empty name or one already in
        the list is rejected, otherwise a fresh record is appended. */
    method AddApp(entry: string) returns (result: AddResult)
      modifies this`apps
      ensures var name := Strip(entry);
        && (result == EmptyName <==> name == "")
        && (result == Duplicate <==> name != "" && HasName(old(apps), name))
        && (result == Added ==> apps == old(apps) + [NewApp(name)])
        && (result != Added ==> apps == old(apps))
      ensures NamesUnique(old(apps)) ==> NamesUnique(apps)
    {
      var appName := Strip(entry);
      if appName == "" {
        return EmptyName;
      }
      var i := 0;
      while i < |apps|
        invariant 0 <= i <= |apps|
        invariant forall j :: 0 <= j < i ==> apps[j].name != appName
      {
        if apps[i].name == appName {
          return Duplicate;
        }
        i := i + 1;
      }
      if NamesUnique(apps) {
        AppendFreshKeepsUnique(apps, appName);
      }
      apps := apps + [NewApp(appName)];
      return Added;
    }

    /** `remove_app`: with a selected row and a confirmed dialog, every record
        with the selected name is dropped. */
    method RemoveApp(selected: Option<string>, confirmed: bool)
      modifies this`apps
      ensures selected.Some? && confirmed ==> apps == Without(old(apps), selected.value)
      ensures !(selected.Some? && confirmed) ==> apps == old(apps)
    {
      if selected.None? {
        return;
      }
      if confirmed {
        apps := Without(apps, selected.value);
      }
    }

    /** `remove_app_by_name`, from the context menu. */
    method RemoveAppByName(name: string, confirmed: bool)
      modifies this`apps
      ensures confirmed ==> apps == Without(old(apps), name)
      ensures !confirmed ==> apps == old(apps)
    {
      if confirmed {
        apps := Without(apps, name);
      }
    }

    /** `toggle_app_status`: flips `enabled` of the first record with the
        selected name, and of no other. */
    method ToggleAppStatus(selected: Option<string>) returns (found: bool)
      modifies this`apps
      ensures found <==> selected.Some? && HasName(old(apps), selected.value)
      ensures found ==> var k := FirstIndex(old(apps), selected.value).value;
        apps == old(apps)[k := old(apps)[k].(enabled := !old(apps)[k].enabled)]
      ensures !found ==> apps == old(apps)
    {
      if selected.None? {
        return false;
      }
      var appName := selected.value;
      var i := 0;
      while i < |apps|
        invariant 0 <= i <= |apps|
        invariant forall j :: 0 <= j < i ==> apps[j].name != appName
      {
        if apps[i].name == appName {
          FirstIndexAt(apps, appName, i);
          apps := apps[i := apps[i].(enabled := !apps[i].enabled)];
          return true;
        }
        i := i + 1;
      }
      return false;
    }

    /** `set_executable_path`: only the first record with the name is looked at;
        the path is stored when it exists, and the answer says whether it was. */
    method SetExecutablePath(os: Oracle, appName: string, executablePath: string) returns (ok: bool)
      modifies this`apps
      ensures ok <==> HasName(old(apps), appName) && os.Exists(executablePath)
      ensures ok ==> var k := FirstIndex(old(apps), appName).value;
        apps == old(apps)[k := old(apps)[k].(executablePath := Some(executablePath))]
      ensures !ok ==> apps == old(apps)
    {
      var i := 0;
      while i < |apps|
        invariant 0 <= i <= |apps|
        invariant forall j :: 0 <= j < i ==> apps[j].name != appName
      {
        if apps[i].name == appName {
          FirstIndexAt(apps, appName, i);
          if os.Exists(executablePath) {
            apps := apps[i := apps[i].(executablePath := Some(executablePath))];
            return true;
          } else {
            return false;
          }
        }
        i := i + 1;
      }
      return false;
    }

    /** `reset_threshold_timer`: clears the timer of the first record with the
        name. */
    method ResetThresholdTimer(appName: string)
      modifies this`apps
      ensures HasName(old(apps), appName) ==> var k := FirstIndex(old(apps), appName).value;
        apps == old(apps)[k := old(apps)[k].(thresholdExceededTime := None)]
      ensures !HasName(old(apps), appName) ==> apps == old(apps)
    {
      var i := 0;
      while i < |apps|
        invariant 0 <= i <= |apps|
        invariant forall j :: 0 <= j < i ==> apps[j].name != appName
      {
        if apps[i].name == appName {
          FirstIndexAt(apps, appName, i);
          if apps[i].thresholdExceededTime.Some? {
            apps := apps[i := apps[i].(thresholdExceededTime := None)];
          }
          return;
        }
        i := i + 1;
      }
    }

    /** `discover_executable_paths`: every record without a path gets the one
        `find_executable_path` finds, when that is non-empty. */
    method DiscoverExecutablePaths(os: Oracle)
      modifies this`apps
      ensures |apps| == |old(apps)|
      ensures forall k :: 0 <= k < |apps| ==> apps[k] == Discovered(os, old(apps)[k])
    {
      var i := 0;
      while i < |apps|
        invariant 0 <= i <= |apps| && |apps| == |old(apps)|
        invariant forall k :: 0 <= k < i ==> apps[k] == Discovered(os, old(apps)[k])
        invariant forall k :: i <= k < |apps| ==> apps[k] == old(apps)[k]
      {
        if !Truthy(apps[i].executablePath) {
          var exePath := Discovery.FindExecutablePath(os, apps[i].name);
          if Truthy(exePath) {
            apps := apps[i := apps[i].(executablePath := exePath)];
          }
        }
        i := i + 1;
      }
    }

    /** `load_monitored_apps`: when the file exists its entries replace the list,
        each with the missing "enabled" and "threshold_exceeded_time" keys
        filled in. */
    method LoadMonitoredApps(file: Option<seq<StoredApp>>)
      modifies this`apps
      ensures file.None? ==> apps == old(apps)
      ensures file.Some? ==> |apps| == |file.value|
      ensures file.Some? ==> forall k :: 0 <= k < |apps| ==> apps[k] == FillDefaults(file.value[k])
    {
      if file.None? {
        return;
      }
      var loaded := file.value;
      var filled: seq<App> := [];
      var i := 0;
      while i < |loaded|
        invariant 0 <= i <= |loaded| && |filled| == i
        invariant forall k :: 0 <= k < i ==> filled[k] == FillDefaults(loaded[k])
      {
        filled := filled + [FillDefaults(loaded[i])];
        i := i + 1;
      }
      apps := filled;
    }

    /** `load_settings`: when the file exists each key's value or its default
        replaces the setting. */
    method LoadSettings(file: Option<SettingsDoc>)
      modifies this`settings
      ensures settings == if file.Some? then SettingsFromDoc(file.value) else old(settings)
    {
      if file.Some? {
        settings := SettingsFromDoc(file.value);
      }
    }

    /** `start_monitoring`. A parse error, an empty list or a list with no
        enabled app reject the start and leave the flags alone (the fields parsed
        before a parse error stay assigned). On success monitoring is on and not
        paused, and the loop starts now or once the startup delay has elapsed. */
    method StartMonitoring(inputs: StartInputs) returns (result: StartResult)
      modifies this`settings, this`monitoring, this`paused, this`pendingStarts, this`loopsStarted
      ensures settings == ParseInputs(old(settings), inputs).0
      ensures !ParseInputs(old(settings), inputs).1 ==> result == ParseError
      ensures ParseInputs(old(settings), inputs).1 && apps == [] ==> result == NoApps
      ensures ParseInputs(old(settings), inputs).1 && apps != [] && NoneEnabled(apps) ==> result == NoEnabledApps
      ensures result.Started? <==>
        ParseInputs(old(settings), inputs).1 && exists k :: 0 <= k < |apps| && apps[k].enabled
      ensures !result.Started? ==>
        (monitoring == old(monitoring) && paused == old(paused)
         && pendingStarts == old(pendingStarts) && loopsStarted == old(loopsStarted))
      ensures result.Started? ==>
        (monitoring && !paused
         && result.delayed == (settings.monitoringStartupDelay > 0.0)
         && pendingStarts == old(pendingStarts) + (if result.delayed then 1 else 0)
         && loopsStarted == old(loopsStarted) + (if result.delayed then 0 else 1))
    {
      var parsed := ParseInputs(settings, inputs);
      settings := parsed.0;
      if !parsed.1 {
        return ParseError;
      }
      if apps == [] {
        return NoApps;
      }
      var anyEnabled := false;
      var i := 0;
      while i < |apps|
        invariant 0 <= i <= |apps|
        invariant anyEnabled <==> exists k :: 0 <= k < i && apps[k].enabled
      {
        anyEnabled := anyEnabled || apps[i].enabled;
        i := i + 1;
      }
      if !anyEnabled {
        return NoEnabledApps;
      }
      monitoring := true;
      paused := false;
      if settings.monitoringStartupDelay > 0.0 {
        pendingStarts := pendingStarts + 1;
        return Started(true);
      } else {
        loopsStarted := loopsStarted + 1;
        return Started(false);
      }
    }

    /** `delayed_start` after its sleep: the loop is started only if monitoring
        is still on. */
    method DelayedStartElapsed()
      requires pendingStarts > 0
      modifies this`pendingStarts, this`loopsStarted
      ensures pendingStarts == old(pendingStarts) - 1
      ensures loopsStarted == old(loopsStarted) + (if monitoring then 1 else 0)
    {
      pendingStarts := pendingStarts - 1;
      if monitoring {
        loopsStarted := loopsStarted + 1;
      }
    }

    /** `auto_start_monitoring`: with a non-empty list holding an enabled app it
        runs `start_monitoring` and has its effect; otherwise nothing changes. */
    method AutoStartMonitoring(inputs: StartInputs) returns (result: Option<StartResult>)
      modifies this`settings, this`monitoring, this`paused, this`pendingStarts, this`loopsStarted
      ensures result.Some? <==> exists k :: 0 <= k < |apps| && apps[k].enabled
      ensures result.None? ==>
        (settings == old(settings) && monitoring == old(monitoring)
         && paused == old(paused) && pendingStarts == old(pendingStarts) && loopsStarted == old(loopsStarted))
      ensures result.Some? ==> (result.value.Started? <==> ParseInputs(old(settings), inputs).1)
      ensures result.Some? ==> settings == ParseInputs(old(settings), inputs).0
      ensures result.Some? && !result.value.Started? ==>
        (monitoring == old(monitoring) && paused == old(paused)
         && pendingStarts == old(pendingStarts) && loopsStarted == old(loopsStarted))
      ensures result.Some? && result.value.Started? ==>
        (monitoring && !paused
         && result.value.delayed == (settings.monitoringStartupDelay > 0.0)
         && pendingStarts == old(pendingStarts) + (if result.value.delayed then 1 else 0)
         && loopsStarted == old(loopsStarted) + (if result.value.delayed then 0 else 1))
    {
      var anyEnabled := false;
      var i := 0;
      while i < |apps|
        invariant 0 <= i <= |apps|
        invariant anyEnabled <==> exists k :: 0 <= k < i && apps[k].enabled
      {
        anyEnabled := anyEnabled || apps[i].enabled;
        i := i + 1;
      }
      if apps != [] && anyEnabled {
        var r := StartMonitoring(inputs);
        return Some(r);
      }
      return None;
    }

    /** `pause_monitoring`: pause and resume are one toggle. */
    method PauseMonitoring()
      modifies this`paused
      ensures paused == !old(paused)
    {
      paused := !paused;
    }

    /** `stop_monitoring` */
    method StopMonitoring()
      modifies this`monitoring, this`paused
      ensures !monitoring && !paused
    {
      monitoring := false;
      paused := false;
    }

    /** One pass of `monitor_loop`'s body: while monitoring and not paused the
        apps are checked; paused, the pass does nothing. `sampled` says which. */
    method MonitorLoopStep(obs: seq<Observation>) returns (running: bool, sampled: bool)
      requires |obs| == |apps|
      modifies this`apps
      ensures running == monitoring
      ensures sampled <==> monitoring && !paused
      ensures sampled ==> apps == TickApps(old(apps), obs, settings)
      ensures !sampled ==> apps == old(apps)
    {
      running := monitoring;
      sampled := false;
      if !monitoring {
        return;
      }
      if !paused {
        var _ := CheckAppsCpu(obs);
        sampled := true;
      }
    }

    /** `update_monitoring_info`: the counts while monitoring, a notice while
        paused, nothing when stopped. */
    method UpdateMonitoringInfo() returns (info: InfoView)
      ensures monitoring && !paused ==> info == Summary(EnabledCount(apps), |apps|, Warnings(apps))
      ensures paused ==> info == PausedNotice
      ensures !monitoring && !paused ==> info == Blank
    {
      if monitoring && !paused {
        var enabledCount := EnabledCount(apps);
        var warningCount := 0;
        var i := 0;
        while i < |apps|
          invariant 0 <= i <= |apps|
          invariant warningCount == Warnings(apps[..i])
        {
          assert apps[..i + 1][..i] == apps[..i];
          if apps[i].enabled && apps[i].thresholdExceededTime.Some? {
            warningCount := warningCount + 1;
          }
          i := i + 1;
        }
        assert apps[..i] == apps;
        return Summary(enabledCount, |apps|, warningCount);
      } else if paused {
        return PausedNotice;
      } else {
        return Blank;
      }
    }

    /** `check_apps_cpu`: every app in list order, each evaluated against its
        own observation; the result is the rule each app took. */
    method CheckAppsCpu(obs: seq<Observation>) returns (decisions: seq<Decision>)
      requires |obs| == |apps|
      modifies this`apps
      ensures apps == TickApps(old(apps), obs, settings)
      ensures |decisions| == |obs|
      ensures forall k :: 0 <= k < |decisions| ==> decisions[k] == Step(old(apps)[k], obs[k], settings).decision
    {
      decisions := [];
      var i := 0;
      while i < |apps|
        invariant 0 <= i <= |apps| && |apps| == |old(apps)| && |decisions| == i
        invariant forall k :: 0 <= k < i ==> apps[k] == Step(old(apps)[k], obs[k], settings).app
        invariant forall k :: 0 <= k < i ==> decisions[k] == Step(old(apps)[k], obs[k], settings).decision
        invariant forall k :: i <= k < |apps| ==> apps[k] == old(apps)[k]
      {
        var d := CheckApp(i, obs[i]);
        decisions := decisions + [d];
        i := i + 1;
      }
    }

    /** The body of `check_apps_cpu`'s loop for the app at position `i`. */
    method CheckApp(i: nat, ob: Observation) returns (d: Decision)
      requires i < |apps|
      modifies this`apps
      ensures apps == old(apps)[i := Step(old(apps)[i], ob, settings).app]
      ensures d == Step(old(apps)[i], ob, settings).decision
    {
      var app := apps[i];
      if !app.enabled {
        return Skipped;
      }
      var cpuPercent, processCount := GetAppCpuUsageDetailed(ob.os, app.name, settings.gpuFilterFactor);
      apps := apps[i := apps[i].(lastCpu := cpuPercent)];
      if processCount == 0 && settings.autoRestartEnabled {
        if apps[i].status != Terminated {
          apps := apps[i := apps[i].(status := Terminated)];
          RestartTerminatedApp(i, ob.os);
          d := TerminationDetected;
        } else {
          d := AlreadyTerminated;
        }
      } else if cpuPercent > settings.cpuThreshold {
        var currentTime := ob.now;
        if apps[i].thresholdExceededTime.None? {
          apps := apps[i := apps[i].(thresholdExceededTime := Some(currentTime))];
          d := TimerStarted;
        } else if currentTime - apps[i].thresholdExceededTime.value >= settings.cpuThresholdDuration {
          RestartApp(i, ob.os);
          apps := apps[i := apps[i].(thresholdExceededTime := None)];
          d := RestartIssued;
        } else {
          d := TimerRunning;
        }
      } else if apps[i].thresholdExceededTime.Some? {
        apps := apps[i := apps[i].(thresholdExceededTime := None)];
        d := TimerCleared;
      } else if processCount > 0 && (apps[i].status == Terminated || apps[i].status == Restarting) {
        apps := apps[i := apps[i].(status := Active)];
        d := Recovered;
      } else {
        d := NoChange;
      }
    }

    /** `restart_app` on the app at position `i`. */
    method RestartApp(i: nat, os: Oracle)
      requires i < |apps|
      modifies this`apps
      ensures apps == old(apps)[i := OverloadRestart(os, old(apps)[i], settings.startupDelay)]
    {
      var app := apps[i];
      var killedCount := TerminateMatching(os, app);
      if killedCount > 0 {
        if settings.startupDelay < 0.0 {
          // time.sleep rejects a negative length; the handler only logs
          return;
        }
        var restartSuccess, exePath := TryRelaunch(os, app.name, app.executablePath);
        if restartSuccess {
          apps := apps[i := app.(restartCount := app.restartCount + 1, status := Restarted, executablePath := exePath)];
        } else {
          apps := apps[i := app.(status := RestartFailed, executablePath := exePath)];
        }
      }
    }

    /** `restart_terminated_app` on the app at position `i`. */
    method RestartTerminatedApp(i: nat, os: Oracle)
      requires i < |apps|
      modifies this`apps
      ensures apps == old(apps)[i := TerminationRestart(os, old(apps)[i])]
    {
      apps := apps[i := apps[i].(status := Restarting)];
      var app := apps[i];
      var restartSuccess, exePath := TryRelaunch(os, app.name, app.executablePath);
      if restartSuccess {
        apps := apps[i := app.(restartCount := app.restartCount + 1, status := AutoRestarted, executablePath := exePath)];
      } else {
        apps := apps[i := app.(status := AutoRestartFailed, executablePath := exePath)];
      }
    }
  }

  lemma {:induction false} FirstIndexAt(apps: seq<App>, name: string, i: nat)
    requires i < |apps| && apps[i].name == name
    requires forall j :: 0 <= j < i ==> apps[j].name != name
    ensures FirstIndex(apps, name) == Some(i)
  {
    if i > 0 {
      FirstIndexAt(apps[1..], name, i - 1);
    }
  }

  /** A stop followed by a new start inside the startup delay leaves two
      delayed starts pending, and both start a loop: the delayed start checks
      only the flag, not which start armed it. */
  method StopThenRestartStartsTwoLoops(m: CpuMonitor, inputs: StartInputs)
    requires m.apps != [] && m.apps[0].enabled
    requires ParseInputs(m.settings, inputs).1
    requires inputs.monitoringStartupDelay.Some? && inputs.monitoringStartupDelay.value > 0.0
    requires m.pendingStarts == 0 && m.loopsStarted == 0
    modifies m
    ensures m.monitoring && m.pendingStarts == 0 && m.loopsStarted == 2
  {
    var r1 := m.StartMonitoring(inputs);
    assert r1 == Started(true);
    m.StopMonitoring();
    var r2 := m.StartMonitoring(inputs);
    assert r2 == Started(true);
    assert m.pendingStarts == 2;
    m.DelayedStartElapsed();
    m.DelayedStartElapsed();
    assert m.loopsStarted == 2;
  }
}
