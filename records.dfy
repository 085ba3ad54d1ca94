/** The per-application record and the settings of the enhanced monitor
    (cpu_monitor1.py), with the defaults filled in when the two JSON documents
    are loaded. The JSON reading and writing itself is not modelled: a document
    is a record whose optional fields are the keys that may be missing. */
module Records {
  import opened Os
  import Text

  /** The strings the monitor stores in an app's "status" field. */
  datatype Status =
    | Active            // "Active"
    | Terminated        // "Terminated"
    | Restarting        // "Restarting"
    | Restarted         // "Restarted"
    | RestartFailed     // "Restart Failed"
    | AutoRestarted     // "Auto-Restarted"
    | AutoRestartFailed // "Auto-Restart Failed"

  /** One entry of `monitored_apps`. */
  datatype App = App(
    name: string,
    processName: string,
    status: Status,
    enabled: bool,
    lastCpu: real,
    restartCount: nat,
    executablePath: Option<string>,
    thresholdExceededTime: Option<real>)

  /** The record `add_app` appends for a (stripped) name. */
  function NewApp(name: string): App
  {
    App(name, Text.Lower(name), Active, true, 0.0, 0, None, None)
  }

  /** The answer of `add_app`, in either engine. */
  datatype AddResult = Added | EmptyName | Duplicate

  /** The tunables of `CPUMonitorApp`. */
  datatype Settings = Settings(
    cpuThreshold: real,
    checkInterval: real,
    startupDelay: real,
    monitoringStartupDelay: real,
    cpuThresholdDuration: real,
    filterReolinkErrors: bool,
    gpuFilterFactor: real,
    autoRestartEnabled: bool)

  /** The values `__init__` assigns and `load_settings` falls back to. */
  const DefaultSettings := Settings(50.0, 5.0, 3.0, 10.0, 30.0, true, 0.5, true)

  /** settings.json: every key may be missing. */
  datatype SettingsDoc = SettingsDoc(
    cpuThreshold: Option<real>,
    checkInterval: Option<real>,
    startupDelay: Option<real>,
    monitoringStartupDelay: Option<real>,
    cpuThresholdDuration: Option<real>,
    filterReolinkErrors: Option<bool>,
    gpuFilterFactor: Option<real>,
    autoRestartEnabled: Option<bool>)

  /** What `save_settings` writes. */
  function SaveSettings(s: Settings): SettingsDoc
  {
    SettingsDoc(Some(s.cpuThreshold), Some(s.checkInterval), Some(s.startupDelay),
      Some(s.monitoringStartupDelay), Some(s.cpuThresholdDuration),
      Some(s.filterReolinkErrors), Some(s.gpuFilterFactor), Some(s.autoRestartEnabled))
  }

  /** What `load_settings` assigns from a document: each key's value, or the
      fixed default of that key (not the value held before the load). */
  function SettingsFromDoc(d: SettingsDoc): (s: Settings)
    ensures s.cpuThreshold == if d.cpuThreshold.Some? then d.cpuThreshold.value else DefaultSettings.cpuThreshold
    ensures s.checkInterval == if d.checkInterval.Some? then d.checkInterval.value else DefaultSettings.checkInterval
    ensures s.startupDelay == if d.startupDelay.Some? then d.startupDelay.value else DefaultSettings.startupDelay
    ensures s.monitoringStartupDelay ==
      if d.monitoringStartupDelay.Some? then d.monitoringStartupDelay.value else DefaultSettings.monitoringStartupDelay
    ensures s.cpuThresholdDuration ==
      if d.cpuThresholdDuration.Some? then d.cpuThresholdDuration.value else DefaultSettings.cpuThresholdDuration
    ensures s.filterReolinkErrors ==
      if d.filterReolinkErrors.Some? then d.filterReolinkErrors.value else DefaultSettings.filterReolinkErrors
    ensures s.gpuFilterFactor == if d.gpuFilterFactor.Some? then d.gpuFilterFactor.value else DefaultSettings.gpuFilterFactor
    ensures s.autoRestartEnabled ==
      if d.autoRestartEnabled.Some? then d.autoRestartEnabled.value else DefaultSettings.autoRestartEnabled
  {
    Settings(
      d.cpuThreshold.GetOr(DefaultSettings.cpuThreshold),
      d.checkInterval.GetOr(DefaultSettings.checkInterval),
      d.startupDelay.GetOr(DefaultSettings.startupDelay),
      d.monitoringStartupDelay.GetOr(DefaultSettings.monitoringStartupDelay),
      d.cpuThresholdDuration.GetOr(DefaultSettings.cpuThresholdDuration),
      d.filterReolinkErrors.GetOr(DefaultSettings.filterReolinkErrors),
      d.gpuFilterFactor.GetOr(DefaultSettings.gpuFilterFactor),
      d.autoRestartEnabled.GetOr(DefaultSettings.autoRestartEnabled))
  }

  /** Saving the settings and loading them back gives the same settings. */
  lemma SettingsRoundTrip(s: Settings)
    ensures SettingsFromDoc(SaveSettings(s)) == s
  {
  }

  /** A document with no keys loads as the constructor's defaults. */
  lemma EmptySettingsDocGivesDefaults()
    ensures SettingsFromDoc(SettingsDoc(None, None, None, None, None, None, None, None)) == DefaultSettings
  {
  }

  /** One entry of monitored_apps.json. An old file may lack "enabled" and
      "threshold_exceeded_time"; the latter is `Some(None)` when saved as null. */
  datatype StoredApp = StoredApp(
    name: string,
    processName: string,
    status: Status,
    enabled: Option<bool>,
    lastCpu: real,
    restartCount: nat,
    executablePath: Option<string>,
    thresholdExceededTime: Option<Option<real>>)

  /** What `save_monitored_apps` writes for one app. */
  function SaveApp(a: App): StoredApp
  {
    StoredApp(a.name, a.processName, a.status, Some(a.enabled), a.lastCpu, a.restartCount,
      a.executablePath, Some(a.thresholdExceededTime))
  }

  /** The default-filling `load_monitored_apps` performs on one entry. */
  function FillDefaults(s: StoredApp): (a: App)
    ensures s.enabled.None? ==> a.enabled
    ensures s.thresholdExceededTime.None? ==> a.thresholdExceededTime.None?
    ensures s.enabled.Some? ==> a.enabled == s.enabled.value
    ensures s.thresholdExceededTime.Some? ==> a.thresholdExceededTime == s.thresholdExceededTime.value
    ensures a.name == s.name && a.processName == s.processName && a.status == s.status
    ensures a.lastCpu == s.lastCpu && a.restartCount == s.restartCount && a.executablePath == s.executablePath
  {
    App(s.name, s.processName, s.status, s.enabled.GetOr(true), s.lastCpu, s.restartCount,
      s.executablePath, s.thresholdExceededTime.GetOr(None))
  }

  /** Saving an app and loading it back gives the same app. */
  lemma AppRoundTrip(a: App)
    ensures FillDefaults(SaveApp(a)) == a
  {
  }
}
