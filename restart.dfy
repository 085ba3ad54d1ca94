/** The two restart sequences of the enhanced monitor: `restart_app` (after a
    sustained overload) and `restart_terminated_app` (after the app vanished),
    with the launch tiers they share. */
module Restart {
  import opened Os
  import opened Text
  import opened Records
  import Sampling

  /** `restart_app` terminates a process when its name is non-empty and the
      lower-cased app name or process name occurs in the lower-cased process
      name, or the app name occurs in its non-empty executable path. */
  predicate KillMatches(a: App, p: ProcInfo)
  {
    Truthy(p.name)
    && (Contains(Lower(p.name.value), Lower(a.name))
        || Contains(Lower(p.name.value), Lower(a.processName))
        || (Truthy(p.exe) && Contains(Lower(p.exe.value), Lower(a.name))))
  }

  /** A matching process is killed when `terminate()` does not raise. */
  predicate Killed(os: Oracle, a: App, p: ProcInfo)
  {
    KillMatches(a, p) && p.pid in os.terminable
  }

  /** `killed_count` after the kill loop has seen a prefix of the table. */
  function KilledOf(os: Oracle, procs: seq<ProcInfo>, a: App): nat
  {
    if procs == [] then 0
    else KilledOf(os, procs[..|procs| - 1], a) + (if Killed(os, a, procs[|procs| - 1]) then 1 else 0)
  }

  function KilledCount(os: Oracle, a: App): nat
  {
    KilledOf(os, os.procs, a)
  }

  /** The kill loop of `restart_app`. */
  method TerminateMatching(os: Oracle, a: App) returns (killedCount: nat)
    ensures killedCount == KilledCount(os, a)
    ensures killedCount <= |os.procs|
  {
    killedCount := 0;
    var i := 0;
    while i < |os.procs|
      invariant 0 <= i <= |os.procs|
      invariant killedCount == KilledOf(os, os.procs[..i], a)
      invariant killedCount <= i
    {
      var p := os.procs[i];
      assert os.procs[..i + 1][..i] == os.procs[..i];
      if Truthy(p.name) {
        var nameLower := Lower(p.name.value);
        var exeLower := if Truthy(p.exe) then Lower(p.exe.value) else "";
        if Contains(nameLower, Lower(a.name)) || Contains(nameLower, Lower(a.processName))
          || (exeLower != "" && Contains(exeLower, Lower(a.name)))
        {
          if p.pid in os.terminable {
            killedCount := killedCount + 1;
          }
        }
      }
      i := i + 1;
    }
    assert os.procs[..i] == os.procs;
  }

  /** Nothing is killed exactly when no process both matches and can be
      terminated. */
  lemma {:induction false} KilledZeroIff(os: Oracle, procs: seq<ProcInfo>, a: App)
    ensures KilledOf(os, procs, a) == 0 <==> forall k :: 0 <= k < |procs| ==> !Killed(os, a, procs[k])
  {
    if procs != [] {
      var init := procs[..|procs| - 1];
      KilledZeroIff(os, init, a);
      forall k | 0 <= k < |init| ensures init[k] == procs[k] { }
    }
  }

  /** Every process the sampler counts for an app is one the restart kills if
      it can. */
  lemma SampledIsKillTarget(a: App, p: ProcInfo)
    requires Sampling.Matches(a.name, p)
    ensures KillMatches(a, p)
  {
  }

  /** The four conventional install locations tried after the stored path. */
  function CommonPaths(name: string, user: Option<string>): (paths: seq<string>)
    ensures |paths| == 4
  {
    [ "C:\\Program Files\\" + name + "\\" + name + ".exe",
      "C:\\Program Files (x86)\\" + name + "\\" + name + ".exe",
      "C:\\Users\\" + UserText(user) + "\\AppData\\Local\\" + name + "\\" + name + ".exe",
      "C:\\Users\\" + UserText(user) + "\\AppData\\Roaming\\" + name + "\\" + name + ".exe" ]
  }

  /** A candidate path is used when it exists and `Popen` starts it. */
  predicate CandidateWorks(os: Oracle, path: string)
  {
    os.Exists(path) && os.Launches(path)
  }

  /** The index of the first working candidate. */
  function FirstWorking(os: Oracle, paths: seq<string>): (r: Option<nat>)
    ensures r.Some? ==> r.value < |paths| && CandidateWorks(os, paths[r.value])
    ensures r.Some? ==> forall j :: 0 <= j < r.value ==> !CandidateWorks(os, paths[j])
    ensures r.None? ==> forall j :: 0 <= j < |paths| ==> !CandidateWorks(os, paths[j])
  {
    if paths == [] then None
    else if CandidateWorks(os, paths[0]) then Some(0)
    else
      match FirstWorking(os, paths[1..])
      case None => None
      case Some(k) => Some(k + 1)
  }

  /** Which launch attempt succeeded. */
  datatype Tier = StoredPath | CommonPath(index: nat) | ByName | Exhausted

  /** The outcome of the launch tiers and the executable path afterwards. */
  datatype Launch = Launch(tier: Tier, exePath: Option<string>) {
    predicate Success() { !tier.Exhausted? }
  }

  /** The stored path is used when it is set, non-empty, exists and starts. */
  predicate StoredWorks(os: Oracle, exePath: Option<string>)
  {
    Truthy(exePath) && os.Exists(exePath.value) && os.Launches(exePath.value)
  }

  /** The launch tiers: the stored path, then the common paths (the first that
      exists and starts is written back as the executable path), then the bare
      name. */
  function Relaunch(os: Oracle, name: string, exePath: Option<string>): Launch
  {
    if StoredWorks(os, exePath) then Launch(StoredPath, exePath)
    else
      match FirstWorking(os, CommonPaths(name, os.username))
      case Some(k) => Launch(CommonPath(k), Some(CommonPaths(name, os.username)[k]))
      case None => Launch(if os.Launches(name) then ByName else Exhausted, exePath)
  }

  /** The tiers in the order they are tried, each one reached only when every
      earlier one failed. */
  lemma RelaunchOrder(os: Oracle, name: string, exePath: Option<string>)
    ensures var r := Relaunch(os, name, exePath);
      && (r.tier == StoredPath <==> StoredWorks(os, exePath))
      && (r.tier.CommonPath? <==>
            !StoredWorks(os, exePath)
            && exists k :: 0 <= k < 4 && CandidateWorks(os, CommonPaths(name, os.username)[k]))
      && (r.tier.CommonPath? ==>
            var k := r.tier.index;
            && k < 4
            && CandidateWorks(os, CommonPaths(name, os.username)[k])
            && (forall j :: 0 <= j < k ==> !CandidateWorks(os, CommonPaths(name, os.username)[j]))
            && r.exePath == Some(CommonPaths(name, os.username)[k]))
      && (r.tier == ByName <==>
            !StoredWorks(os, exePath)
            && (forall k :: 0 <= k < 4 ==> !CandidateWorks(os, CommonPaths(name, os.username)[k]))
            && os.Launches(name))
      && (!r.tier.CommonPath? ==> r.exePath == exePath)
      && (r.Success() <==>
            StoredWorks(os, exePath)
            || (exists k :: 0 <= k < 4 && CandidateWorks(os, CommonPaths(name, os.username)[k]))
            || os.Launches(name))
  {
    var paths := CommonPaths(name, os.username);
    match FirstWorking(os, paths)
    case None =>
    case Some(k) =>
  }

  /** The launch tiers as `restart_app` and `restart_terminated_app` run them:
      a loop over the common paths that stops at the first that starts. */
  method TryRelaunch(os: Oracle, name: string, exePath: Option<string>)
    returns (restartSuccess: bool, newPath: Option<string>)
    ensures restartSuccess == Relaunch(os, name, exePath).Success()
    ensures newPath == Relaunch(os, name, exePath).exePath
  {
    if Truthy(exePath) && os.Exists(exePath.value) && os.Launches(exePath.value) {
      return true, exePath;
    }
    var commonPaths := CommonPaths(name, os.username);
    var i := 0;
    while i < |commonPaths|
      invariant 0 <= i <= |commonPaths|
      invariant forall j :: 0 <= j < i ==> !CandidateWorks(os, commonPaths[j])
    {
      var path := commonPaths[i];
      if os.Exists(path) && os.Launches(path) {
        FirstWorkingAt(os, commonPaths, i);
        return true, Some(path);
      }
      i := i + 1;
    }
    return os.Launches(name), exePath;
  }

  /** The first working candidate is the one a left-to-right scan stops at. */
  lemma {:induction false} FirstWorkingAt(os: Oracle, paths: seq<string>, i: nat)
    requires i < |paths| && CandidateWorks(os, paths[i])
    requires forall j :: 0 <= j < i ==> !CandidateWorks(os, paths[j])
    ensures FirstWorking(os, paths) == Some(i)
  {
    if i > 0 {
      FirstWorkingAt(os, paths[1..], i - 1);
    }
  }

  /** `restart_app` on one app record. With nothing killed, nothing changes. A
      negative startup delay makes `time.sleep` raise after the kill, which the
      method's own handler swallows, so the record is left as it was. Otherwise
      the launch tiers run: on success the count goes up by one and the status is
      "Restarted", else the status is "Restart Failed". */
  function OverloadRestart(os: Oracle, a: App, startupDelay: real): App
  {
    if KilledCount(os, a) == 0 then a
    else if startupDelay < 0.0 then a
    else
      var l := Relaunch(os, a.name, a.executablePath);
      if l.Success() then a.(restartCount := a.restartCount + 1, status := Restarted, executablePath := l.exePath)
      else a.(status := RestartFailed, executablePath := l.exePath)
  }

  /** `restart_terminated_app` on one app record: "Restarting" is overwritten by
      "Auto-Restarted" (count up by one) or "Auto-Restart Failed". */
  function TerminationRestart(os: Oracle, a: App): App
  {
    var l := Relaunch(os, a.name, a.executablePath);
    if l.Success() then a.(restartCount := a.restartCount + 1, status := AutoRestarted, executablePath := l.exePath)
    else a.(status := AutoRestartFailed, executablePath := l.exePath)
  }

  /** With zero processes killed the record is unchanged. */
  lemma OverloadNoKillNoChange(os: Oracle, a: App, startupDelay: real)
    requires forall k :: 0 <= k < |os.procs| ==> !Killed(os, a, os.procs[k])
    ensures OverloadRestart(os, a, startupDelay) == a
  {
    KilledZeroIff(os, os.procs, a);
  }

  /** After at least one kill (and a delay `time.sleep` accepts) the record ends
      "Restarted" with the count up by one exactly when a tier launched, and
      "Restart Failed" with the count unchanged otherwise; only status, count
      and executable path can change. */
  lemma OverloadOutcome(os: Oracle, a: App, startupDelay: real)
    requires exists k :: 0 <= k < |os.procs| && Killed(os, a, os.procs[k])
    requires startupDelay >= 0.0
    ensures var r := OverloadRestart(os, a, startupDelay);
      var launched := Relaunch(os, a.name, a.executablePath).Success();
      && (r.status == Restarted <==> launched)
      && (r.status == RestartFailed <==> !launched)
      && r.restartCount == a.restartCount + (if launched then 1 else 0)
      && r.executablePath == Relaunch(os, a.name, a.executablePath).exePath
      && r.(status := a.status, restartCount := a.restartCount, executablePath := a.executablePath) == a
  {
    KilledZeroIff(os, os.procs, a);
  }

  /** The count never goes down and rises by at most one, and only together with
      the status "Restarted". */
  lemma OverloadCount(os: Oracle, a: App, startupDelay: real)
    ensures var r := OverloadRestart(os, a, startupDelay);
      && (r.restartCount == a.restartCount || r.restartCount == a.restartCount + 1)
      && (r.restartCount == a.restartCount + 1 <==> r.status == Restarted && a != r)
  {
  }

  /** The auto-restart always leaves "Auto-Restarted" (count up by one, when a
      tier launched) or "Auto-Restart Failed" (count unchanged); it never leaves
      "Terminated" or "Restarting". */
  lemma TerminationOutcome(os: Oracle, a: App)
    ensures var r := TerminationRestart(os, a);
      var launched := Relaunch(os, a.name, a.executablePath).Success();
      && (r.status == AutoRestarted <==> launched)
      && (r.status == AutoRestartFailed <==> !launched)
      && r.restartCount == a.restartCount + (if launched then 1 else 0)
      && r.executablePath == Relaunch(os, a.name, a.executablePath).exePath
      && r.(status := a.status, restartCount := a.restartCount, executablePath := a.executablePath) == a
  {
  }
}
