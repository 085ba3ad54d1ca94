/** Executable discovery of the enhanced monitor (`find_executable_path`):
    `where`, then six install locations, then the executables of running
    processes whose name contains the app name. */
module Discovery {
  import opened Os
  import opened Text
  import Restart

  /** The install locations `find_executable_path` checks, in order: the
      restart sequences' four, then two more with the name capitalized. */
  function InstallPaths(name: string, user: Option<string>): (paths: seq<string>)
    ensures |paths| == 6 && paths[..4] == Restart.CommonPaths(name, user)
  {
    var cap := Capitalize(name);
    Restart.CommonPaths(name, user) + [
      "C:\\Program Files\\" + cap + "\\" + cap + ".exe",
      "C:\\Program Files (x86)\\" + cap + "\\" + cap + ".exe" ]
  }

  /** The first path of `paths` that exists. */
  function FirstExisting(os: Oracle, paths: seq<string>): (r: Option<nat>)
    ensures r.Some? ==> r.value < |paths| && os.Exists(paths[r.value])
    ensures r.Some? ==> forall j :: 0 <= j < r.value ==> !os.Exists(paths[j])
    ensures r.None? ==> forall j :: 0 <= j < |paths| ==> !os.Exists(paths[j])
  {
    if paths == [] then None
    else if os.Exists(paths[0]) then Some(0)
    else
      match FirstExisting(os, paths[1..])
      case None => None
      case Some(k) => Some(k + 1)
  }

  /** A running process whose executable can stand for the app: its name is
      non-empty and contains the app name (both lower-cased) and its executable
      path is non-empty and exists. */
  predicate ProcessProvides(os: Oracle, name: string, p: ProcInfo)
  {
    Truthy(p.name) && Contains(Lower(p.name.value), Lower(name))
    && Truthy(p.exe) && os.Exists(p.exe.value)
  }

  /** The executable of the first process that provides one. */
  function FirstProvided(os: Oracle, name: string, procs: seq<ProcInfo>): (r: Option<string>)
    ensures r.Some? ==> exists k :: (0 <= k < |procs| && ProcessProvides(os, name, procs[k]) && procs[k].exe == r
      && forall j :: 0 <= j < k ==> !ProcessProvides(os, name, procs[j]))
    ensures r.None? <==> forall k :: 0 <= k < |procs| ==> !ProcessProvides(os, name, procs[k])
  {
    if procs == [] then None
    else if ProcessProvides(os, name, procs[0]) then procs[0].exe
    else
      var r := FirstProvided(os, name, procs[1..]);
      assert forall k :: 0 <= k < |procs[1..]| ==> procs[1..][k] == procs[k + 1];
      if r.Some? then
        var k :| 0 <= k < |procs[1..]| && ProcessProvides(os, name, procs[1..][k]) && procs[1..][k].exe == r
          && forall j :: 0 <= j < k ==> !ProcessProvides(os, name, procs[1..][j]);
        assert ProcessProvides(os, name, procs[k + 1]) && procs[k + 1].exe == r;
        assert forall j :: 0 <= j < k + 1 ==> !ProcessProvides(os, name, procs[j]);
        r
      else r
  }

  /** `find_executable_path(app_name)` as a value. A `where` that exits with 0
      ends the search with its first output line, even an empty one. */
  function FindExecutable(os: Oracle, name: string): Option<string>
  {
    if name in os.whereFirst then Some(os.whereFirst[name])
    else
      var paths := InstallPaths(name, os.username);
      match FirstExisting(os, paths)
      case Some(k) => Some(paths[k])
      case None => FirstProvided(os, name, os.procs)
  }

  /** What the search returns, tier by tier: a path found after `where` failed
      always exists, and nothing is found only when every tier came up empty. */
  lemma FindExecutableSpec(os: Oracle, name: string)
    ensures var r := FindExecutable(os, name);
      && (name in os.whereFirst ==> r == Some(os.whereFirst[name]))
      && (name !in os.whereFirst && r.Some? ==> os.Exists(r.value))
      && (r.None? <==>
            name !in os.whereFirst
            && (forall j :: 0 <= j < 6 ==> !os.Exists(InstallPaths(name, os.username)[j]))
            && (forall k :: 0 <= k < |os.procs| ==> !ProcessProvides(os, name, os.procs[k])))
  {
    var paths := InstallPaths(name, os.username);
    match FirstExisting(os, paths)
    case Some(k) =>
    case None =>
      var r := FirstProvided(os, name, os.procs);
      if r.Some? {
        var k :| 0 <= k < |os.procs| && ProcessProvides(os, name, os.procs[k]) && os.procs[k].exe == r;
      }
  }

  /** `find_executable_path`: the three searches in order, each loop stopping at
      its first hit. */
  method FindExecutablePath(os: Oracle, name: string) returns (path: Option<string>)
    ensures path == FindExecutable(os, name)
  {
    if name in os.whereFirst {
      return Some(os.whereFirst[name]);
    }
    var commonPaths := InstallPaths(name, os.username);
    var found := SearchInstallPaths(os, commonPaths);
    if found.Some? {
      return Some(commonPaths[found.value]);
    }
    path := SearchProcesses(os, name);
  }

  /** The `for path in common_paths` loop: the position of the first path that
      exists. */
  method SearchInstallPaths(os: Oracle, paths: seq<string>) returns (r: Option<nat>)
    ensures r == FirstExisting(os, paths)
  {
    var i := 0;
    while i < |paths|
      invariant 0 <= i <= |paths|
      invariant forall j :: 0 <= j < i ==> !os.Exists(paths[j])
    {
      if os.Exists(paths[i]) {
        FirstExistingAt(os, paths, i);
        return Some(i);
      }
      i := i + 1;
    }
    return None;
  }

  /** The `for proc in psutil.process_iter(...)` loop: the executable of the
      first process that provides one. */
  method SearchProcesses(os: Oracle, name: string) returns (r: Option<string>)
    ensures r == FirstProvided(os, name, os.procs)
  {
    var k := 0;
    while k < |os.procs|
      invariant 0 <= k <= |os.procs|
      invariant FirstProvided(os, name, os.procs) == FirstProvided(os, name, os.procs[k..])
    {
      var p := os.procs[k];
      assert os.procs[k..][0] == p && os.procs[k..][1..] == os.procs[k + 1..];
      if Truthy(p.name) && Contains(Lower(p.name.value), Lower(name)) {
        if Truthy(p.exe) && os.Exists(p.exe.value) {
          return p.exe;
        }
      }
      k := k + 1;
    }
    return None;
  }

  lemma {:induction false} FirstExistingAt(os: Oracle, paths: seq<string>, i: nat)
    requires i < |paths| && os.Exists(paths[i])
    requires forall j :: 0 <= j < i ==> !os.Exists(paths[j])
    ensures FirstExisting(os, paths) == Some(i)
  {
    if i > 0 {
      FirstExistingAt(os, paths[1..], i - 1);
    }
  }
}
