/** The operating system as the monitor sees it. Nothing here is performed by
    the model: psutil's process table, `cpu_percent`, `cpu_times` and
    `terminate`, `os.path.exists`, `subprocess.Popen`, `where` and
    `os.getenv('USERNAME')` are all answers an `Oracle` value gives. */
module Os {

  datatype Option<+T> = None | Some(value: T) {
    function GetOr(default: T): T
    {
      match this
      case Some(v) => v
      case None => default
    }
  }

  /** Python truthiness of an optional string: present and non-empty. */
  predicate Truthy(s: Option<string>)
  {
    s.Some? && s.value != ""
  }

  /** One entry of `psutil.process_iter(["pid", "name", "exe"])`; `None` is
      what psutil reports for a field it could not read. */
  datatype ProcInfo = ProcInfo(pid: int, name: Option<string>, exe: Option<string>)

  datatype Oracle = Oracle(
    /** the process table, in iteration order */
    procs: seq<ProcInfo>,
    /** the reading of the second `cpu_percent()` call, per pid; a pid is absent
        when one of the two calls raised NoSuchProcess or AccessDenied */
    cpu: map<int, real>,
    /** pids whose `cpu_times()` succeeds and has a `user` field */
    userTimes: set<int>,
    /** pids whose `terminate()` does not raise */
    terminable: set<int>,
    /** paths `os.path.exists` accepts */
    existing: set<string>,
    /** commands `subprocess.Popen([cmd])` starts without raising */
    launchable: set<string>,
    /** the USERNAME environment variable */
    username: Option<string>,
    /** names for which `where <name>` exits with status 0, with the first line
        of its stripped output */
    whereFirst: map<string, string>
  ) {
    /** A command of the launch sequence succeeds. */
    predicate Launches(cmd: string)
    {
      cmd in launchable
    }

    predicate Exists(path: string)
    {
      path in existing
    }
  }

  /** The text an f-string renders for `os.getenv('USERNAME')`. */
  function UserText(u: Option<string>): string
  {
    match u
    case Some(v) => v
    case None => "None"
  }
}
