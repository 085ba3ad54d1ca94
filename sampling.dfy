/** CPU sampling of the enhanced monitor: which processes belong to an app
    (`get_app_cpu_usage_detailed`) and the GPU discount (`_filter_gpu_usage`). */
module Sampling {
  import opened Os
  import opened Text

  /** The aggregate an app sample yields: summed filtered CPU and the number of
      processes that contributed. */
  datatype Sample = Sample(cpu: real, count: nat)

  /** A process belongs to `appName` when its name is non-empty and the
      lower-cased app name occurs in the lower-cased process name or in a
      non-empty executable path. */
  predicate Matches(appName: string, p: ProcInfo)
  {
    Truthy(p.name)
    && (Contains(Lower(p.name.value), Lower(appName))
        || (Truthy(p.exe) && Contains(Lower(p.exe.value), Lower(appName))))
  }

  /** A matching process is counted when both `cpu_percent()` calls succeed. */
  predicate Counted(os: Oracle, appName: string, p: ProcInfo)
  {
    Matches(appName, p) && p.pid in os.cpu
  }

  /** `_filter_gpu_usage`: the raw reading scaled by the factor, clamped at zero
      only on the branch where the process's user time could be read. */
  function FilterGpu(raw: real, hasUserTime: bool, factor: real): (r: real)
    ensures hasUserTime ==> r >= 0.0 && r >= raw * factor
    ensures hasUserTime ==> (r == raw * factor || r == 0.0)
    ensures !hasUserTime ==> r == raw * factor
  {
    if hasUserTime then
      (if raw * factor > 0.0 then raw * factor else 0.0)
    else
      raw * factor
  }

  /** The filtered CPU one counted process adds to the total. */
  function Contribution(os: Oracle, p: ProcInfo, factor: real): real
    requires p.pid in os.cpu
  {
    FilterGpu(os.cpu[p.pid], p.pid in os.userTimes, factor)
  }

  /** The sample over a prefix of the process table, accumulated in table order. */
  function SampleOf(os: Oracle, procs: seq<ProcInfo>, appName: string, factor: real): Sample
  {
    if procs == [] then Sample(0.0, 0)
    else
      var prev := SampleOf(os, procs[..|procs| - 1], appName, factor);
      var p := procs[|procs| - 1];
      if Counted(os, appName, p) then Sample(prev.cpu + Contribution(os, p, factor), prev.count + 1)
      else prev
  }

  /** `get_app_cpu_usage_detailed(app_name)` as a value. */
  function SampleApp(os: Oracle, appName: string, factor: real): Sample
  {
    SampleOf(os, os.procs, appName, factor)
  }

  /** `get_app_cpu_usage_detailed`: walks the process table once, adding up
      the filtered CPU of every counted process. */
  method GetAppCpuUsageDetailed(os: Oracle, appName: string, factor: real)
    returns (totalCpu: real, processCount: nat)
    ensures Sample(totalCpu, processCount) == SampleApp(os, appName, factor)
    ensures processCount <= |os.procs|
  {
    totalCpu, processCount := 0.0, 0;
    var i := 0;
    while i < |os.procs|
      invariant 0 <= i <= |os.procs|
      invariant Sample(totalCpu, processCount) == SampleOf(os, os.procs[..i], appName, factor)
      invariant processCount <= i
    {
      var p := os.procs[i];
      assert os.procs[..i + 1][..i] == os.procs[..i];
      if Truthy(p.name) {
        var nameLower := Lower(p.name.value);
        var exeLower := if Truthy(p.exe) then Lower(p.exe.value) else "";
        if Contains(nameLower, Lower(appName)) || (exeLower != "" && Contains(exeLower, Lower(appName))) {
          if p.pid in os.cpu {
            var rawCpu := os.cpu[p.pid];
            var cpu := FilterGpu(rawCpu, p.pid in os.userTimes, factor);
            totalCpu := totalCpu + cpu;
            processCount := processCount + 1;
          }
        }
      }
      i := i + 1;
    }
    assert os.procs[..i] == os.procs;
  }

  /** No process at all is counted exactly when the count is zero: the
      condition the tick reads as "terminated". */
  lemma {:induction false} CountZeroIff(os: Oracle, procs: seq<ProcInfo>, appName: string, factor: real)
    ensures SampleOf(os, procs, appName, factor).count == 0
        <==> forall k :: 0 <= k < |procs| ==> !Counted(os, appName, procs[k])
  {
    if procs != [] {
      var init := procs[..|procs| - 1];
      CountZeroIff(os, init, appName, factor);
      forall k | 0 <= k < |init| ensures init[k] == procs[k] { }
    }
  }

  /** Every counted process raises the count by one. */
  lemma {:induction false} CountBounded(os: Oracle, procs: seq<ProcInfo>, appName: string, factor: real)
    ensures SampleOf(os, procs, appName, factor).count <= |procs|
  {
    if procs != [] {
      CountBounded(os, procs[..|procs| - 1], appName, factor);
    }
  }

  /** With a non-negative factor and non-negative raw readings the aggregate is
      non-negative, whichever filtering branch each process took. */
  lemma {:induction false} CpuNonNegative(os: Oracle, procs: seq<ProcInfo>, appName: string, factor: real)
    requires factor >= 0.0
    requires forall pid :: pid in os.cpu ==> os.cpu[pid] >= 0.0
    ensures SampleOf(os, procs, appName, factor).cpu >= 0.0
  {
    if procs != [] {
      CpuNonNegative(os, procs[..|procs| - 1], appName, factor);
    }
  }

  /** A process whose name is missing or empty never counts, whatever its
      executable path. */
  lemma NamelessNeverCounted(os: Oracle, appName: string, p: ProcInfo)
    requires !Truthy(p.name)
    ensures !Counted(os, appName, p)
  {
  }

  /** A process whose lower-cased name contains the lower-cased app name and
      whose CPU can be read always counts. */
  lemma NameMatchCounted(os: Oracle, appName: string, p: ProcInfo)
    requires Truthy(p.name) && Contains(Lower(p.name.value), Lower(appName))
    requires p.pid in os.cpu
    ensures Counted(os, appName, p)
  {
  }
}
