/** From a process to the root of its application: the bounded parent-chain
    walk, and the climb along ancestors that run the same executable. */
module ProcessResolver {
  import opened Base
  import opened Text

  datatype ProcessInfo = ProcessInfo(pid: uint32, path: string, name: string, creationTime: uint64)

  datatype ProcessTreeResult = ProcessTreeResult(
    succeeded: bool,
    rootPid: uint32,
    rootCreationTime: uint64,
    rootName: string,
    rootPath: string)

  const SYSTEM_PROCESSES: seq<string> := [
    "explorer.exe", "dwm.exe", "csrss.exe", "lsass.exe", "lsm.exe",
    "svchost.exe", "services.exe", "winlogon.exe", "wininit.exe",
    "userinit.exe", "taskhostw.exe", "runtimebroker.exe", "sihost.exe",
    "searchindexer.exe", "ctfmon.exe", "conhost.exe", "fontdrvhost.exe",
    "dllhost.exe", "smss.exe", "applicationframehost.exe",
    "shellexperiencehost.exe", "searchui.exe", "taskbar.exe",
    "startmenuexperiencehost.exe", "system", "idle"]

  predicate IsSystemProcess(name: string) {
    ToLower(name) in SYSTEM_PROCESSES
  }

  /** At least one path is unknown, so only the names can be compared. */
  predicate NeedsBasenameFallback(session: ProcessInfo, ancestor: ProcessInfo) {
    session.path == "" || ancestor.path == ""
  }

  predicate SameExecutableFamily(session: ProcessInfo, ancestor: ProcessInfo) {
    if !NeedsBasenameFallback(session, ancestor) then
      IEquals(session.path, ancestor.path)
    else
      session.name != "" && ancestor.name != "" && IEquals(session.name, ancestor.name)
  }

  /** The ancestor belongs to the session's application. */
  predicate Qualifies(session: ProcessInfo, ancestor: ProcessInfo) {
    && !IsSystemProcess(ancestor.name)
    && ancestor.creationTime != 0
    && SameExecutableFamily(session, ancestor)
  }

  /** `r` ends the longest unbroken run of qualifying ancestors. */
  ghost predicate IsRootIndex(chain: seq<ProcessInfo>, r: nat) {
    && r < |chain|
    && (forall i :: 1 <= i <= r ==> Qualifies(chain[0], chain[i]))
    && (r + 1 < |chain| ==> !Qualifies(chain[0], chain[r + 1]))
  }

  /** No run of qualifying ancestors reaches past the root. */
  lemma RootIndexIsMaximal(chain: seq<ProcessInfo>, r: nat, k: nat)
    requires IsRootIndex(chain, r) && k < |chain|
    requires forall i :: 1 <= i <= k ==> Qualifies(chain[0], chain[i])
    ensures k <= r
  {
  }

  lemma RootIndexUnique(chain: seq<ProcessInfo>, r: nat, r': nat)
    requires IsRootIndex(chain, r) && IsRootIndex(chain, r')
    ensures r == r'
  {
    RootIndexIsMaximal(chain, r, r');
    RootIndexIsMaximal(chain, r', r);
  }

  function Climb(chain: seq<ProcessInfo>, from: nat): (r: nat)
    requires from < |chain|
    requires forall i :: 1 <= i <= from ==> Qualifies(chain[0], chain[i])
    ensures IsRootIndex(chain, r)
    decreases |chain| - from
  {
    if from + 1 < |chain| && Qualifies(chain[0], chain[from + 1]) then Climb(chain, from + 1)
    else from
  }

  function RootIndex(chain: seq<ProcessInfo>): (r: nat)
    ensures if chain == [] then r == 0 else IsRootIndex(chain, r)
  {
    if chain == [] then 0 else Climb(chain, 0)
  }

  /** In plain terms: the climb reaches ancestor `k` exactly when it and all
      before it are no system processes, can be queried, and run the same
      executable, by path or, where a path is unknown, by name. */
  lemma {:induction false} RootReachesIff(chain: seq<ProcessInfo>, k: nat)
    requires k < |chain|
    ensures k <= RootIndex(chain) <==>
            forall i :: 1 <= i <= k ==>
              && ToLower(chain[i].name) !in SYSTEM_PROCESSES
              && chain[i].creationTime != 0
              && (chain[0].path != "" && chain[i].path != "" ==> ToLower(chain[i].path) == ToLower(chain[0].path))
              && (chain[0].path == "" || chain[i].path == "" ==>
                    chain[0].name != "" && chain[i].name != "" && ToLower(chain[i].name) == ToLower(chain[0].name))
  {
    forall i | 1 <= i <= k
      ensures Qualifies(chain[0], chain[i]) <==>
              && ToLower(chain[i].name) !in SYSTEM_PROCESSES
              && chain[i].creationTime != 0
              && (chain[0].path != "" && chain[i].path != "" ==> ToLower(chain[i].path) == ToLower(chain[0].path))
              && (chain[0].path == "" || chain[i].path == "" ==>
                    chain[0].name != "" && chain[i].name != "" && ToLower(chain[i].name) == ToLower(chain[0].name))
    {
      IEqualsIsEqualityOfLower(chain[0].path, chain[i].path);
      IEqualsIsEqualityOfLower(chain[0].name, chain[i].name);
    }
    if forall i :: 1 <= i <= k ==> Qualifies(chain[0], chain[i]) {
      RootIndexIsMaximal(chain, RootIndex(chain), k);
    }
  }

  /** The shell and the service processes never become an application's root. */
  lemma ShellEndsTheClimb(chain: seq<ProcessInfo>, i: nat)
    requires 1 <= i < |chain|
    requires ToLower(chain[i].name) in {"explorer.exe", "svchost.exe", "services.exe", "winlogon.exe", "sihost.exe"}
    ensures RootIndex(chain) < i
  {
    assert SYSTEM_PROCESSES[0] == "explorer.exe" && SYSTEM_PROCESSES[5] == "svchost.exe";
    assert SYSTEM_PROCESSES[6] == "services.exe" && SYSTEM_PROCESSES[7] == "winlogon.exe";
    assert SYSTEM_PROCESSES[12] == "sihost.exe";
    RootReachesIff(chain, i);
  }

  method FindApplicationRootIndex(processes: seq<ProcessInfo>)
    returns (rootIndex: nat, usedBasenameFallback: bool)
    ensures rootIndex == RootIndex(processes)
    ensures usedBasenameFallback <==>
            exists i :: 1 <= i <= rootIndex && i < |processes|
                        && NeedsBasenameFallback(processes[0], processes[i])
  {
    usedBasenameFallback := false;
    rootIndex := 0;
    if |processes| == 0 {
      return;
    }
    var i := 1;
    while i < |processes|
      invariant 1 <= i <= |processes| && rootIndex == i - 1
      invariant forall k :: 1 <= k < i ==> Qualifies(processes[0], processes[k])
      invariant usedBasenameFallback <==>
                exists k :: 1 <= k < i && NeedsBasenameFallback(processes[0], processes[k])
    {
      var ancestor := processes[i];
      if IsSystemProcess(ancestor.name) || ancestor.creationTime == 0
         || !SameExecutableFamily(processes[0], ancestor) {
        break;
      }
      if NeedsBasenameFallback(processes[0], ancestor) {
        usedBasenameFallback := true;
      }
      rootIndex := i;
      i := i + 1;
    }
    RootIndexUnique(processes, rootIndex, RootIndex(processes));
  }

  // ---- The parent chain ----

  const MAX_CHAIN_LENGTH: nat := 256

  /** What the OS reports about a process when it is queried on its own. */
  datatype ProcessDetails = ProcessDetails(path: string, toolhelpName: string, creationTime: uint64)

  datatype Snapshot = Snapshot(parents: map<uint32, uint32>, details: uint32 -> ProcessDetails)

  function Chain(parents: map<uint32, uint32>, pid: uint32, budget: nat): (chain: seq<uint32>)
    ensures |chain| <= budget
    ensures 0 !in chain
    ensures pid != 0 && budget > 0 ==> chain != [] && chain[0] == pid
    decreases budget
  {
    if pid == 0 || budget == 0 then []
    else [pid] + if pid in parents then Chain(parents, parents[pid], budget - 1) else []
  }

  /** The chain follows the parents, and ends before pid 0, behind a process
      without an entry, or at the limit. */
  lemma {:induction false} ChainFollowsParents(parents: map<uint32, uint32>, pid: uint32, budget: nat, i: nat)
    requires i < |Chain(parents, pid, budget)|
    ensures var chain := Chain(parents, pid, budget);
            && chain[0] == pid
            && (i + 1 < |chain| ==> chain[i] in parents && chain[i + 1] == parents[chain[i]])
            && (i + 1 == |chain| < budget ==> chain[i] !in parents || parents[chain[i]] == 0)
    decreases budget
  {
    if pid in parents {
      var rest := Chain(parents, parents[pid], budget - 1);
      assert Chain(parents, pid, budget) == [pid] + rest;
      if i > 0 {
        ChainFollowsParents(parents, parents[pid], budget - 1, i - 1);
      }
    }
  }

  lemma ChainNext(parents: map<uint32, uint32>, pid: uint32, budget: nat, before: seq<uint32>)
    requires pid != 0 && budget > 0
    ensures before + Chain(parents, pid, budget) ==
            before + [pid] + if pid in parents then Chain(parents, parents[pid], budget - 1) else []
  {
  }

  method WalkChain(parents: map<uint32, uint32>, target: uint32) returns (chain: seq<uint32>)
    ensures chain == Chain(parents, target, MAX_CHAIN_LENGTH)
  {
    chain := [];
    var current := target;
    var steps := 0;
    while current != 0 && steps < MAX_CHAIN_LENGTH
      invariant 0 <= steps <= MAX_CHAIN_LENGTH
      invariant Chain(parents, target, MAX_CHAIN_LENGTH) ==
                chain + Chain(parents, current, MAX_CHAIN_LENGTH - steps)
      decreases MAX_CHAIN_LENGTH - steps
    {
      ChainNext(parents, current, MAX_CHAIN_LENGTH - steps, chain);
      chain := chain + [current];
      if current !in parents {
        return;
      }
      current := parents[current];
      steps := steps + 1;
    }
  }

  function Describe(snapshot: Snapshot, pid: uint32): ProcessInfo {
    var d := snapshot.details(pid);
    var fromPath := Basename(d.path);
    ProcessInfo(pid, d.path, if fromPath != "" then fromPath else d.toolhelpName, d.creationTime)
  }

  function DescribeAll(snapshot: Snapshot, pids: seq<uint32>): (r: seq<ProcessInfo>)
    ensures |r| == |pids|
  {
    seq(|pids|, i requires 0 <= i < |pids| => Describe(snapshot, pids[i]))
  }

  function AncestorChain(snapshot: Snapshot, limit: nat, pid: uint32): seq<uint32> {
    Chain(snapshot.parents, pid, limit)
  }

  /** The resolution, when chains are cut at `limit` processes. */
  function ResolveWithin(snapshot: Snapshot, limit: nat, target: uint32): ProcessTreeResult {
    TreeOf(DescribeAll(snapshot, AncestorChain(snapshot, limit, target)))
  }

  function ResolveProcessTree(snapshot: Snapshot, target: uint32): ProcessTreeResult {
    ResolveWithin(snapshot, MAX_CHAIN_LENGTH, target)
  }

  function TreeOf(infos: seq<ProcessInfo>): ProcessTreeResult {
    if infos == [] then ProcessTreeResult(true, 0, 0, "", "")
    else
      var root := infos[RootIndex(infos)];
      ProcessTreeResult(true, root.pid, root.creationTime, root.name, root.path)
  }

  /** The root is the process on the target's chain where the climb ends, as the
      OS describes it; its name comes from its path where that is known. */
  lemma ResolvedRootIsDescribed(snapshot: Snapshot, target: uint32)
    requires target != 0
    ensures var chain := Chain(snapshot.parents, target, 256);
            var r := RootIndex(DescribeAll(snapshot, chain));
            var tree := ResolveProcessTree(snapshot, target);
            && r < |chain| && tree.succeeded && tree.rootPid == chain[r]
            && tree.rootPath == snapshot.details(chain[r]).path
            && tree.rootCreationTime == snapshot.details(chain[r]).creationTime
            && tree.rootName == (if Basename(tree.rootPath) != "" then Basename(tree.rootPath)
                                 else snapshot.details(chain[r]).toolhelpName)
  {
  }
}
