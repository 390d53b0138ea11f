/** Mount-point selection for a controller (src/cgroups/v1/util.rs). */
module Util {
  import opened Wrappers
  import opened Paths
  import opened Errors
  import opened Procfs
  import opened Controllers

  /**
   * The `find` predicate: on a "cgroup" record, net_cls and net_prio also
   * accept a directory that co-mounts both (in either order), and cpu also
   * accepts "cpu,cpuacct". Every other case, including every record of
   * another filesystem type, tests whether the mount point ends with the
   * subsystem name.
   */
  predicate MountMatches(m: MountInfo, subsystem: string) {
    if m.fsType == "cgroup" && subsystem == "net_cls" then
      EndsWithName(m.mountPoint, "net_cls,net_prio")
      || EndsWithName(m.mountPoint, "net_prio,net_cls")
      || EndsWithName(m.mountPoint, "net_cls")
    else if m.fsType == "cgroup" && subsystem == "net_prio" then
      EndsWithName(m.mountPoint, "net_cls,net_prio")
      || EndsWithName(m.mountPoint, "net_prio,net_cls")
      || EndsWithName(m.mountPoint, "net_prio")
    else if m.fsType == "cgroup" && subsystem == "cpu" then
      EndsWithName(m.mountPoint, "cpu,cpuacct")
      || EndsWithName(m.mountPoint, "cpu")
    else
      EndsWithName(m.mountPoint, subsystem)
  }

  predicate LastIs(p: Path, name: string) {
    |p.parts| > 0 && p.parts[|p.parts| - 1] == name
  }

  /** `Iterator::find` over the mount table: the index of the first matching record. */
  function FindMount(mounts: seq<MountInfo>, subsystem: string): (r: Option<nat>)
    ensures r.Some? ==> r.value < |mounts| && MountMatches(mounts[r.value], subsystem)
    ensures r.Some? ==> forall j :: 0 <= j < r.value ==> !MountMatches(mounts[j], subsystem)
    ensures r.None? ==> forall j :: 0 <= j < |mounts| ==> !MountMatches(mounts[j], subsystem)
    decreases |mounts|
  {
    if mounts == [] then None
    else if MountMatches(mounts[0], subsystem) then Some(0)
    else
      match FindMount(mounts[1..], subsystem)
      case None => None
      case Some(i) => Some(i + 1)
  }

  /**
   * `get_subsystem_mount_points`: the mount point of the first record of
   * the mount table that satisfies the predicate; the read error if the
   * table cannot be read; MountNotFound if no record satisfies it.
   */
  function GetSubsystemMountPoints(host: Snapshot, subsystem: string): Result<Path, Error>
  {
    match host.mountinfo
    case Err(e) => Err(e)
    case Ok(mounts) =>
      match FindMount(mounts, subsystem)
      case None => Err(MountNotFound(subsystem))
      case Some(i) => Ok(mounts[i].mountPoint)
  }

  /** Record `i` satisfies the predicate and no earlier record does. */
  predicate IsFirstMatch(mounts: seq<MountInfo>, subsystem: string, i: nat) {
    i < |mounts| && MountMatches(mounts[i], subsystem)
    && forall j :: 0 <= j < i ==> !MountMatches(mounts[j], subsystem)
  }

  /** Explains `GetSubsystemMountPoints`: the read error, or MountNotFound exactly when no record
      satisfies the predicate, or the mount point of the first record that does. */
  lemma MountPointIsFirstMatch(host: Snapshot, subsystem: string)
    ensures host.mountinfo.Err? ==> GetSubsystemMountPoints(host, subsystem) == Err(host.mountinfo.error)
    ensures host.mountinfo.Ok? ==>
      var mounts := host.mountinfo.value;
      var r := GetSubsystemMountPoints(host, subsystem);
      && (r.Err? <==> forall j :: 0 <= j < |mounts| ==> !MountMatches(mounts[j], subsystem))
      && (r.Err? ==> r.error == MountNotFound(subsystem))
      && (r.Ok? ==> exists i :: 0 <= i < |mounts| && IsFirstMatch(mounts, subsystem, i) && r.value == mounts[i].mountPoint)
  {
  }

  /** The first matching record is the one selected. */
  lemma FirstMatchIsSelected(host: Snapshot, subsystem: string, i: nat)
    requires host.mountinfo.Ok? && IsFirstMatch(host.mountinfo.value, subsystem, i)
    ensures GetSubsystemMountPoints(host, subsystem) == Ok(host.mountinfo.value[i].mountPoint)
  {
  }

  /** On a cgroup record, net_cls matches exactly the three accepted last components. */
  lemma NetClsMatch(m: MountInfo)
    requires m.fsType == "cgroup"
    ensures MountMatches(m, "net_cls") <==>
      LastIs(m.mountPoint, "net_cls,net_prio") || LastIs(m.mountPoint, "net_prio,net_cls") || LastIs(m.mountPoint, "net_cls")
  {
  }

  /** On a cgroup record, net_prio matches the same co-mounted pair, or "net_prio" alone. */
  lemma NetPrioMatch(m: MountInfo)
    requires m.fsType == "cgroup"
    ensures MountMatches(m, "net_prio") <==>
      LastIs(m.mountPoint, "net_cls,net_prio") || LastIs(m.mountPoint, "net_prio,net_cls") || LastIs(m.mountPoint, "net_prio")
  {
  }

  /** On a cgroup record, cpu matches "cpu,cpuacct" or "cpu" only: never "cpuset" or "cpuacct,cpu". */
  lemma CpuMatch(m: MountInfo)
    requires m.fsType == "cgroup"
    ensures MountMatches(m, "cpu") <==> LastIs(m.mountPoint, "cpu,cpuacct") || LastIs(m.mountPoint, "cpu")
    ensures LastIs(m.mountPoint, "cpuset") || LastIs(m.mountPoint, "cpuacct,cpu") ==> !MountMatches(m, "cpu")
  {
  }

  /**
   * Any other pair of record and subsystem, including a record of another
   * filesystem type for net_cls, net_prio or cpu, is a plain component-wise
   * `ends_with` test.
   */
  lemma GenericMatch(m: MountInfo, subsystem: string)
    requires m.fsType != "cgroup" || subsystem !in {"net_cls", "net_prio", "cpu"}
    ensures MountMatches(m, subsystem) <==> EndsWithName(m.mountPoint, subsystem)
  {
  }

  /** A record of a filesystem other than "cgroup" whose last component is the
      name is selected, when it comes first. */
  lemma NonCgroupRecordIsSelected(host: Snapshot, subsystem: string)
    requires subsystem != ""
    requires host.mountinfo.Ok? && |host.mountinfo.value| > 0
    requires host.mountinfo.value[0].fsType != "cgroup"
    requires LastIs(host.mountinfo.value[0].mountPoint, subsystem)
    ensures GetSubsystemMountPoints(host, subsystem) == Ok(host.mountinfo.value[0].mountPoint)
  {
    EndsWithNameIsLastComponent(host.mountinfo.value[0].mountPoint, subsystem);
    FirstMatchIsSelected(host, subsystem, 0);
  }

  /** A co-mounted net_cls/net_prio record that comes before any other match
      resolves both controllers to the same mount point. */
  lemma CoMountedNetResolvesBoth(host: Snapshot, i: nat)
    requires host.mountinfo.Ok? && i < |host.mountinfo.value|
    requires host.mountinfo.value[i].fsType == "cgroup"
    requires LastIs(host.mountinfo.value[i].mountPoint, "net_cls,net_prio")
          || LastIs(host.mountinfo.value[i].mountPoint, "net_prio,net_cls")
    requires forall j :: 0 <= j < i ==>
      !MountMatches(host.mountinfo.value[j], "net_cls") && !MountMatches(host.mountinfo.value[j], "net_prio")
    ensures GetSubsystemMountPoints(host, "net_cls") == Ok(host.mountinfo.value[i].mountPoint)
    ensures GetSubsystemMountPoints(host, "net_prio") == Ok(host.mountinfo.value[i].mountPoint)
  {
    NetClsMatch(host.mountinfo.value[i]);
    NetPrioMatch(host.mountinfo.value[i]);
    FirstMatchIsSelected(host, "net_cls", i);
    FirstMatchIsSelected(host, "net_prio", i);
  }

  /**
   * `list_subsystem_mount_points`: a map from each controller name whose
   * lookup succeeds to its mount point; failed lookups are left out and the
   * call itself always succeeds.
   */
  method ListSubsystemMountPoints(host: Snapshot) returns (r: Result<map<string, Path>, Error>)
    ensures r.Ok?
    ensures forall c :: c in CONTROLLERS ==>
      (c.Name() in r.value <==> GetSubsystemMountPoints(host, c.Name()).Ok?)
    ensures forall k :: k in r.value ==>
      k in Names() && GetSubsystemMountPoints(host, k) == Ok(r.value[k])
  {
    var mountPaths: map<string, Path> := map[];
    for i := 0 to |CONTROLLERS|
      invariant mountPaths.Keys <= Names()
      invariant forall k :: k in mountPaths ==> GetSubsystemMountPoints(host, k) == Ok(mountPaths[k])
      invariant forall j :: 0 <= j < i ==>
        (CONTROLLERS[j].Name() in mountPaths <==> GetSubsystemMountPoints(host, CONTROLLERS[j].Name()).Ok?)
    {
      var name := CONTROLLERS[i].Name();
      var mountPoint := GetSubsystemMountPoints(host, name);
      if mountPoint.Ok? {
        mountPaths := mountPaths[name := mountPoint.value];
      }
    }
    return Ok(mountPaths);
  }
}
