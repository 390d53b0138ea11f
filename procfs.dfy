/** What the core reads about the host through the `procfs` crate. */
module Procfs {
  import opened Wrappers
  import opened Paths
  import opened Errors

  /** One record of /proc/self/mountinfo, reduced to the two fields the core reads. */
  datatype MountInfo = MountInfo(fsType: string, mountPoint: Path)

  /** One line of /proc/self/cgroup: the controllers of a hierarchy and the
      calling process's pathname inside it. */
  datatype ProcessCgroup = ProcessCgroup(controllers: seq<string>, pathname: Path)

  /** The answers of `Process::myself()?.mountinfo()?` and
      `Process::myself()?.cgroups()?`, each either a listing or a read error. */
  datatype Snapshot = Snapshot(
    mountinfo: Result<seq<MountInfo>, Error>,
    cgroups: Result<seq<ProcessCgroup>, Error>)
}
