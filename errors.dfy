/** The errors the core propagates with `?`, or that replace its panics. */
module Errors {
  import opened Paths

  datatype Error =
    /** `Process::myself()`, `mountinfo()` or `cgroups()` could not read /proc. */
    | ProcfsFailed(reason: string)
    /** No mount-table record satisfies the predicate (a panicking `unwrap` in the manager). */
    | MountNotFound(subsystem: string)
    /** No cgroup entry of the calling process lists the controller (a panicking `unwrap`). */
    | MembershipNotFound(subsystem: string)
    /** `fs::read_to_string` of a directory's `cgroup.procs` failed. */
    | ProcsReadFailed(dir: Path)
    /** A line of `cgroup.procs` is not an `i32`. */
    | PidParseFailed(line: string)
    /** An error returned by code outside this model: a controller's `apply`,
        `join_absolute_path` or `delete_with_retry`. */
    | External(reason: string)
}
