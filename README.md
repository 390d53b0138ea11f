# youki cgroup v1 manager: a Dafny model

This project models the cgroup v1 core of the youki container runtime, and
the `Command` test double that records namespace calls.

- **Mount-point selection** (`src/cgroups/v1/util.rs`). `get_subsystem_mount_points`
  finds a controller's mount point in the host mount table. It takes the first
  record that satisfies the `find` predicate. The predicate special-cases the
  co-mounted `net_cls,net_prio` pair and `cpu,cpuacct`.
  `list_subsystem_mount_points` collects the lookups that succeed.
- **Target-directory resolution** (`src/cgroups/v1/manager.rs`). `get_subsystem_path`
  uses the same predicate. It also looks up the caller's own placement in
  `/proc/self/cgroup`. It then picks one of three targets, by the form of the
  requested cgroup path:
  - empty: the caller's placement, under the mount point;
  - absolute: `join_absolute_path(mount point, path)`;
  - relative: the path appended to the mount point.
- **`Manager::new`** resolves the nine controllers in declaration order and
  stops at the first failure. **`apply`** dispatches each map entry to the
  controller of the same name and stops at the first failure. **`remove`**
  visits each directory that exists. For each one it kills every pid listed
  in `cgroup.procs`, then deletes the directory. A read, parse or delete error
  stops it.
- **`TestHelperCommand`** (`src/command/test.rs`) is a class. It has two
  append-only logs, one for `set_ns` arguments and one for `unshare` arguments.

Host state is passed in as values:
- `Procfs.Snapshot` holds the mount table and the process's cgroup membership.
  Each can be an error.
- A map from directory to `cgroup.procs` content stands for the cgroup
  filesystem.
- An event log records the kills and deletes that `remove` sends.

Collaborators whose code is not part of this model are function-typed
parameters: `utils::join_absolute_path`, `utils::delete_with_retry` and the
nine controllers' `apply`.

Paths are sequences of components (`Paths.Path`), so `Path::ends_with` is
component-wise, as in `std::path`. A mount point `.../cpuset` therefore does
not end with `cpu`.

Two consequences of the code deserve a note:
- The `find` closure (`util.rs:24-45`, `manager.rs:55-76`) applies the
  `net_cls`, `net_prio` and `cpu` special cases only to `cgroup` records.
  Its fallback `ends_with(subsystem)` (`util.rs:44`, `manager.rs:75`) runs for
  every record, of any filesystem type. So a non-cgroup mount whose last
  component is a controller name can be selected (`Util.GenericMatch`,
  `Util.NonCgroupRecordIsSelected`).
- `join_absolute_path` is a parameter, so its handling of components that
  would escape the mount point, such as `..`, is unknown and nothing is
  claimed about it.

## Model

| member | source | states |
|---|---|---|
| Controllers.ControllersAreDistinct | src/cgroups/v1/manager.rs:21-31 | There are nine controllers, every controller type occurs in `CONTROLLERS`, and their names are pairwise distinct. |
| Controllers.FromName | src/cgroups/v1/manager.rs:102-112 | A key selects the controller whose name it is. No controller is selected (the `unreachable!` arm) exactly when the key is not one of the nine names. |
| Controllers.FromNameOfName | src/cgroups/v1/manager.rs:102-111 | Every controller's own name dispatches back to that controller. |
| Paths.EndsWithNameIsLastComponent | src/cgroups/v1/manager.rs:61-75 | For a non-empty name, `ends_with(name)` holds exactly when the last component equals the name. |
| Paths.Join | src/cgroups/v1/manager.rs:92 | `join` of a rooted path is that path. `join` of a relative path keeps the base's root and components and appends the path's components after them. |
| Paths.EndsWith | src/cgroups/v1/util.rs:30-44 | `Path::ends_with`, component-wise. It has no contract of its own; `Paths.EndsWithNameIsLastComponent` and `Paths.JoinEndsWith` specify it. |
| Paths.JoinEndsWith | src/cgroups/v1/manager.rs:92 | Joining a relative path yields a path that ends with it. |
| RustStr.ParseI32 | src/cgroups/v1/manager.rs:127 | The empty string does not parse. A parsed string has only digits after its first character. A negative value came from a leading `-`. |
| RustStr.LeadingZero | src/cgroups/v1/manager.rs:127 | A leading `0` does not change the value of a run of digits. |
| RustStr.ParsePlusAndZeros | src/cgroups/v1/manager.rs:127 | A leading `+` or a leading `0` in front of a numeral in the `i32` range is accepted and gives the same value. |
| RustStr.ParseExamples | src/cgroups/v1/manager.rs:127 | `+7` and `007` parse to 7 and `-12` to -12. A lone sign, the empty string, spaces, a trailing carriage return and a double sign are refused. |
| RustStr.ParseOutOfRange | src/cgroups/v1/manager.rs:127 | The decimal form of a value outside the `i32` range, positive or negative, is refused. |
| RustStr.ParseToDecimal | src/cgroups/v1/manager.rs:127 | Parsing the decimal form of any `i32` gives that `i32` back. |
| RustStr.Lines | src/cgroups/v1/manager.rs:126 | `lines` of the empty text is empty and of any other text is not. No line contains a line feed. |
| RustStr.LinesUnlines | src/cgroups/v1/manager.rs:126 | `lines` gives back the lines of a text written one per line with `\n` after each, when no line contains a line feed or ends in a carriage return. |
| Util.MountMatches | src/cgroups/v1/util.rs:24-45 | The `find` predicate. It has no contract of its own; `Util.NetClsMatch`, `Util.NetPrioMatch`, `Util.CpuMatch` and `Util.GenericMatch` specify it, case by case. |
| Util.GetSubsystemMountPoints | src/cgroups/v1/util.rs:20-47 | It has no contract of its own; `Util.MountPointIsFirstMatch` specifies it. |
| Util.FindMount | src/cgroups/v1/util.rs:21-45 | The `find` result is a record that satisfies the predicate, and no record before it does. No result means that no record satisfies it. |
| Util.MountPointIsFirstMatch | src/cgroups/v1/util.rs:20-47 | A mount-table read error is returned as is. Otherwise the result is `MountNotFound` exactly when no record satisfies the predicate, and else the mount point of the first record that does. |
| Util.FirstMatchIsSelected | src/cgroups/v1/util.rs:21-46 | The first record that satisfies the predicate is the one returned. |
| Util.NetClsMatch | src/cgroups/v1/util.rs:25-32 | On a `cgroup` record, `net_cls` matches exactly when the last component is `net_cls,net_prio`, `net_prio,net_cls` or `net_cls`. |
| Util.NetPrioMatch | src/cgroups/v1/util.rs:25-36 | On a `cgroup` record, `net_prio` matches exactly when the last component is `net_cls,net_prio`, `net_prio,net_cls` or `net_prio`. |
| Util.CpuMatch | src/cgroups/v1/util.rs:39-42 | On a `cgroup` record, `cpu` matches exactly when the last component is `cpu,cpuacct` or `cpu`. A `cpuset` or `cpuacct,cpu` mount never matches. |
| Util.GenericMatch | src/cgroups/v1/util.rs:25-44 | Every other record and subsystem, including a non-`cgroup` record for `net_cls`, `net_prio` or `cpu`, matches exactly when the mount point ends with the subsystem name. |
| Util.NonCgroupRecordIsSelected | src/cgroups/v1/util.rs:24-46 | A first record of another filesystem type whose last component is the name is returned. |
| Util.CoMountedNetResolvesBoth | src/cgroups/v1/util.rs:29-36 | Take a co-mounted `net_cls,net_prio` or `net_prio,net_cls` record with no earlier match for either controller. Both `net_cls` and `net_prio` resolve to its mount point. |
| Util.ListSubsystemMountPoints | src/cgroups/v1/util.rs:8-18 | The call always succeeds. A controller's name is a key exactly when its lookup succeeds. Every key is a controller name, and its value is the mount point its lookup returns. |
| V1Manager.FindMembership | src/cgroups/v1/manager.rs:79-83 | The result is the first membership entry whose controller list names the subsystem. No result means that no entry names it. |
| V1Manager.OwnCgroupPath | src/cgroups/v1/manager.rs:79-83 | A membership read error is returned as is. Otherwise the result is `MembershipNotFound` exactly when no entry names the subsystem, and else the pathname of the first entry that does. |
| V1Manager.GetSubsystemPath | src/cgroups/v1/manager.rs:50-96 | It has no contract of its own; `V1Manager.SubsystemPathChoice` and `V1Manager.RequestIgnoresOwnPlacement` specify it. |
| V1Manager.SubsystemPathChoice | src/cgroups/v1/manager.rs:50-96 | The mount lookup is the one `get_subsystem_mount_points` makes, and its error comes first. Then comes the membership lookup's error. Then the request: empty joins the caller's pathname through `join_absolute_path`, absolute goes through `join_absolute_path`, relative is appended to the mount point. |
| V1Manager.RequestIgnoresOwnPlacement | src/cgroups/v1/manager.rs:85-93 | For a non-empty request, the result does not depend on where the caller sits, once the membership lookup has succeeded. |
| V1Manager.ResolveAll | src/cgroups/v1/manager.rs:39-47 | The loop succeeds exactly when all nine controllers resolve. It then yields a map whose keys are exactly the nine names, each mapped to its own resolved path. Otherwise it yields the error of the first controller, in declaration order, that fails. |
| V1Manager.New | src/cgroups/v1/manager.rs:38-48 | Construction succeeds exactly when every controller's `get_subsystem_path` succeeds. The map's keys are then exactly the nine names, each mapped to its own path. A failure is the first controller's error, in declaration order. |
| V1Manager.NewManagerHasKnownKeys | src/cgroups/v1/manager.rs:38-48 | Every key of a map with exactly the nine names reaches a match arm of `apply`. |
| V1Manager.DispatchFor | src/cgroups/v1/manager.rs:102-111 | The call for a key goes to the controller of that name, with that entry's path and the given pid. |
| V1Manager.Apply | src/cgroups/v1/manager.rs:100-117 | Entries are dispatched in iteration order, each to its own controller with its path and the pid. Every call but the last succeeded. The result is `Ok` exactly when all entries were dispatched and all succeeded. A failure is the last call's own error. When the order lists every key of the map, for example an iteration of the whole map, the result is `Ok` exactly when every entry's controller succeeds. |
| V1Manager.EveryKeySucceeded | src/cgroups/v1/manager.rs:101-116 | When the order lists every key and every call in that order succeeded, the controller of every key succeeded. |
| V1Manager.SignalLines | src/cgroups/v1/manager.rs:126-129 | It has no contract of its own; `V1Manager.SignalLinesSpec` specifies it. |
| V1Manager.SignalLinesSpec | src/cgroups/v1/manager.rs:126-129 | One kill per leading line that parses, in order. The run passes exactly when every line is a pid. Otherwise it stops with `PidParseFailed` on the first line that is not. |
| V1Manager.KillListed | src/cgroups/v1/manager.rs:126-129 | The loop's kills and outcome are those `SignalLines` specifies. |
| V1Manager.RemoveDir | src/cgroups/v1/manager.rs:121-132 | One directory of `remove`. It has no contract of its own; `V1Manager.RemoveDirEffects`, `V1Manager.RemoveDirOutcome`, `V1Manager.ListedPidsAreKilled` and `V1Manager.UnparsableLineStops` specify it. |
| V1Manager.RemoveAll | src/cgroups/v1/manager.rs:120-133 | The loop of `remove` over a list of directories. It has no contract of its own; the `V1Manager.RemoveAll*`, `V1Manager.RemoveAgainIsNoop` and `V1Manager.RemoveTwiceIsOnce` lemmas specify it. |
| V1Manager.RemoveDirEffects | src/cgroups/v1/manager.rs:120-132 | A missing directory is skipped. A failure leaves the directories as they were. Success removes exactly that directory. Every event but the last is a kill. A delete is sent only for an existing directory, and only as the last event. The read-error result and the events of a fully parsed file are stated by `V1Manager.RemoveDirOutcome`. |
| V1Manager.RemoveDirOutcome | src/cgroups/v1/manager.rs:123-131 | An existing directory whose `cgroup.procs` cannot be read fails with `ProcsReadFailed` for that directory, sends no kill and no delete, and keeps every directory. When every line of a readable file is a pid, the events are the kills `SignalLines` gives for its lines, followed by one delete of the directory, and the result is the delete's result. |
| V1Manager.RemoveOne | src/cgroups/v1/manager.rs:121-132 | One iteration of the loop yields what `RemoveDir` specifies. |
| V1Manager.Remove | src/cgroups/v1/manager.rs:119-136 | The loop over the map yields the result, remaining directories and events that `RemoveAll` specifies for the directories in iteration order. |
| V1Manager.ListedPidsAreKilled | src/cgroups/v1/manager.rs:123-131 | A `cgroup.procs` that lists some pids, one per line, makes `remove` kill exactly those pids, in order, then delete the directory. An empty file leads straight to the delete. The result and the directory's removal follow the delete. |
| V1Manager.UnparsableLineStops | src/cgroups/v1/manager.rs:126-131 | A line that is not a pid ends with `PidParseFailed` for the first such line, after the kills of the lines before it. Nothing is deleted, and the outcome does not depend on the delete. |
| V1Manager.RemoveAllSkipsMissing | src/cgroups/v1/manager.rs:120-121 | Directories none of which exists are skipped: `Ok`, nothing changed, no event. |
| V1Manager.RemoveAllShrinks | src/cgroups/v1/manager.rs:119-136 | `remove` deletes nothing but the manager's directories, and every entry it keeps is unchanged. |
| V1Manager.RemoveAllClears | src/cgroups/v1/manager.rs:119-136 | When `remove` succeeds, none of the manager's directories is left. |
| V1Manager.RemoveAllDeletes | src/cgroups/v1/manager.rs:119-136 | Each delete that `remove` sends is of one of the manager's directories that existed. |
| V1Manager.RemoveDirDeletes | src/cgroups/v1/manager.rs:121-131 | One directory's teardown sends no delete but of that directory, and only when it exists. |
| V1Manager.DeletesAmongAppend | src/cgroups/v1/manager.rs:120-133 | The deletes of one directory followed by those of the rest are all of the directories listed, and of ones that existed. |
| V1Manager.RemoveAllPass | src/cgroups/v1/manager.rs:119-136 | When `remove` succeeds, exactly the manager's directories are gone. |
| V1Manager.RemoveAllAppend | src/cgroups/v1/manager.rs:120-133 | Removing one list of directories followed by another removes the first list, then, unless that failed, the second: an error stops every later directory. |
| V1Manager.RemoveAgainIsNoop | src/cgroups/v1/manager.rs:119-136 | After a successful `remove`, a second `remove` finds nothing and does nothing. |
| V1Manager.RemoveTwiceIsOnce | src/cgroups/v1/manager.rs:119-136 | Visiting the directories twice is the same as visiting them once: after a directory has been removed, a later visit to it is skipped. |
| V1Manager.RemoveAllDeletesOnce | src/cgroups/v1/manager.rs:119-136 | One `remove` sends at most one delete for each directory, even when co-mounted controllers share it and it appears several times, wherever those entries sit in the iteration order. |
| V1Manager.NoDupDeletesAppend | src/cgroups/v1/manager.rs:120-133 | Two event logs without repeated deletes, whose deletes are of different directories, make a combined log without repeated deletes. |
| CommandTest.TestHelperCommand.Default | src/command/test.rs:13-20 | Both logs start empty. |
| CommandTest.TestHelperCommand.SetNs | src/command/test.rs:31-35 | `set_ns` returns `Ok`, appends exactly `(rawfd, nstype)` to the end of its log and leaves the `unshare` log unchanged. |
| CommandTest.TestHelperCommand.Unshare | src/command/test.rs:41-44 | `unshare` returns `Ok`, appends exactly `flags` to the end of its log and leaves the `set_ns` log unchanged. |
| CommandTest.TestHelperCommand.GetSetnsArgs | src/command/test.rs:48-50 | Returns every recorded `set_ns` pair, in call order, and changes nothing. |
| CommandTest.TestHelperCommand.GetUnshareArgs | src/command/test.rs:52-54 | Returns every recorded `unshare` flag set, in call order, and changes nothing. |

## Left out

- Reading `/proc/self/mountinfo` and `/proc/self/cgroup`: host I/O, taken as a `Procfs.Snapshot` value. The mountinfo line format is not modelled. One snapshot serves every lookup of one `Manager::new` and of one `list_subsystem_mount_points`, whereas the code re-reads `/proc` for each lookup (`manager.rs:52,79`, `util.rs:12,21`), so a host that changes during construction or listing is not modelled.
- `utils::join_absolute_path`, `utils::delete_with_retry` and the nine controllers' `apply` bodies: not part of this model. They are uninterpreted function parameters, so no path-escape check, retry count or delay is modelled.
- `Path::exists`, `fs::read_to_string` and `kill`: modelled as a map from directory to `cgroup.procs` text (or a read failure) plus an event log. The effect of SIGKILL on the processes and the kernel's asynchronous release of the cgroup are not modelled. The kill's own result is discarded, as in the code.
- `controller_type::CONTROLLERS` and `ControllerType::to_string` (used by `util.rs:6-13` and `manager.rs:40`): not part of this model. Both are taken to be the nine controllers and names of the match arms at `manager.rs:103-111`.
- HashMap iteration order in `apply` and `remove`: Rust leaves it unspecified, so it is an `order` parameter. That parameter is any sequence of the map's keys (`ListsKeys`), which includes every iteration order.
- V1Manager.Apply: requires `KnownKeys` (every key is one of the nine names), which `NewManagerHasKnownKeys` shows holds for every map `New` builds. The code panics in its `unreachable!` arm otherwise, and that panic is not modelled.
- The two `.unwrap()` panics in `get_subsystem_path` (`manager.rs:77,83`) are modelled as the errors `MountNotFound` and `MembershipNotFound`, which make construction fail.
- `log::debug!` calls: logging only.
- `str::lines` is modelled as splitting after each `\n` and dropping one trailing `\r` from each line, as the standard library of that period does. `str::parse::<i32>` is an optional sign and one or more ASCII digits within the `i32` range.
- Path normalisation (`.` and `..` components, repeated separators), controller names containing `/`, and non-UTF-8 paths are not modelled. A name is one path component.
- `TestHelperCommand`'s `pivot_rootfs` and `set_id` (both `unimplemented!()`), `as_any` (reflection), the `RefCell` borrow checks and `#[derive(Clone)]` are not modelled. `nix::sched::CloneFlags` is modelled by its raw `int` bits.
- Concurrency: every operation here is sequential.
