/**
 * The cgroup v1 manager (src/cgroups/v1/manager.rs): it resolves one target
 * directory per controller once, dispatches resource application to the
 * controllers, and tears the directories down again.
 */
module V1Manager {
  import opened Wrappers
  import opened Paths
  import opened Errors
  import opened Procfs
  import opened Controllers
  import opened RustStr
  import Util

  /** `utils::join_absolute_path`, which is not part of this model. */
  type JoinAbsolute = (Path, Path) -> Result<Path, Error>

  /** The manager's only state: controller name to target directory. */
  datatype Manager = Manager(subsystems: map<string, Path>)

  // ---------------------------------------------------------------------------
  // Resolving the target directory of one controller

  /** `find` over /proc/self/cgroup: the first entry whose controller list names the subsystem. */
  function FindMembership(groups: seq<ProcessCgroup>, subsystem: string): (r: Option<nat>)
    ensures r.Some? ==> r.value < |groups| && subsystem in groups[r.value].controllers
    ensures r.Some? ==> forall j :: 0 <= j < r.value ==> subsystem !in groups[j].controllers
    ensures r.None? ==> forall j :: 0 <= j < |groups| ==> subsystem !in groups[j].controllers
    decreases |groups|
  {
    if groups == [] then None
    else if subsystem in groups[0].controllers then Some(0)
    else
      match FindMembership(groups[1..], subsystem)
      case None => None
      case Some(j) => Some(j + 1)
  }

  /** The calling process's own pathname in the subsystem's hierarchy. */
  function OwnCgroupPath(host: Snapshot, subsystem: string): (r: Result<Path, Error>)
    ensures host.cgroups.Err? ==> r == Err(host.cgroups.error)
    ensures host.cgroups.Ok? ==>
      var groups := host.cgroups.value;
      (r.Err? <==> forall j :: 0 <= j < |groups| ==> subsystem !in groups[j].controllers)
      && (r.Err? ==> r.error == MembershipNotFound(subsystem))
      && (r.Ok? ==> exists j :: 0 <= j < |groups| && subsystem in groups[j].controllers
                      && (forall k :: 0 <= k < j ==> subsystem !in groups[k].controllers)
                      && r.value == groups[j].pathname)
  {
    match host.cgroups
    case Err(e) => Err(e)
    case Ok(groups) =>
      match FindMembership(groups, subsystem)
      case None => Err(MembershipNotFound(subsystem))
      case Some(j) => Ok(groups[j].pathname)
  }

  /**
   * `get_subsystem_path`: select the mount point with the same predicate as
   * `get_subsystem_mount_points`, look up the caller's own placement (even
   * when it is not used), then choose the target by the form of the request:
   * empty inherits the caller's placement, absolute goes through
   * `join_absolute_path`, relative is appended to the mount point.
   */
  function GetSubsystemPath(host: Snapshot, joinAbs: JoinAbsolute, cgroupPath: Path, subsystem: string)
    : Result<Path, Error>
  {
    match host.mountinfo
    case Err(e) => Err(e)
    case Ok(mounts) =>
      match Util.FindMount(mounts, subsystem)
      case None => Err(MountNotFound(subsystem))
      case Some(i) =>
        var mountPoint := mounts[i].mountPoint;
        match host.cgroups
        case Err(e) => Err(e)
        case Ok(groups) =>
          match FindMembership(groups, subsystem)
          case None => Err(MembershipNotFound(subsystem))
          case Some(j) =>
            if IsEmpty(cgroupPath) then joinAbs(mountPoint, groups[j].pathname)
            else if cgroupPath.absolute then joinAbs(mountPoint, cgroupPath)
            else Ok(Join(mountPoint, cgroupPath))
  }

  /**
   * The outcome of `GetSubsystemPath` in terms of the two lookups: the mount
   * lookup's error, else the placement lookup's error, else the three-way
   * choice on the request; the placement's value only matters for an empty
   * request.
   */
  lemma SubsystemPathChoice(host: Snapshot, joinAbs: JoinAbsolute, cgroupPath: Path, subsystem: string)
    ensures var mount := Util.GetSubsystemMountPoints(host, subsystem);
      var r := GetSubsystemPath(host, joinAbs, cgroupPath, subsystem);
      mount.Err? ==> r == Err(mount.error)
    ensures var mount := Util.GetSubsystemMountPoints(host, subsystem);
      var own := OwnCgroupPath(host, subsystem);
      var r := GetSubsystemPath(host, joinAbs, cgroupPath, subsystem);
      mount.Ok? && own.Err? ==> r == Err(own.error)
    ensures var mount := Util.GetSubsystemMountPoints(host, subsystem);
      var own := OwnCgroupPath(host, subsystem);
      var r := GetSubsystemPath(host, joinAbs, cgroupPath, subsystem);
      mount.Ok? && own.Ok? && IsEmpty(cgroupPath) ==> r == joinAbs(mount.value, own.value)
    ensures var mount := Util.GetSubsystemMountPoints(host, subsystem);
      var own := OwnCgroupPath(host, subsystem);
      var r := GetSubsystemPath(host, joinAbs, cgroupPath, subsystem);
      mount.Ok? && own.Ok? && cgroupPath.absolute ==> r == joinAbs(mount.value, cgroupPath)
    ensures var mount := Util.GetSubsystemMountPoints(host, subsystem);
      var own := OwnCgroupPath(host, subsystem);
      var r := GetSubsystemPath(host, joinAbs, cgroupPath, subsystem);
      mount.Ok? && own.Ok? && !IsEmpty(cgroupPath) && !cgroupPath.absolute ==> r == Ok(Join(mount.value, cgroupPath))
  {
  }

  /** A non-empty request makes the result independent of where the caller itself sits. */
  lemma RequestIgnoresOwnPlacement(host: Snapshot, host': Snapshot, joinAbs: JoinAbsolute, cgroupPath: Path, subsystem: string)
    requires host.mountinfo == host'.mountinfo
    requires OwnCgroupPath(host, subsystem).Ok? && OwnCgroupPath(host', subsystem).Ok?
    requires !IsEmpty(cgroupPath)
    ensures GetSubsystemPath(host, joinAbs, cgroupPath, subsystem) == GetSubsystemPath(host', joinAbs, cgroupPath, subsystem)
  {
  }

  // ---------------------------------------------------------------------------
  // Construction

  /** Resolution of a controller name to the path of its cgroup. */
  type Resolver = string -> Result<Path, Error>

  /** `get_subsystem_path` with the snapshot and cgroup path fixed. */
  function ResolverFor(host: Snapshot, joinAbs: JoinAbsolute, cgroupPath: Path): (resolve: Resolver)
    ensures forall name :: resolve(name) == GetSubsystemPath(host, joinAbs, cgroupPath, name)
  {
    name => GetSubsystemPath(host, joinAbs, cgroupPath, name)
  }

  /** Controller `i` is the first in declaration order that `resolve` fails on, failing with `e`. */
  predicate FirstFailureAt(resolve: Resolver, i: int, e: Error) {
    && 0 <= i < |CONTROLLERS|
    && resolve(CONTROLLERS[i].Name()) == Err(e)
    && forall j :: 0 <= j < i ==> resolve(CONTROLLERS[j].Name()).Ok?
  }

  /** The names of the first `i` controllers, in `CONTROLLERS` order. */
  ghost function NamesBefore(i: nat): set<string>
    requires i <= |CONTROLLERS|
  {
    if i == 0 then {} else NamesBefore(i - 1) + {CONTROLLERS[i - 1].Name()}
  }

  /** `NamesBefore(i)` holds the names of exactly the controllers before `i`. */
  lemma {:induction false} NamesBeforeSpec(i: nat)
    requires i <= |CONTROLLERS|
    ensures forall k :: k in NamesBefore(i) <==> exists j :: 0 <= j < i && CONTROLLERS[j].Name() == k
  {
    if i > 0 {
      NamesBeforeSpec(i - 1);
    }
  }

  /** Resolving every controller in order yields one entry per controller name. */
  lemma AllResolved(resolve: Resolver, subsystems: map<string, Path>)
    requires subsystems.Keys == NamesBefore(|CONTROLLERS|)
    requires forall j :: 0 <= j < |CONTROLLERS| ==>
      CONTROLLERS[j].Name() in subsystems && resolve(CONTROLLERS[j].Name()) == Ok(subsystems[CONTROLLERS[j].Name()])
    ensures subsystems.Keys == Names()
    ensures forall c :: c in CONTROLLERS ==> resolve(c.Name()) == Ok(subsystems[c.Name()])
  {
    NamesBeforeSpec(|CONTROLLERS|);
  }

  /** A failure at `i` after successes before it is the first failure. */
  lemma FailureIsFirst(resolve: Resolver, i: nat, e: Error)
    requires i < |CONTROLLERS|
    requires forall j :: 0 <= j < i ==> resolve(CONTROLLERS[j].Name()).Ok?
    requires resolve(CONTROLLERS[i].Name()) == Err(e)
    ensures FirstFailureAt(resolve, i, e)
    ensures !forall c :: c in CONTROLLERS ==> resolve(c.Name()).Ok?
  {
    assert CONTROLLERS[i] in CONTROLLERS;
  }

  /**
   * The loop of `Manager::new`: resolve every controller in declaration
   * order, stopping at the first that fails.
   */
  method ResolveAll(resolve: Resolver) returns (r: Result<map<string, Path>, Error>)
    ensures r.Ok? <==> forall c :: c in CONTROLLERS ==> resolve(c.Name()).Ok?
    ensures r.Ok? ==> r.value.Keys == Names()
    ensures r.Ok? ==> forall c :: c in CONTROLLERS ==> resolve(c.Name()) == Ok(r.value[c.Name()])
    ensures r.Err? ==> exists i :: FirstFailureAt(resolve, i, r.error)
  {
    var subsystems: map<string, Path> := map[];
    for i := 0 to |CONTROLLERS|
      invariant subsystems.Keys == NamesBefore(i)
      invariant forall j :: 0 <= j < i ==>
        CONTROLLERS[j].Name() in subsystems && resolve(CONTROLLERS[j].Name()) == Ok(subsystems[CONTROLLERS[j].Name()])
    {
      var subsystem := CONTROLLERS[i].Name();
      var p := resolve(subsystem);
      if p.Err? {
        FailureIsFirst(resolve, i, p.error);
        return Err(p.error);
      }
      subsystems := subsystems[subsystem := p.value];
    }
    AllResolved(resolve, subsystems);
    r := Ok(subsystems);
  }

  /**
   * `Manager::new`: the map from every controller name to its resolved path,
   * or the error of the first controller, in declaration order, that fails.
   */
  method New(host: Snapshot, joinAbs: JoinAbsolute, cgroupPath: Path) returns (r: Result<Manager, Error>)
    ensures r.Ok? <==> forall c :: c in CONTROLLERS ==> GetSubsystemPath(host, joinAbs, cgroupPath, c.Name()).Ok?
    ensures r.Ok? ==> r.value.subsystems.Keys == Names()
    ensures r.Ok? ==> forall c :: c in CONTROLLERS ==>
      GetSubsystemPath(host, joinAbs, cgroupPath, c.Name()) == Ok(r.value.subsystems[c.Name()])
    ensures r.Err? ==> exists i :: FirstFailureAt(ResolverFor(host, joinAbs, cgroupPath), i, r.error)
  {
    var subsystems := ResolveAll(ResolverFor(host, joinAbs, cgroupPath));
    if subsystems.Err? {
      return Err(subsystems.error);
    }
    r := Ok(Manager(subsystems.value));
  }

  // ---------------------------------------------------------------------------
  // Iterating over the map

  /**
   * `order` is the order in which the HashMap is iterated, which Rust leaves
   * unspecified: here any sequence of its keys, so every property proved for
   * an `order` holds for each of the map's iteration orders.
   */
  predicate ListsKeys(order: seq<string>, m: Manager) {
    forall i :: 0 <= i < |order| ==> order[i] in m.subsystems
  }

  /** Every key reaches a match arm of `apply`, so the `unreachable!` arm is not taken. */
  predicate KnownKeys(m: Manager) {
    forall k :: k in m.subsystems ==> FromName(k).Some?
  }

  /** A manager built by `New` only holds keys that `apply` can dispatch. */
  lemma NewManagerHasKnownKeys(m: Manager)
    requires m.subsystems.Keys == Names()
    ensures KnownKeys(m)
  {
  }

  // ---------------------------------------------------------------------------
  // Applying resources

  /** One call to a controller's `apply`. */
  datatype Dispatch = Dispatch(controller: ControllerType, path: Path, pid: i32)

  /** The call `apply` makes for the entry `key`: the controller whose match arm is `key`,
      with the entry's path and the pid. */
  function DispatchFor(m: Manager, key: string, pid: i32): (call: Dispatch)
    requires KnownKeys(m) && key in m.subsystems
    ensures call.controller.Name() == key && call.path == m.subsystems[key] && call.pid == pid
  {
    // The match on the key string; KnownKeys rules out its `unreachable!` arm.
    Dispatch(FromName(key).value, m.subsystems[key], pid)
  }

  /** The nine controllers' `apply` functions, selected by controller. */
  type ControllerApply<!R> = (ControllerType, R, Path, i32) -> Outcome<Error>

  /** The controller's `apply` for this call succeeded. */
  predicate Succeeded<R>(controllerApply: ControllerApply<R>, resources: R, call: Dispatch) {
    controllerApply(call.controller, resources, call.path, call.pid).Pass?
  }

  /**
   * `CgroupManager::apply`: visit the entries in `order`; each goes to the
   * controller of the same name with the entry's path and the given pid; the
   * first failing controller ends the call with its error. `calls` records
   * the controllers invoked, in order.
   */
  method Apply<R>(m: Manager, order: seq<string>, controllerApply: ControllerApply<R>, resources: R, pid: i32)
    returns (r: Outcome<Error>, calls: seq<Dispatch>)
    requires KnownKeys(m)
    requires ListsKeys(order, m)
    ensures |calls| <= |order|
    ensures forall i :: 0 <= i < |calls| ==> calls[i] == DispatchFor(m, order[i], pid)
    ensures forall i :: 0 <= i < |calls| - 1 ==> Succeeded(controllerApply, resources, calls[i])
    ensures r.Pass? <==> |calls| == |order| && forall i :: 0 <= i < |calls| ==> Succeeded(controllerApply, resources, calls[i])
    ensures r.Fail? ==> |calls| > 0 && r == controllerApply(calls[|calls| - 1].controller, resources, calls[|calls| - 1].path, pid)
    ensures (forall k :: k in m.subsystems ==> k in order) ==>
      (r.Pass? <==> forall k :: k in m.subsystems ==> Succeeded(controllerApply, resources, DispatchFor(m, k, pid)))
  {
    calls := [];
    var i := 0;
    while i < |order|
      invariant 0 <= i <= |order|
      invariant |calls| == i
      invariant forall k :: 0 <= k < i ==> calls[k] == DispatchFor(m, order[k], pid)
      invariant forall k :: 0 <= k < i ==> Succeeded(controllerApply, resources, calls[k])
    {
      var call := DispatchFor(m, order[i], pid);
      calls := calls + [call];
      var outcome := controllerApply(call.controller, resources, call.path, pid);
      if outcome.Fail? {
        assert !Succeeded(controllerApply, resources, DispatchFor(m, order[i], pid));
        return outcome, calls;
      }
      i := i + 1;
    }
    r := Pass;
    if forall k :: k in m.subsystems ==> k in order {
      EveryKeySucceeded(m, order, controllerApply, resources, pid, calls);
    }
  }

  /** When `order` lists every key, the calls of a complete pass are the calls for every key. */
  lemma EveryKeySucceeded<R>(m: Manager, order: seq<string>, controllerApply: ControllerApply<R>, resources: R, pid: i32,
                             calls: seq<Dispatch>)
    requires KnownKeys(m) && ListsKeys(order, m)
    requires forall k :: k in m.subsystems ==> k in order
    requires |calls| == |order|
    requires forall i :: 0 <= i < |calls| ==> calls[i] == DispatchFor(m, order[i], pid)
    requires forall i :: 0 <= i < |calls| ==> Succeeded(controllerApply, resources, calls[i])
    ensures forall k :: k in m.subsystems ==> Succeeded(controllerApply, resources, DispatchFor(m, k, pid))
  {
    forall k | k in m.subsystems
      ensures Succeeded(controllerApply, resources, DispatchFor(m, k, pid))
    {
      var i :| 0 <= i < |order| && order[i] == k;
      assert calls[i] == DispatchFor(m, k, pid);
    }
  }

  // ---------------------------------------------------------------------------
  // Removing the directories

  /** The content of a directory's `cgroup.procs`, as `fs::read_to_string` finds it. */
  datatype ProcsFile = Readable(text: string) | Unreadable

  /** The cgroup directories that exist, each with its `cgroup.procs` file. */
  type Cgroupfs = map<Path, ProcsFile>

  /** What `remove` does to the outside world: a SIGKILL sent, a directory deletion attempted. */
  datatype Event = Kill(pid: i32) | Delete(dir: Path)

  /** The kills sent for a run of lines, and whether the run ended on a line that is not a pid. */
  datatype Signals = Signals(kills: seq<Event>, outcome: Outcome<Error>)

  /** The state after (part of) `remove`: its result, the directories left, the events in order. */
  datatype Teardown = Teardown(result: Outcome<Error>, fs: Cgroupfs, events: seq<Event>)

  /**
   * The loop over the lines of `cgroup.procs`: each line is parsed and its pid
   * killed, the kill's own result disregarded; the first line that does not
   * parse ends the loop with an error, after the kills of the lines before it.
   */
  function SignalLines(lines: seq<string>): Signals
    decreases |lines|
  {
    if lines == [] then Signals([], Pass)
    else
      match ParseI32(lines[0])
      case None => Signals([], Fail(PidParseFailed(lines[0])))
      case Some(pid) =>
        var rest := SignalLines(lines[1..]);
        Signals([Kill(pid)] + rest.kills, rest.outcome)
  }

  /**
   * The kills are those of the leading lines that parse, in order; the run
   * passes exactly when every line is a pid, and otherwise fails on the first
   * line that is not.
   */
  lemma {:induction false} SignalLinesSpec(lines: seq<string>)
    ensures var s := SignalLines(lines);
      && |s.kills| <= |lines|
      && (forall i :: 0 <= i < |s.kills| ==>
        ParseI32(lines[i]).Some? && s.kills[i] == Kill(ParseI32(lines[i]).value))
      && (s.outcome.Pass? <==> forall i :: 0 <= i < |lines| ==> ParseI32(lines[i]).Some?)
      && (s.outcome.Pass? ==> |s.kills| == |lines|)
      && (s.outcome.Fail? ==>
        (|s.kills| < |lines| && ParseI32(lines[|s.kills|]).None?
         && s.outcome.error == PidParseFailed(lines[|s.kills|])))
    decreases |lines|
  {
    if lines != [] && ParseI32(lines[0]).Some? {
      SignalLinesSpec(lines[1..]);
      forall i | 0 < i < |lines| ensures lines[1..][i - 1] == lines[i] { }
    }
  }

  /**
   * One iteration of `remove`: a directory that does not exist is skipped;
   * otherwise its `cgroup.procs` is read, every listed pid is killed, and the
   * directory is deleted by `deleteWithRetry` (`utils::delete_with_retry`,
   * not part of this model), which removes it when it succeeds.
   */
  function RemoveDir(dir: Path, fs: Cgroupfs, deleteWithRetry: Path -> Outcome<Error>): Teardown
  {
    if dir !in fs then Teardown(Pass, fs, [])
    else
      match fs[dir]
      case Unreadable => Teardown(Fail(ProcsReadFailed(dir)), fs, [])
      case Readable(text) =>
        var signals := SignalLines(Lines(text));
        if signals.outcome.Fail? then Teardown(signals.outcome, fs, signals.kills)
        else
          var events := signals.kills + [Delete(dir)];
          match deleteWithRetry(dir)
          case Pass => Teardown(Pass, fs - {dir}, events)
          case Fail(e) => Teardown(Fail(e), fs, events)
  }

  /**
   * What one directory's teardown leaves behind: a missing directory is
   * skipped; a failure leaves the directories as they were; success removes
   * exactly that directory; all events but the last are kills, and a
   * deletion is attempted, as the last event, only for an existing directory.
   */
  lemma RemoveDirEffects(dir: Path, fs: Cgroupfs, deleteWithRetry: Path -> Outcome<Error>)
    ensures dir !in fs ==> RemoveDir(dir, fs, deleteWithRetry) == Teardown(Pass, fs, [])
    ensures var t := RemoveDir(dir, fs, deleteWithRetry);
      t.result.Fail? ==> t.fs == fs
    ensures var t := RemoveDir(dir, fs, deleteWithRetry);
      t.result.Pass? ==> t.fs == fs - {dir}
    ensures var t := RemoveDir(dir, fs, deleteWithRetry);
      forall i :: 0 <= i < |t.events| - 1 ==> t.events[i].Kill?
    ensures var t := RemoveDir(dir, fs, deleteWithRetry);
      (exists i :: 0 <= i < |t.events| && t.events[i].Delete?)
      <==> (dir in fs && |t.events| > 0 && t.events[|t.events| - 1] == Delete(dir))
  {
    if dir in fs && fs[dir].Readable? {
      SignalLinesSpec(Lines(fs[dir].text));
    }
  }

  /**
   * The result and the events of one existing directory's teardown: an
   * unreadable `cgroup.procs` fails with the read error, before any kill or
   * deletion; a file whose every line is a pid leads to the kills
   * `SignalLines` gives, then one deletion, whose result is the result.
   */
  lemma RemoveDirOutcome(dir: Path, fs: Cgroupfs, deleteWithRetry: Path -> Outcome<Error>)
    ensures dir in fs && fs[dir].Unreadable? ==>
      RemoveDir(dir, fs, deleteWithRetry) == Teardown(Fail(ProcsReadFailed(dir)), fs, [])
    ensures dir in fs && fs[dir].Readable? && SignalLines(Lines(fs[dir].text)).outcome.Pass? ==>
      var t := RemoveDir(dir, fs, deleteWithRetry);
      t.events == SignalLines(Lines(fs[dir].text)).kills + [Delete(dir)] && t.result == deleteWithRetry(dir)
  {
  }

  /** The events of `prefix` followed by those of `t`. */
  function After(prefix: seq<Event>, t: Teardown): (r: Teardown)
    ensures r.result == t.result && r.fs == t.fs && r.events == prefix + t.events
  {
    Teardown(t.result, t.fs, prefix + t.events)
  }

  /** The whole loop of `remove` over the directories, stopping at the first error. */
  function RemoveAll(dirs: seq<Path>, fs: Cgroupfs, deleteWithRetry: Path -> Outcome<Error>): Teardown
    decreases |dirs|
  {
    if dirs == [] then Teardown(Pass, fs, [])
    else
      var first := RemoveDir(dirs[0], fs, deleteWithRetry);
      if first.result.Fail? then first
      else After(first.events, RemoveAll(dirs[1..], first.fs, deleteWithRetry))
  }

  /** The directories of the manager, in iteration order. */
  function Dirs(m: Manager, order: seq<string>): (ds: seq<Path>)
    requires forall i :: 0 <= i < |order| ==> order[i] in m.subsystems
    ensures |ds| == |order|
    ensures forall i :: 0 <= i < |order| ==> ds[i] == m.subsystems[order[i]]
  {
    seq(|order|, i requires 0 <= i < |order| => m.subsystems[order[i]])
  }

  lemma AfterAfter(a: seq<Event>, b: seq<Event>, t: Teardown)
    ensures After(a, After(b, t)) == After(a + b, t)
  {
    assert a + (b + t.events) == (a + b) + t.events;
  }

  /** Unfolds `RemoveAll` at position `i`. */
  lemma RemoveAllAt(dirs: seq<Path>, i: nat, fs: Cgroupfs, deleteWithRetry: Path -> Outcome<Error>)
    requires i < |dirs|
    ensures var first := RemoveDir(dirs[i], fs, deleteWithRetry);
      RemoveAll(dirs[i..], fs, deleteWithRetry)
      == if first.result.Fail? then first else After(first.events, RemoveAll(dirs[i + 1..], first.fs, deleteWithRetry))
  {
    assert dirs[i..][0] == dirs[i] && dirs[i..][1..] == dirs[i + 1..];
  }

  /**
   * Kills recorded for the lines before `j`, every one of which parses, and
   * `j` either past the end or at a line that does not parse, are what
   * `SignalLines` yields.
   */
  lemma {:induction false} SignalsOfPrefix(lines: seq<string>, kills: seq<Event>, j: nat)
    requires j <= |lines| && |kills| == j
    requires forall i :: 0 <= i < j ==>
      ParseI32(lines[i]).Some? && kills[i] == Kill(ParseI32(lines[i]).value)
    requires j < |lines| ==> ParseI32(lines[j]).None?
    ensures SignalLines(lines)
      == Signals(kills, if j < |lines| then Fail(PidParseFailed(lines[j])) else Pass)
    decreases j
  {
    if j > 0 {
      forall i | 0 <= i < j - 1 ensures lines[1..][i] == lines[i + 1] && kills[1..][i] == kills[i + 1] { }
      SignalsOfPrefix(lines[1..], kills[1..], j - 1);
      assert kills == [kills[0]] + kills[1..];
    }
  }

  /**
   * The inner loop of `remove`: parse each line of `cgroup.procs` and kill
   * its pid, stopping at the first line that is not a pid.
   */
  method KillListed(lines: seq<string>) returns (kills: seq<Event>, outcome: Outcome<Error>)
    ensures Signals(kills, outcome) == SignalLines(lines)
  {
    kills := [];
    var j := 0;
    while j < |lines|
      invariant 0 <= j <= |lines| && |kills| == j
      invariant forall i :: 0 <= i < j ==>
        ParseI32(lines[i]).Some? && kills[i] == Kill(ParseI32(lines[i]).value)
    {
      var pid := ParseI32(lines[j]);
      if pid.None? {
        SignalsOfPrefix(lines, kills, j);
        return kills, Fail(PidParseFailed(lines[j]));
      }
      kills := kills + [Kill(pid.value)];
      j := j + 1;
    }
    SignalsOfPrefix(lines, kills, j);
    outcome := Pass;
  }

  /**
   * One iteration of `remove`'s loop: skip a missing directory; otherwise
   * read its `cgroup.procs`, kill the listed pids, then delete it.
   */
  method RemoveOne(dir: Path, fs: Cgroupfs, deleteWithRetry: Path -> Outcome<Error>)
    returns (r: Outcome<Error>, fs': Cgroupfs, events: seq<Event>)
    ensures Teardown(r, fs', events) == RemoveDir(dir, fs, deleteWithRetry)
  {
    if dir !in fs {
      return Pass, fs, [];
    }
    match fs[dir]
    case Unreadable =>
      return Fail(ProcsReadFailed(dir)), fs, [];
    case Readable(text) =>
      var kills, parsed := KillListed(Lines(text));
      if parsed.Fail? {
        return parsed, fs, kills;
      }
      var deleted := deleteWithRetry(dir);
      events := kills + [Delete(dir)];
      if deleted.Fail? {
        return deleted, fs, events;
      }
      return Pass, fs - {dir}, events;
  }

  /**
   * `CgroupManager::remove`: for each existing directory in `order`, kill the
   * processes listed in its `cgroup.procs` and delete it; a read, parse or
   * delete error ends the call. Returns the result, the directories left and
   * the events sent.
   */
  method Remove(m: Manager, order: seq<string>, fs0: Cgroupfs, deleteWithRetry: Path -> Outcome<Error>)
    returns (r: Outcome<Error>, fs: Cgroupfs, events: seq<Event>)
    requires ListsKeys(order, m)
    ensures Teardown(r, fs, events) == RemoveAll(Dirs(m, order), fs0, deleteWithRetry)
  {
    ghost var dirs := Dirs(m, order);
    fs, events := fs0, [];
    var i := 0;
    while i < |order|
      invariant 0 <= i <= |order|
      invariant After(events, RemoveAll(dirs[i..], fs, deleteWithRetry)) == RemoveAll(dirs, fs0, deleteWithRetry)
    {
      var dir := m.subsystems[order[i]];
      var stepResult, stepFs, stepEvents := RemoveOne(dir, fs, deleteWithRetry);
      RemoveAllAt(dirs, i, fs, deleteWithRetry);
      if stepResult.Fail? {
        return stepResult, stepFs, events + stepEvents;
      }
      AfterAfter(events, stepEvents, RemoveAll(dirs[i + 1..], stepFs, deleteWithRetry));
      events, fs := events + stepEvents, stepFs;
      i := i + 1;
    }
    r := Pass;
  }

  // ---------------------------------------------------------------------------
  // Properties of `remove`

  /** The text of a `cgroup.procs` file listing `pids`, one decimal per line. */
  function ProcsListing(pids: seq<i32>): string {
    Unlines(seq(|pids|, i requires 0 <= i < |pids| => ToDecimal(pids[i] as int)))
  }

  /** The kills of `pids`, in order. */
  function KillsOf(pids: seq<i32>): (es: seq<Event>)
    ensures |es| == |pids|
    ensures forall i :: 0 <= i < |pids| ==> es[i] == Kill(pids[i])
  {
    seq(|pids|, i requires 0 <= i < |pids| => Kill(pids[i]))
  }

  /**
   * Every pid listed in `cgroup.procs` is killed, in the order listed, before
   * the directory is deleted; the outcome is that of the delete. An empty file
   * (`pids == []`) leads straight to the delete.
   */
  lemma ListedPidsAreKilled(dir: Path, fs: Cgroupfs, deleteWithRetry: Path -> Outcome<Error>, pids: seq<i32>)
    requires dir in fs && fs[dir] == Readable(ProcsListing(pids))
    ensures var t := RemoveDir(dir, fs, deleteWithRetry);
      && t.events == KillsOf(pids) + [Delete(dir)]
      && t.result == deleteWithRetry(dir)
      && t.fs == (if deleteWithRetry(dir).Pass? then fs - {dir} else fs)
  {
    var ls := seq(|pids|, i requires 0 <= i < |pids| => ToDecimal(pids[i] as int));
    forall i | 0 <= i < |ls| ensures '\n' !in ls[i] && !EndsWithCr(ls[i]) {
      DecimalIsOneLine(pids[i] as int);
    }
    LinesUnlines(ls);
    forall i | 0 <= i < |ls| ensures ParseI32(ls[i]) == Some(pids[i]) {
      ParseToDecimal(pids[i]);
    }
    SignalsOfPrefix(ls, KillsOf(pids), |pids|);
  }

  /**
   * A line of `cgroup.procs` that is not a pid ends `remove` with
   * `PidParseFailed` for the first such line: the pids listed before it have
   * been killed, nothing is deleted, and the delete is never attempted (the
   * result does not depend on it).
   */
  lemma UnparsableLineStops(dir: Path, fs: Cgroupfs, deleteWithRetry: Path -> Outcome<Error>,
                            other: Path -> Outcome<Error>, text: string, k: nat)
    requires dir in fs && fs[dir] == Readable(text)
    requires k < |Lines(text)| && ParseI32(Lines(text)[k]).None?
    requires forall i :: 0 <= i < k ==> ParseI32(Lines(text)[i]).Some?
    ensures var t := RemoveDir(dir, fs, deleteWithRetry);
      && t.result == Fail(PidParseFailed(Lines(text)[k]))
      && t.fs == fs
      && |t.events| == k
      && (forall i :: 0 <= i < k ==> t.events[i] == Kill(ParseI32(Lines(text)[i]).value))
      && t == RemoveDir(dir, fs, other)
  {
    var ls := Lines(text);
    var kills := seq(k, i requires 0 <= i < k => Kill(ParseI32(ls[i]).value));
    SignalsOfPrefix(ls, kills, k);
  }

  /** Directories none of which exists are all skipped: nothing happens. */
  lemma {:induction false} RemoveAllSkipsMissing(dirs: seq<Path>, fs: Cgroupfs, deleteWithRetry: Path -> Outcome<Error>)
    requires forall i :: 0 <= i < |dirs| ==> dirs[i] !in fs
    ensures RemoveAll(dirs, fs, deleteWithRetry) == Teardown(Pass, fs, [])
    decreases |dirs|
  {
    if dirs != [] {
      assert dirs[0] !in fs;
      RemoveAllSkipsMissing(dirs[1..], fs, deleteWithRetry);
    }
  }

  /**
   * `remove` deletes nothing but the manager's directories and leaves every
   * other entry as it was.
   */
  lemma {:induction false} RemoveAllShrinks(dirs: seq<Path>, fs: Cgroupfs, deleteWithRetry: Path -> Outcome<Error>)
    ensures var t := RemoveAll(dirs, fs, deleteWithRetry);
      && (forall d :: d in t.fs ==> d in fs && t.fs[d] == fs[d])
      && (forall d :: d in fs && d !in dirs ==> d in t.fs)
    decreases |dirs|
  {
    if dirs != [] {
      var first := RemoveDir(dirs[0], fs, deleteWithRetry);
      RemoveDirEffects(dirs[0], fs, deleteWithRetry);
      if first.result.Pass? {
        RemoveAllShrinks(dirs[1..], first.fs, deleteWithRetry);
        forall d | d !in dirs[1..] && d != dirs[0] ensures d !in dirs { }
      }
    }
  }

  /** When `remove` succeeds, none of the manager's directories is left. */
  lemma {:induction false} RemoveAllClears(dirs: seq<Path>, fs: Cgroupfs, deleteWithRetry: Path -> Outcome<Error>)
    ensures var t := RemoveAll(dirs, fs, deleteWithRetry);
      t.result.Pass? ==> forall d :: d in dirs ==> d !in t.fs
    decreases |dirs|
  {
    if dirs != [] {
      var first := RemoveDir(dirs[0], fs, deleteWithRetry);
      RemoveDirEffects(dirs[0], fs, deleteWithRetry);
      if first.result.Pass? {
        RemoveAllClears(dirs[1..], first.fs, deleteWithRetry);
        RemoveAllShrinks(dirs[1..], first.fs, deleteWithRetry);
        forall d | d in dirs ensures d == dirs[0] || d in dirs[1..] { }
      }
    }
  }

  /** Each delete in `events` is of one of `dirs` that exists in `fs`. */
  predicate DeletesAmong(events: seq<Event>, dirs: seq<Path>, fs: Cgroupfs) {
    forall i :: 0 <= i < |events| && events[i].Delete? ==> events[i].dir in dirs && events[i].dir in fs
  }

  /** Each delete `remove` sends is of one of the manager's directories that existed. */
  lemma {:induction false} RemoveAllDeletes(dirs: seq<Path>, fs: Cgroupfs, deleteWithRetry: Path -> Outcome<Error>)
    ensures DeletesAmong(RemoveAll(dirs, fs, deleteWithRetry).events, dirs, fs)
    decreases |dirs|
  {
    if dirs != [] {
      var first := RemoveDir(dirs[0], fs, deleteWithRetry);
      RemoveDirEffects(dirs[0], fs, deleteWithRetry);
      if first.result.Pass? {
        RemoveAllDeletes(dirs[1..], first.fs, deleteWithRetry);
        var rest := RemoveAll(dirs[1..], first.fs, deleteWithRetry);
        assert DeletesAmong(rest.events, dirs[1..], first.fs);
        RemoveDirDeletes(dirs[0], fs, deleteWithRetry);
        DeletesAmongAppend(first.events, rest.events, dirs[0], dirs[1..], fs, first.fs);
        assert [dirs[0]] + dirs[1..] == dirs;
      }
    }
  }

  /** One directory's teardown deletes nothing but that directory, and only when it exists. */
  lemma RemoveDirDeletes(dir: Path, fs: Cgroupfs, deleteWithRetry: Path -> Outcome<Error>)
    ensures DeletesAmong(RemoveDir(dir, fs, deleteWithRetry).events, [dir], fs)
  {
    var t := RemoveDir(dir, fs, deleteWithRetry);
    RemoveDirEffects(dir, fs, deleteWithRetry);
    forall i | 0 <= i < |t.events| && t.events[i].Delete?
      ensures t.events[i].dir in [dir] && t.events[i].dir in fs
    {
      assert t.events[|t.events| - 1] == Delete(dir);
    }
  }

  lemma DeletesAmongAppend(a: seq<Event>, b: seq<Event>, d: Path, ds: seq<Path>, fs: Cgroupfs, fs': Cgroupfs)
    requires DeletesAmong(a, [d], fs) && DeletesAmong(b, ds, fs')
    requires fs'.Keys <= fs.Keys
    ensures DeletesAmong(a + b, [d] + ds, fs)
  {
    forall i | 0 <= i < |a + b| && (a + b)[i].Delete?
      ensures (a + b)[i].dir in [d] + ds && (a + b)[i].dir in fs
    {
      if i < |a| {
        assert (a + b)[i] == a[i];
      } else {
        assert (a + b)[i] == b[i - |a|];
      }
    }
  }

  /** No directory is the target of two deletes in `events`. */
  predicate NoDupDeletes(events: seq<Event>) {
    forall i, j :: 0 <= i < j < |events| && events[i].Delete? && events[j].Delete? ==>
      events[i].dir != events[j].dir
  }

  /** Two runs without repeated deletes whose deletes differ from each other have none together. */
  lemma NoDupDeletesAppend(a: seq<Event>, b: seq<Event>)
    requires NoDupDeletes(a) && NoDupDeletes(b)
    requires forall i, j :: 0 <= i < |a| && 0 <= j < |b| && a[i].Delete? && b[j].Delete? ==> a[i].dir != b[j].dir
    ensures NoDupDeletes(a + b)
  {
    forall i, j | 0 <= i < j < |a + b| && (a + b)[i].Delete? && (a + b)[j].Delete?
      ensures (a + b)[i].dir != (a + b)[j].dir
    {
      if j < |a| {
        assert (a + b)[i] == a[i] && (a + b)[j] == a[j];
      } else if i < |a| {
        assert (a + b)[i] == a[i] && (a + b)[j] == b[j - |a|];
      } else {
        assert (a + b)[i] == b[i - |a|] && (a + b)[j] == b[j - |a|];
      }
    }
  }

  /**
   * One `remove` deletes each directory at most once, whatever the positions
   * of the entries that share it (co-mounted controllers): a deleted directory
   * is gone, so its later visits are skipped.
   */
  lemma {:induction false} RemoveAllDeletesOnce(dirs: seq<Path>, fs: Cgroupfs, deleteWithRetry: Path -> Outcome<Error>)
    ensures NoDupDeletes(RemoveAll(dirs, fs, deleteWithRetry).events)
    decreases |dirs|
  {
    if dirs != [] {
      var first := RemoveDir(dirs[0], fs, deleteWithRetry);
      RemoveDirEffects(dirs[0], fs, deleteWithRetry);
      assert NoDupDeletes(first.events);
      if first.result.Pass? {
        RemoveAllDeletesOnce(dirs[1..], first.fs, deleteWithRetry);
        RemoveAllDeletes(dirs[1..], first.fs, deleteWithRetry);
        var rest := RemoveAll(dirs[1..], first.fs, deleteWithRetry);
        assert DeletesAmong(rest.events, dirs[1..], first.fs);
        forall i, j | 0 <= i < |first.events| && 0 <= j < |rest.events| && first.events[i].Delete? && rest.events[j].Delete?
          ensures first.events[i].dir != rest.events[j].dir
        {
          assert dirs[0] in fs && first.events[i].dir == dirs[0];
          assert rest.events[j].dir in first.fs;
        }
        NoDupDeletesAppend(first.events, rest.events);
      }
    }
  }

  /** On success, exactly the manager's directories are gone. */
  lemma RemoveAllPass(dirs: seq<Path>, fs: Cgroupfs, deleteWithRetry: Path -> Outcome<Error>)
    requires RemoveAll(dirs, fs, deleteWithRetry).result.Pass?
    ensures RemoveAll(dirs, fs, deleteWithRetry).fs == fs - (set d | d in dirs)
  {
    RemoveAllShrinks(dirs, fs, deleteWithRetry);
    RemoveAllClears(dirs, fs, deleteWithRetry);
  }

  /** Removing `a + b` removes `a`, then, unless that failed, `b`. */
  lemma {:induction false} RemoveAllAppend(a: seq<Path>, b: seq<Path>, fs: Cgroupfs, deleteWithRetry: Path -> Outcome<Error>)
    ensures var t := RemoveAll(a, fs, deleteWithRetry);
      RemoveAll(a + b, fs, deleteWithRetry)
      == if t.result.Fail? then t else After(t.events, RemoveAll(b, t.fs, deleteWithRetry))
    decreases |a|
  {
    if a == [] {
      assert a + b == b;
      assert [] + RemoveAll(b, fs, deleteWithRetry).events == RemoveAll(b, fs, deleteWithRetry).events;
    } else {
      assert (a + b)[0] == a[0] && (a + b)[1..] == a[1..] + b;
      var first := RemoveDir(a[0], fs, deleteWithRetry);
      if first.result.Pass? {
        RemoveAllAppend(a[1..], b, first.fs, deleteWithRetry);
        var t1 := RemoveAll(a[1..], first.fs, deleteWithRetry);
        if t1.result.Pass? {
          AfterAfter(first.events, t1.events, RemoveAll(b, t1.fs, deleteWithRetry));
        }
      }
    }
  }

  /** After a successful `remove`, removing again finds nothing and does nothing. */
  lemma RemoveAgainIsNoop(dirs: seq<Path>, fs: Cgroupfs, deleteWithRetry: Path -> Outcome<Error>)
    requires RemoveAll(dirs, fs, deleteWithRetry).result.Pass?
    ensures var t := RemoveAll(dirs, fs, deleteWithRetry);
      RemoveAll(dirs, t.fs, deleteWithRetry) == Teardown(Pass, t.fs, [])
  {
    var t := RemoveAll(dirs, fs, deleteWithRetry);
    RemoveAllClears(dirs, fs, deleteWithRetry);
    forall i | 0 <= i < |dirs| ensures dirs[i] !in t.fs {
      assert dirs[i] in dirs;
    }
    RemoveAllSkipsMissing(dirs, t.fs, deleteWithRetry);
  }

  /**
   * Visiting the directories twice is the same as visiting them once: this is
   * why co-mounted controllers, which share a directory, are harmless.
   */
  lemma RemoveTwiceIsOnce(dirs: seq<Path>, fs: Cgroupfs, deleteWithRetry: Path -> Outcome<Error>)
    ensures RemoveAll(dirs + dirs, fs, deleteWithRetry) == RemoveAll(dirs, fs, deleteWithRetry)
  {
    var t := RemoveAll(dirs, fs, deleteWithRetry);
    RemoveAllAppend(dirs, dirs, fs, deleteWithRetry);
    if t.result.Pass? {
      RemoveAgainIsNoop(dirs, fs, deleteWithRetry);
      assert t.events + [] == t.events;
    }
  }
}
